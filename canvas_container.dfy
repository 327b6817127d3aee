/**
 * The paged-canvas navigator of the site (CanvasContainer).
 *
 * A fixed, ordered list of `n` canvases; one of them is current. Four input
 * channels (the global jump function, ArrowUp/ArrowDown, the mouse wheel and
 * the release of a vertical drag) each compute a candidate index and, when it
 * passes their gates, go through one accept path that sets the in-flight flag,
 * commits the index (emitting one index-change notification) and stamps the
 * interaction time. The animation-complete hook clears the in-flight flag.
 *
 * The pure functions below are the specification; the class `CanvasContainer`
 * at the end is the component itself, each handler updating its fields in
 * place behind guard returns and proved to follow its specification function.
 */
module Navigation {

  /** Milliseconds that must pass after an accepted interaction before a jump,
      key, wheel or indicator request is accepted again. */
  const InteractionCooldown: int := 300
  /** A wheel event steps only when its vertical delta is beyond this. */
  const WheelThreshold: real := 20.0
  /** A drag release steps only when its vertical offset is beyond this. */
  const SwipeThreshold: real := 50.0

  /** The navigator's state: the current index (the React state, its ref and
      the published window value move in lock-step, so they are one field),
      the in-flight flag, the time of the last accepted interaction, and the
      index-change notifications dispatched so far, oldest first. */
  datatype Nav = Nav(current: int, animating: bool, lastInteraction: nat, notified: seq<int>)

  /** State on mount: index 0, idle, interaction time 0, nothing dispatched. */
  function Initial(): Nav
  {
    Nav(0, false, 0, [])
  }

  predicate InRange(n: nat, k: int)
  {
    0 <= k < n
  }

  /** The index the last notification carried, or 0 (the initial index) when
      none was dispatched. */
  function LastNotified(log: seq<int>): int
  {
    if log == [] then 0 else log[|log| - 1]
  }

  predicate CoolingDown(s: Nav, now: nat)
  {
    now - s.lastInteraction < InteractionCooldown
  }

  /** setCurrentCanvasIndex: a redundant index is ignored; otherwise the index
      is committed and one notification carrying it is dispatched. */
  function Commit(s: Nav, k: int): Nav
  {
    if k == s.current then s else s.(current := k, notified := s.notified + [k])
  }

  /** The accept path every channel shares: mark in flight, commit, stamp. */
  function Accept(s: Nav, k: int, now: nat): Nav
  {
    Commit(s.(animating := true), k).(lastInteraction := now)
  }

  /** window.setCanvasIndex: gated by the in-flight flag, the cooldown, the
      bounds and "not the current index". */
  function JumpStep(n: nat, s: Nav, k: int, now: nat): (r: Nav)
    ensures r != s <==> !s.animating && !CoolingDown(s, now) && InRange(n, k) && k != s.current
    ensures r != s ==> r == Nav(k, true, now, s.notified + [k])
  {
    if s.animating then s
    else if CoolingDown(s, now) then s
    else if InRange(n, k) && k != s.current then Accept(s, k, now)
    else s
  }

  /** The index a key press asks for: one up on ArrowUp unless at the first
      canvas, one down on ArrowDown unless at the last, else unchanged. */
  function KeyTarget(n: nat, current: int, key: string): int
  {
    if key == "ArrowUp" && current > 0 then current - 1
    else if key == "ArrowDown" && current < n - 1 then current + 1
    else current
  }

  /** handleKeyDown. */
  function KeyStep(n: nat, s: Nav, key: string, now: nat): (r: Nav)
    ensures r != s <==> !s.animating && !CoolingDown(s, now) &&
                        ((key == "ArrowUp" && s.current > 0) || (key == "ArrowDown" && s.current < n - 1))
    ensures r != s ==> r.current == (if key == "ArrowUp" then s.current - 1 else s.current + 1)
    ensures r != s ==> r == Nav(r.current, true, now, s.notified + [r.current])
  {
    if s.animating then s
    else if CoolingDown(s, now) then s
    else
      var newIndex := KeyTarget(n, s.current, key);
      if newIndex != s.current then Accept(s, newIndex, now) else s
  }

  /** The index a wheel event asks for; each event is judged on its own delta. */
  function WheelTarget(n: nat, current: int, deltaY: real): int
  {
    if deltaY < -WheelThreshold && current > 0 then current - 1
    else if deltaY > WheelThreshold && current < n - 1 then current + 1
    else current
  }

  /** handleWheel. */
  function WheelStep(n: nat, s: Nav, deltaY: real, now: nat): (r: Nav)
    ensures r != s <==> !s.animating && !CoolingDown(s, now) &&
                        ((deltaY < -WheelThreshold && s.current > 0) || (deltaY > WheelThreshold && s.current < n - 1))
    ensures r != s ==> r.current == (if deltaY < 0.0 then s.current - 1 else s.current + 1)
    ensures r != s ==> r == Nav(r.current, true, now, s.notified + [r.current])
  {
    if s.animating then s
    else if CoolingDown(s, now) then s
    else
      var newIndex := WheelTarget(n, s.current, deltaY);
      if newIndex != s.current then Accept(s, newIndex, now) else s
  }

  /** The index a drag release asks for: dragging down (positive offset) goes
      to the previous canvas, dragging up to the next one. */
  function DragTarget(n: nat, current: int, offsetY: real): int
  {
    if offsetY > SwipeThreshold && current > 0 then current - 1
    else if offsetY < -SwipeThreshold && current < n - 1 then current + 1
    else current
  }

  /** handleDragEnd: gated by the in-flight flag only, not by the cooldown,
      but it still stamps the interaction time when it accepts. */
  function DragStep(n: nat, s: Nav, offsetY: real, now: nat): (r: Nav)
    ensures r != s <==> !s.animating &&
                        ((offsetY > SwipeThreshold && s.current > 0) || (offsetY < -SwipeThreshold && s.current < n - 1))
    ensures r != s ==> r.current == (if offsetY > 0.0 then s.current - 1 else s.current + 1)
    ensures r != s ==> r == Nav(r.current, true, now, s.notified + [r.current])
  {
    if s.animating then s
    else
      var newIndex := DragTarget(n, s.current, offsetY);
      if newIndex != s.current then Accept(s, newIndex, now) else s
  }

  /** handleIndicatorClick: the same gates as the jump except the bounds. */
  function IndicatorStep(s: Nav, k: int, now: nat): (r: Nav)
    ensures r != s <==> !s.animating && k != s.current && !CoolingDown(s, now)
    ensures r != s ==> r == Nav(k, true, now, s.notified + [k])
  {
    if s.animating then s
    else if k == s.current then s
    else if CoolingDown(s, now) then s
    else Accept(s, k, now)
  }

  /** onAnimationComplete. */
  function SettleStep(s: Nav): Nav
  {
    s.(animating := false)
  }

  /** One event reaching the navigator; `now` is the clock at that event. */
  datatype Input =
    | Jump(index: int, now: nat)
    | Key(key: string, now: nat)
    | Wheel(deltaY: real, now: nat)
    | DragRelease(offsetY: real, now: nat)
    | IndicatorClick(index: int, now: nat)
    | AnimationDone

  function Step(n: nat, s: Nav, e: Input): Nav
  {
    match e
    case Jump(k, now) => JumpStep(n, s, k, now)
    case Key(key, now) => KeyStep(n, s, key, now)
    case Wheel(deltaY, now) => WheelStep(n, s, deltaY, now)
    case DragRelease(offsetY, now) => DragStep(n, s, offsetY, now)
    case IndicatorClick(k, now) => IndicatorStep(s, k, now)
    case AnimationDone => SettleStep(s)
  }

  function Run(n: nat, s: Nav, es: seq<Input>): Nav
    decreases |es|
  {
    if es == [] then s else Run(n, Step(n, s, es[0]), es[1..])
  }

  /** An input that cannot move the index out of range: every input but an
      indicator click, which is not bounds-checked. */
  predicate Admissible(n: nat, e: Input)
  {
    e.IndicatorClick? ==> InRange(n, e.index)
  }

  /** Each notification reports a real change: it differs from the index
      before it (the first one from the initial index 0). */
  predicate OnlyChanges(log: seq<int>)
  {
    forall i :: 0 <= i < |log| ==> log[i] != LastNotified(log[..i])
  }

  predicate AllInRange(n: nat, log: seq<int>)
  {
    forall i :: 0 <= i < |log| ==> InRange(n, log[i])
  }

  /** What holds of every state reachable from the initial one. */
  predicate Coherent(n: nat, s: Nav)
  {
    InRange(n, s.current) && s.current == LastNotified(s.notified) &&
    OnlyChanges(s.notified) && AllInRange(n, s.notified)
  }

  /** A step either leaves the index alone or moves it and appends exactly
      one notification carrying the new index; an input other than the
      animation-complete hook that does not move the index changes nothing. */
  lemma StepNotifiesExactlyOnChange(n: nat, s: Nav, e: Input)
    ensures var r := Step(n, s, e);
      r.notified == s.notified + (if r.current != s.current then [r.current] else [])
    ensures var r := Step(n, s, e);
      !e.AnimationDone? && r.current == s.current ==> r == s
    ensures var r := Step(n, s, e);
      r.current != s.current ==> r.animating && r.lastInteraction == e.now
  {
  }

  /** Admissible steps never take the index out of [0, n-1]. */
  lemma StepKeepsIndexInRange(n: nat, s: Nav, e: Input)
    requires InRange(n, s.current) && Admissible(n, e)
    ensures InRange(n, Step(n, s, e).current)
  {
  }

  lemma StepKeepsCoherent(n: nat, s: Nav, e: Input)
    requires Coherent(n, s) && Admissible(n, e)
    ensures Coherent(n, Step(n, s, e))
  {
    var r := Step(n, s, e);
    StepNotifiesExactlyOnChange(n, s, e);
    if r.current != s.current {
      var log := r.notified;
      assert log[..|s.notified|] == s.notified;
      forall i | 0 <= i < |log|
        ensures log[i] != LastNotified(log[..i]) && InRange(n, log[i])
      {
        if i < |s.notified| {
          assert log[..i] == s.notified[..i];
        }
      }
    }
  }

  /** Over any sequence of admissible inputs the index stays in [0, n-1]. */
  lemma {:induction false} RunKeepsIndexInRange(n: nat, s: Nav, es: seq<Input>)
    requires InRange(n, s.current)
    requires forall i :: 0 <= i < |es| ==> Admissible(n, es[i])
    ensures InRange(n, Run(n, s, es).current)
    decreases |es|
  {
    if es != [] {
      StepKeepsIndexInRange(n, s, es[0]);
      RunKeepsIndexInRange(n, Step(n, s, es[0]), es[1..]);
    }
  }

  /** Over any sequence of admissible inputs from a coherent state, the index
      is the one the last notification carried, every notification reports a
      real change, and every notified index is in range. */
  lemma {:induction false} RunKeepsCoherent(n: nat, s: Nav, es: seq<Input>)
    requires Coherent(n, s)
    requires forall i :: 0 <= i < |es| ==> Admissible(n, es[i])
    ensures Coherent(n, Run(n, s, es))
    decreases |es|
  {
    if es != [] {
      StepKeepsCoherent(n, s, es[0]);
      RunKeepsCoherent(n, Step(n, s, es[0]), es[1..]);
    }
  }

  /** With at least one canvas, the initial state is coherent, so every state
      reached from it by admissible inputs is. */
  lemma InitialCoherent(n: nat)
    requires n >= 1
    ensures Coherent(n, Initial())
  {
  }

  /** The indicator click is not bounds-checked: with six canvases a click on
      index 7 is accepted and leaves the index out of range. */
  lemma IndicatorClickCanLeaveRange()
    ensures var r := Step(6, Initial(), IndicatorClick(7, 300));
      r.current == 7 && !InRange(6, r.current) && r.notified == [7]
  {
  }

  /** While a transition is in flight every request is dropped. */
  lemma AnimatingRejectsRequests(n: nat, s: Nav, e: Input)
    requires s.animating && !e.AnimationDone?
    ensures Step(n, s, e) == s
  {
  }

  /** Within the cooldown window the jump, key, wheel and indicator channels
      are dropped whatever they ask for; the drag channel is not. */
  lemma CooldownRejectsRequests(n: nat, s: Nav, e: Input)
    requires e.Jump? || e.Key? || e.Wheel? || e.IndicatorClick?
    requires CoolingDown(s, e.now)
    ensures Step(n, s, e) == s
  {
  }

  /** Two requests within the cooldown window: after the first is accepted
      and its animation has settled, the second is still dropped, even when
      it is otherwise valid. */
  lemma SecondRequestWithinCooldownDropped(n: nat, s: Nav, first: Input, second: Input)
    requires !first.AnimationDone? && Step(n, s, first).current != s.current
    requires second.Jump? || second.Key? || second.Wheel? || second.IndicatorClick?
    requires first.now <= second.now < first.now + InteractionCooldown
    ensures Run(n, s, [first, AnimationDone, second]) == SettleStep(Step(n, s, first))
  {
    var settled := SettleStep(Step(n, s, first));
    StepNotifiesExactlyOnChange(n, s, first);
    assert [first, AnimationDone, second][1..] == [AnimationDone, second];
    assert [AnimationDone, second][1..] == [second];
    CooldownRejectsRequests(n, settled, second);
    calc {
      Run(n, s, [first, AnimationDone, second]);
      Run(n, Step(n, s, first), [AnimationDone, second]);
      Run(n, settled, [second]);
      Run(n, settled, []);
    }
  }

  /** A drag release is not subject to the cooldown: right after an accepted
      jump has settled, a long enough drag is accepted at the same instant. */
  lemma DragIgnoresCooldown(n: nat, s: Nav, offsetY: real)
    requires !s.animating && InRange(n, s.current) && 0 < s.current
    requires offsetY > SwipeThreshold
    ensures var r := Step(n, s, DragRelease(offsetY, s.lastInteraction));
      CoolingDown(s, s.lastInteraction) && r.current == s.current - 1 &&
      r.notified == s.notified + [s.current - 1]
  {
  }

  /** Once the animation-complete hook has fired, the next valid jump outside
      the cooldown window is accepted. */
  lemma SettleReopens(n: nat, s: Nav, k: int, now: nat)
    requires InRange(n, k) && k != s.current && !CoolingDown(s, now)
    ensures Run(n, s, [AnimationDone, Jump(k, now)]).current == k
  {
    assert [AnimationDone, Jump(k, now)][1..] == [Jump(k, now)];
    assert Run(n, s, [AnimationDone, Jump(k, now)]) == Run(n, SettleStep(s), [Jump(k, now)]);
    assert Run(n, SettleStep(s), [Jump(k, now)]) == Run(n, JumpStep(n, SettleStep(s), k, now), []);
  }

  predicate SmallWheel(e: Input)
  {
    e.Wheel? && -WheelThreshold <= e.deltaY <= WheelThreshold
  }

  /** Wheel events whose delta is within the threshold never step, however
      many of them arrive: deltas are not summed across events. */
  lemma {:induction false} SmallWheelsNeverStep(n: nat, s: Nav, es: seq<Input>)
    requires forall i :: 0 <= i < |es| ==> SmallWheel(es[i])
    ensures Run(n, s, es) == s
    decreases |es|
  {
    if es != [] {
      assert Step(n, s, es[0]) == s;
      SmallWheelsNeverStep(n, s, es[1..]);
    }
  }

  /** Six canvases, five ArrowDown presses each after the previous animation
      settled and the cooldown passed: the last canvas is reached with one
      notification per step, and a sixth press does nothing. */
  lemma FiveStepsReachLastCanvas()
    ensures var r := Run(6, Initial(), [Key("ArrowDown", 300), AnimationDone,
                                        Key("ArrowDown", 600), AnimationDone,
                                        Key("ArrowDown", 900), AnimationDone,
                                        Key("ArrowDown", 1200), AnimationDone,
                                        Key("ArrowDown", 1500), AnimationDone]);
      r.current == 5 && r.notified == [1, 2, 3, 4, 5] &&
      Step(6, r, Key("ArrowDown", 1800)) == r
  {
    var s1 := Step(6, Step(6, Initial(), Key("ArrowDown", 300)), AnimationDone);
    assert s1 == Nav(1, false, 300, [1]);
    var s2 := Step(6, Step(6, s1, Key("ArrowDown", 600)), AnimationDone);
    assert s2 == Nav(2, false, 600, [1, 2]);
    var s3 := Step(6, Step(6, s2, Key("ArrowDown", 900)), AnimationDone);
    assert s3 == Nav(3, false, 900, [1, 2, 3]);
    var s4 := Step(6, Step(6, s3, Key("ArrowDown", 1200)), AnimationDone);
    assert s4 == Nav(4, false, 1200, [1, 2, 3, 4]);
    var s5 := Step(6, Step(6, s4, Key("ArrowDown", 1500)), AnimationDone);
    assert s5 == Nav(5, false, 1500, [1, 2, 3, 4, 5]);
  }

  /** A drag release beyond the threshold at index 2 moves one step, towards
      the previous canvas for a downward drag and the next for an upward one,
      and dispatches exactly one notification carrying the new index. */
  lemma DragFromTwo(s: Nav, now: nat)
    requires s.current == 2 && !s.animating
    ensures Step(6, s, DragRelease(60.0, now)) == Nav(1, true, now, s.notified + [1])
    ensures Step(6, s, DragRelease(-60.0, now)) == Nav(3, true, now, s.notified + [3])
  {
  }

  function Abs(x: int): nat
  {
    if x < 0 then -x else x
  }

  /** A canvas the container should show: in range and at most one away from
      the current one. */
  predicate Near(n: nat, current: int, i: int)
  {
    InRange(n, i) && Abs(i - current) <= 1
  }

  /** renderIndexes: the current index first, then its previous and next
      neighbours where they exist. */
  function RenderIndexes(n: nat, current: int): (r: seq<int>)
    ensures 1 <= |r| <= 3 && r[0] == current
    ensures forall j, k :: 0 <= j < k < |r| ==> r[j] != r[k]
    ensures InRange(n, current) ==> forall i :: i in r <==> Near(n, current, i)
  {
    var withPrevious := if current > 0 then [current, current - 1] else [current];
    if current < n - 1 then withPrevious + [current + 1] else withPrevious
  }

  /** One rendered canvas: its index, its position relative to the current
      canvas, and its stacking order. */
  datatype Slot = Slot(index: int, position: int, zIndex: int)

  /** The canvases from `from` on that the render keeps, in canvas order. */
  function SlotsFrom(n: nat, current: int, from: nat): (r: seq<Slot>)
    decreases n - from
    ensures forall j :: 0 <= j < |r| ==> from <= r[j].index < n && r[j].index in RenderIndexes(n, current)
    ensures forall j :: 0 <= j < |r| ==>
      r[j].position == r[j].index - current && r[j].zIndex == 10 - Abs(r[j].position)
    ensures forall j, k :: 0 <= j < k < |r| ==> r[j].index < r[k].index
  {
    if from >= n then []
    else
      var rest := SlotsFrom(n, current, from + 1);
      if from in RenderIndexes(n, current) then
        [Slot(from, from - current, 10 - Abs(from - current))] + rest
      else rest
  }

  /** Every index from `from` on that the render list names gets a slot. */
  lemma {:induction false} SlotsFromCovers(n: nat, current: int, from: nat, i: int)
    requires from <= i < n && i in RenderIndexes(n, current)
    ensures exists j :: 0 <= j < |SlotsFrom(n, current, from)| && SlotsFrom(n, current, from)[j].index == i
    decreases n - from
  {
    var r := SlotsFrom(n, current, from);
    if i == from {
      assert r[0].index == i;
    } else {
      SlotsFromCovers(n, current, from + 1, i);
      var rest := SlotsFrom(n, current, from + 1);
      var j :| 0 <= j < |rest| && rest[j].index == i;
      if from in RenderIndexes(n, current) {
        assert r[j + 1].index == i;
      } else {
        assert r[j].index == i;
      }
    }
  }

  /** The canvases the container renders, in canvas order. */
  function Rendered(n: nat, current: int): seq<Slot>
  {
    SlotsFrom(n, current, 0)
  }

  /** The rendered set is exactly the current index and its in-range
      neighbours: a canvas two or more away is not rendered at all. The
      current canvas sits at position 0 on top (zIndex 10), a neighbour at
      position -1 or 1 with zIndex 9. */
  lemma RenderedAreCurrentAndNeighbours(n: nat, current: int)
    requires InRange(n, current)
    ensures var r := Rendered(n, current);
      forall i :: (exists j :: 0 <= j < |r| && r[j].index == i) <==> Near(n, current, i)
    ensures var r := Rendered(n, current);
      forall j :: 0 <= j < |r| ==> -1 <= r[j].position <= 1 && (r[j].zIndex == 10 <==> r[j].index == current)
  {
    forall i | Near(n, current, i)
      ensures exists j :: 0 <= j < |Rendered(n, current)| && Rendered(n, current)[j].index == i
    {
      assert i in RenderIndexes(n, current);
      SlotsFromCovers(n, current, 0, i);
      var r := SlotsFrom(n, current, 0);
      var j :| 0 <= j < |r| && r[j].index == i;
      assert Rendered(n, current)[j].index == i;
    }
  }

  /** The component: the fields the handlers update in place. */
  class CanvasContainer {
    const count: nat
    var currentIndex: int
    var isAnimating: bool
    var lastInteractionTime: nat
    var notified: seq<int>

    function State(): Nav
      reads this
    {
      Nav(currentIndex, isAnimating, lastInteractionTime, notified)
    }

    ghost predicate Valid()
      reads this
    {
      Coherent(count, State())
    }

    constructor (count: nat)
      ensures this.count == count && State() == Initial()
      ensures count >= 1 ==> Valid()
    {
      this.count := count;
      currentIndex := 0;
      isAnimating := false;
      lastInteractionTime := 0;
      notified := [];
    }

    method SetCurrentCanvasIndex(newIndex: int)
      modifies this
      ensures State() == Commit(old(State()), newIndex)
    {
      if newIndex == currentIndex {
        return;
      }
      currentIndex := newIndex;
      notified := notified + [newIndex];
    }

    /** The global jump function the menu calls. */
    method SetCanvasIndex(index: int, now: nat)
      requires Valid()
      modifies this
      ensures State() == JumpStep(count, old(State()), index, now) && Valid()
    {
      StepKeepsCoherent(count, State(), Jump(index, now));
      if isAnimating {
        return;
      }
      if now - lastInteractionTime < InteractionCooldown {
        return;
      }
      if 0 <= index < count && index != currentIndex {
        isAnimating := true;
        SetCurrentCanvasIndex(index);
        lastInteractionTime := now;
      }
    }

    method HandleKeyDown(key: string, now: nat)
      requires Valid()
      modifies this
      ensures State() == KeyStep(count, old(State()), key, now) && Valid()
    {
      StepKeepsCoherent(count, State(), Key(key, now));
      if isAnimating {
        return;
      }
      if now - lastInteractionTime < InteractionCooldown {
        return;
      }
      var newIndex := currentIndex;
      if key == "ArrowUp" && currentIndex > 0 {
        newIndex := currentIndex - 1;
      } else if key == "ArrowDown" && currentIndex < count - 1 {
        newIndex := currentIndex + 1;
      }
      if newIndex != currentIndex {
        isAnimating := true;
        SetCurrentCanvasIndex(newIndex);
        lastInteractionTime := now;
      }
    }

    method HandleWheel(deltaY: real, now: nat)
      requires Valid()
      modifies this
      ensures State() == WheelStep(count, old(State()), deltaY, now) && Valid()
    {
      StepKeepsCoherent(count, State(), Wheel(deltaY, now));
      if isAnimating {
        return;
      }
      if now - lastInteractionTime < InteractionCooldown {
        return;
      }
      var newIndex := currentIndex;
      if deltaY < -WheelThreshold && currentIndex > 0 {
        newIndex := currentIndex - 1;
      } else if deltaY > WheelThreshold && currentIndex < count - 1 {
        newIndex := currentIndex + 1;
      }
      if newIndex != currentIndex {
        isAnimating := true;
        SetCurrentCanvasIndex(newIndex);
        lastInteractionTime := now;
      }
    }

    method HandleDragEnd(offsetY: real, now: nat)
      requires Valid()
      modifies this
      ensures State() == DragStep(count, old(State()), offsetY, now) && Valid()
    {
      StepKeepsCoherent(count, State(), DragRelease(offsetY, now));
      if isAnimating {
        return;
      }
      var newIndex := currentIndex;
      if offsetY > SwipeThreshold && currentIndex > 0 {
        newIndex := currentIndex - 1;
      } else if offsetY < -SwipeThreshold && currentIndex < count - 1 {
        newIndex := currentIndex + 1;
      }
      if newIndex != currentIndex {
        isAnimating := true;
        SetCurrentCanvasIndex(newIndex);
        lastInteractionTime := now;
      }
    }

    /** Not bounds-checked: the invariant survives only an in-range index. */
    method HandleIndicatorClick(index: int, now: nat)
      requires Valid()
      modifies this
      ensures State() == IndicatorStep(old(State()), index, now)
      ensures InRange(count, index) ==> Valid()
    {
      if InRange(count, index) {
        StepKeepsCoherent(count, State(), IndicatorClick(index, now));
      }
      if isAnimating {
        return;
      }
      if index == currentIndex {
        return;
      }
      if now - lastInteractionTime < InteractionCooldown {
        return;
      }
      isAnimating := true;
      SetCurrentCanvasIndex(index);
      lastInteractionTime := now;
    }

    method OnAnimationComplete()
      requires Valid()
      modifies this
      ensures State() == SettleStep(old(State())) && Valid()
    {
      isAnimating := false;
    }

    /** Builds the render list the way the component does, by pushing. */
    method ComputeRenderIndexes() returns (renderIndexes: seq<int>)
      ensures renderIndexes == RenderIndexes(count, currentIndex)
    {
      renderIndexes := [currentIndex];
      if currentIndex > 0 {
        renderIndexes := renderIndexes + [currentIndex - 1];
      }
      if currentIndex < count - 1 {
        renderIndexes := renderIndexes + [currentIndex + 1];
      }
    }
  }
}
