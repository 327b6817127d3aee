/**
 * The navigation menu (Menu) and its coupling to the canvas container.
 *
 * The menu keeps whether its overlay is open and which section it
 * highlights. The highlight changes only when the container's index-change
 * notification reaches the menu's listener; clicking a section asks the
 * container (through its global jump function) to jump and closes the
 * overlay, but never sets the highlight itself. Composed with the container
 * on one page, the highlight therefore always shows the index the container
 * last accepted.
 */
module MenuSync {
  import opened Wrappers
  import opened Navigation

  /** A menu entry: the canvas id, the label shown (its caption), the canvas index. */
  datatype Section = Section(id: string, caption: string, index: int)

  /** The menu's section table. */
  const Sections: seq<Section> := [
    Section("hero", "Home", 0),
    Section("services", "Services", 1),
    Section("about", "About", 2),
    Section("portfolio", "Portfolio", 3),
    Section("pricing", "Pricing", 4),
    Section("contact", "Contact", 5)
  ]

  /** The canvas ids the page hands to the container, in order. */
  const PageCanvasIds: seq<string> := ["hero", "services", "about", "portfolio", "pricing", "contact"]

  /** Each section names the canvas at its own index on the page, so every
      section's index is in range for the page's canvases. */
  lemma SectionsFollowCanvasOrder()
    ensures |Sections| == |PageCanvasIds| == 6
    ensures forall i :: 0 <= i < |Sections| ==>
      Sections[i].index == i && Sections[i].id == PageCanvasIds[i] && InRange(|PageCanvasIds|, Sections[i].index)
  {
  }

  /** The menu's own state: overlay open or closed, highlighted index. */
  datatype MenuView = MenuView(isOpen: bool, highlight: int)

  /** On first render the menu is closed and highlights the index the
      container has published, or 0 when none is published yet. */
  function InitialMenu(published: Option<int>): MenuView
  {
    MenuView(false, published.GetOr(0))
  }

  /** handleCanvasChange: the highlight becomes the notified index. */
  function OnCanvasChange(m: MenuView, k: int): MenuView
  {
    m.(highlight := k)
  }

  /** The listener run once per notification, in dispatch order: the last
      notification decides the highlight and the overlay is left alone. */
  function Deliver(m: MenuView, ks: seq<int>): (r: MenuView)
    ensures r.isOpen == m.isOpen
    ensures r.highlight == if ks == [] then m.highlight else ks[|ks| - 1]
    decreases |ks|
  {
    if ks == [] then m else Deliver(OnCanvasChange(m, ks[0]), ks[1..])
  }

  /** The menu button. */
  function Toggled(m: MenuView): MenuView
  {
    m.(isOpen := !m.isOpen)
  }

  /** The close button, and the effect of a section click on the overlay. */
  function CloseOverlay(m: MenuView): MenuView
  {
    m.(isOpen := false)
  }

  /** A page: the container's state, the menu's state, and whether the
      container's global jump function is installed. */
  datatype PageState = PageState(nav: Nav, menu: MenuView, jumpInstalled: bool)

  /** What can happen on the page: an event reaching the container, the menu
      button, the close button, a click on a section label. The close button
      and the section labels exist only while the overlay is open. */
  datatype PageInput =
    | Canvas(e: Input)
    | MenuButton
    | CloseButton
    | SectionClick(index: int, now: nat)

  /** The container moves to `nav'` and what it notified on the way is
      dispatched to the menu's listener. */
  function Dispatch(p: PageState, nav': Nav): PageState
  {
    var news := if |p.nav.notified| <= |nav'.notified| then nav'.notified[|p.nav.notified|..] else [];
    PageState(nav', Deliver(p.menu, news), p.jumpInstalled)
  }

  /** navigateToSection: with the jump function installed, jump and close the
      overlay; without it, nothing happens. */
  function NavigateToSection(n: nat, p: PageState, k: int, now: nat): PageState
  {
    if p.jumpInstalled then
      var q := Dispatch(p, JumpStep(n, p.nav, k, now));
      q.(menu := CloseOverlay(q.menu))
    else p
  }

  function PageStep(n: nat, p: PageState, i: PageInput): PageState
  {
    match i
    case Canvas(e) => Dispatch(p, Step(n, p.nav, e))
    case MenuButton => p.(menu := Toggled(p.menu))
    case CloseButton => if p.menu.isOpen then p.(menu := CloseOverlay(p.menu)) else p
    case SectionClick(k, now) => if p.menu.isOpen then NavigateToSection(n, p, k, now) else p
  }

  function PageRun(n: nat, p: PageState, events: seq<PageInput>): PageState
    decreases |events|
  {
    if events == [] then p else PageRun(n, PageStep(n, p, events[0]), events[1..])
  }

  /** The menu shows what the container last accepted. */
  predicate Synced(p: PageState)
  {
    p.menu.highlight == p.nav.current && p.nav.current == LastNotified(p.nav.notified)
  }

  /** A menu mounted on a fresh page (index 0) is in sync whether or not the
      container has published its index yet. */
  lemma MountedMenuSynced(n: nat, published: Option<int>, jumpInstalled: bool)
    requires published == None || published == Some(Initial().current)
    ensures Synced(PageState(Initial(), InitialMenu(published), jumpInstalled))
  {
  }

  /** Dispatching one container step keeps the menu in sync. */
  lemma DispatchKeepsSynced(n: nat, p: PageState, nav': Nav)
    requires Synced(p)
    requires nav'.notified == p.nav.notified + (if nav'.current != p.nav.current then [nav'.current] else [])
    ensures Synced(Dispatch(p, nav'))
    ensures Dispatch(p, nav').menu.isOpen == p.menu.isOpen
  {
    var news := nav'.notified[|p.nav.notified|..];
    if nav'.current != p.nav.current {
      assert news == [nav'.current];
    } else {
      assert news == [];
    }
  }

  /** Every page event keeps the menu in sync with the container. */
  lemma PageStepKeepsSynced(n: nat, p: PageState, i: PageInput)
    requires Synced(p)
    ensures Synced(PageStep(n, p, i))
  {
    match i
    case Canvas(e) =>
      StepNotifiesExactlyOnChange(n, p.nav, e);
      DispatchKeepsSynced(n, p, Step(n, p.nav, e));
    case MenuButton =>
    case CloseButton =>
    case SectionClick(k, now) =>
      if p.menu.isOpen && p.jumpInstalled {
        StepNotifiesExactlyOnChange(n, p.nav, Jump(k, now));
        DispatchKeepsSynced(n, p, JumpStep(n, p.nav, k, now));
      }
  }

  /** Over any sequence of page events, the menu's highlight equals the
      index the container last accepted (0 before any). */
  lemma {:induction false} PageRunKeepsSynced(n: nat, p: PageState, events: seq<PageInput>)
    requires Synced(p)
    ensures Synced(PageRun(n, p, events))
    ensures PageRun(n, p, events).menu.highlight == LastNotified(PageRun(n, p, events).nav.notified)
    decreases |events|
  {
    if events != [] {
      PageStepKeepsSynced(n, p, events[0]);
      PageRunKeepsSynced(n, PageStep(n, p, events[0]), events[1..]);
    }
  }

  /** A section click never sets the highlight itself: the highlight moves to
      the clicked index exactly when the container accepts the jump, and
      stays put when the jump is dropped. The overlay closes whenever the
      jump function is installed; without it, or with the overlay (and so
      the section labels) closed, nothing changes. */
  lemma SectionClickHighlightFollowsContainer(n: nat, p: PageState, k: int, now: nat)
    requires Synced(p)
    ensures var q := PageStep(n, p, SectionClick(k, now));
      q.menu.highlight == (if q.nav != p.nav then k else p.menu.highlight)
    ensures var q := PageStep(n, p, SectionClick(k, now));
      p.menu.isOpen && p.jumpInstalled ==> !q.menu.isOpen
    ensures !p.menu.isOpen || !p.jumpInstalled ==> PageStep(n, p, SectionClick(k, now)) == p
  {
    if p.menu.isOpen && p.jumpInstalled {
      StepNotifiesExactlyOnChange(n, p.nav, Jump(k, now));
      DispatchKeepsSynced(n, p, JumpStep(n, p.nav, k, now));
    }
  }

  /** Six canvases at index 1, idle, outside the cooldown: clicking section 4
      moves the container to 4, and the menu, which highlighted 1, highlights
      4 only through the notification it received. */
  lemma JumpFromMenuScenario()
    ensures var p := PageState(Nav(1, false, 300, [1]), MenuView(true, 1), true);
      var q := PageStep(6, p, SectionClick(4, 900));
      q.nav == Nav(4, true, 900, [1, 4]) && q.menu == MenuView(false, 4)
  {
    var p := PageState(Nav(1, false, 300, [1]), MenuView(true, 1), true);
    var nav' := JumpStep(6, p.nav, 4, 900);
    assert nav' == Nav(4, true, 900, [1, 4]);
    assert nav'.notified[|p.nav.notified|..] == [4];
  }

  /** On the site's page (one canvas per entry of `PageCanvasIds`), clicking
      a section while the container is idle, outside the cooldown and not
      already there shows that section's own canvas, and the menu highlights
      it. */
  lemma SectionClickShowsItsCanvas(p: PageState, i: int, now: nat)
    requires Synced(p) && p.jumpInstalled && p.menu.isOpen
    requires 0 <= i < |Sections|
    requires !p.nav.animating && !CoolingDown(p.nav, now) && p.nav.current != Sections[i].index
    ensures var q := PageStep(|PageCanvasIds|, p, SectionClick(Sections[i].index, now));
      0 <= q.nav.current < |PageCanvasIds| &&
      PageCanvasIds[q.nav.current] == Sections[i].id &&
      q.menu.highlight == q.nav.current && !q.menu.isOpen
  {
    SectionsFollowCanvasOrder();
    var k := Sections[i].index;
    StepNotifiesExactlyOnChange(|PageCanvasIds|, p.nav, Jump(k, now));
    DispatchKeepsSynced(|PageCanvasIds|, p, JumpStep(|PageCanvasIds|, p.nav, k, now));
  }

  /** The menu component. */
  class Menu {
    var isOpen: bool
    var currentIndex: int

    function View(): MenuView
      reads this
    {
      MenuView(isOpen, currentIndex)
    }

    constructor (published: Option<int>)
      ensures View() == InitialMenu(published)
    {
      isOpen := false;
      currentIndex := published.GetOr(0);
    }

    method HandleCanvasChange(newIndex: int)
      modifies this
      ensures View() == OnCanvasChange(old(View()), newIndex)
    {
      currentIndex := newIndex;
    }

    method ToggleOpen()
      modifies this
      ensures View() == Toggled(old(View()))
    {
      isOpen := !isOpen;
    }

    method Close()
      modifies this
      ensures View() == CloseOverlay(old(View()))
    {
      isOpen := false;
    }

    /** `setCanvasIndex` is the container's global jump function, null when
        it is not installed. The highlight is not touched here. */
    method NavigateToSection(index: int, setCanvasIndex: CanvasContainer?, now: nat)
      requires setCanvasIndex != null ==> setCanvasIndex.Valid()
      modifies this, setCanvasIndex
      ensures setCanvasIndex != null ==>
        setCanvasIndex.Valid() &&
        setCanvasIndex.State() == JumpStep(setCanvasIndex.count, old(setCanvasIndex.State()), index, now) &&
        View() == CloseOverlay(old(View()))
      ensures setCanvasIndex == null ==> View() == old(View())
    {
      if setCanvasIndex != null {
        setCanvasIndex.SetCanvasIndex(index, now);
        isOpen := false;
      }
    }
  }

  /** A page holding one container and one menu listening to it. */
  class Page {
    const container: CanvasContainer
    const menu: Menu
    const jumpInstalled: bool

    function State(): PageState
      reads this, container, menu
    {
      PageState(container.State(), menu.View(), jumpInstalled)
    }

    ghost predicate Valid()
      reads this, container, menu
    {
      container.Valid() && Synced(State())
    }

    /** `published` is what the menu reads from the window on first render. */
    constructor (count: nat, published: Option<int>, jumpInstalled: bool)
      ensures fresh(container) && fresh(menu)
      ensures container.count == count
      ensures State() == PageState(Initial(), InitialMenu(published), jumpInstalled)
      ensures count >= 1 && (published == None || published == Some(0)) ==> Valid()
    {
      container := new CanvasContainer(count);
      menu := new Menu(published);
      this.jumpInstalled := jumpInstalled;
    }

    /** Runs the menu's listener on what the container notified since it had
        `before` notifications (one at most per container call). */
    method Dispatch(before: nat)
      requires before <= |container.notified| <= before + 1
      modifies menu
      ensures menu.View() == Deliver(old(menu.View()), container.notified[before..])
    {
      if |container.notified| > before {
        menu.HandleCanvasChange(container.notified[before]);
      }
    }

    method HandleKeyDown(key: string, now: nat)
      requires Valid()
      modifies container, menu
      ensures State() == PageStep(container.count, old(State()), Canvas(Key(key, now))) && Valid()
    {
      PageStepKeepsSynced(container.count, State(), Canvas(Key(key, now)));
      StepNotifiesExactlyOnChange(container.count, container.State(), Key(key, now));
      var before := |container.notified|;
      container.HandleKeyDown(key, now);
      Dispatch(before);
    }

    method HandleWheel(deltaY: real, now: nat)
      requires Valid()
      modifies container, menu
      ensures State() == PageStep(container.count, old(State()), Canvas(Wheel(deltaY, now))) && Valid()
    {
      PageStepKeepsSynced(container.count, State(), Canvas(Wheel(deltaY, now)));
      StepNotifiesExactlyOnChange(container.count, container.State(), Wheel(deltaY, now));
      var before := |container.notified|;
      container.HandleWheel(deltaY, now);
      Dispatch(before);
    }

    method HandleDragEnd(offsetY: real, now: nat)
      requires Valid()
      modifies container, menu
      ensures State() == PageStep(container.count, old(State()), Canvas(DragRelease(offsetY, now))) && Valid()
    {
      PageStepKeepsSynced(container.count, State(), Canvas(DragRelease(offsetY, now)));
      StepNotifiesExactlyOnChange(container.count, container.State(), DragRelease(offsetY, now));
      var before := |container.notified|;
      container.HandleDragEnd(offsetY, now);
      Dispatch(before);
    }

    method OnAnimationComplete()
      requires Valid()
      modifies container, menu
      ensures State() == PageStep(container.count, old(State()), Canvas(AnimationDone)) && Valid()
    {
      PageStepKeepsSynced(container.count, State(), Canvas(AnimationDone));
      var before := |container.notified|;
      container.OnAnimationComplete();
      Dispatch(before);
    }

    method ClickMenuButton()
      requires Valid()
      modifies container, menu
      ensures State() == PageStep(container.count, old(State()), MenuButton) && Valid()
    {
      menu.ToggleOpen();
    }

    method ClickCloseButton()
      requires Valid()
      modifies container, menu
      ensures State() == PageStep(container.count, old(State()), CloseButton) && Valid()
    {
      if menu.isOpen {
        menu.Close();
      }
    }

    method ClickSection(index: int, now: nat)
      requires Valid()
      modifies container, menu
      ensures State() == PageStep(container.count, old(State()), SectionClick(index, now)) && Valid()
    {
      PageStepKeepsSynced(container.count, State(), SectionClick(index, now));
      if !menu.isOpen {
        return;
      }
      StepNotifiesExactlyOnChange(container.count, container.State(), Jump(index, now));
      var before := |container.notified|;
      menu.NavigateToSection(index, if jumpInstalled then container else null, now);
      Dispatch(before);
    }
  }
}
