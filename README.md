# Paged-canvas site navigation and contact workers, in Dafny

This project models three pieces of a single-page marketing site.

**The canvas container** (module `Navigation`) holds a fixed list of `n`
full-screen canvases and shows one of them at a time. Four input channels
can each ask for a new index:

- the global jump function, which the menu calls;
- the ArrowUp and ArrowDown keys;
- the mouse wheel, which steps only when the delta is beyond 20;
- the release of a vertical drag, which steps only when the offset is
  beyond 50.

Every channel passes its gates and then takes the same accept path. The
in-flight flag goes up, the index is committed, one index-change
notification is dispatched, and the time of the interaction is stamped. The
gates are:

- the in-flight flag;
- a 300 ms cooldown (the drag channel skips this one);
- the bounds;
- "not the current index".

The animation-complete hook clears the in-flight flag. Only the current
canvas and its in-range neighbours are rendered.

The pure functions (`JumpStep`, `KeyStep`, …, `Step`, `Run`) are the
specification. The class `Navigation.CanvasContainer` updates its fields in
place behind guard returns, and each of its handlers is proved to follow its
function.

**The menu** (module `MenuSync`) keeps whether its overlay is open and which
section it highlights. Only the container's notifications change the
highlight. A section click calls the jump function and closes the overlay,
but it does not touch the highlight. `MenuSync.Page` puts one container and
one menu on a page and dispatches each new notification to the menu's
listener. Over any sequence of page events the highlight equals the index
the container last accepted (0 before any).

**The contact workers** (modules `ContactWorker` and `LegacyContactWorker`,
with shared shapes in `Http`) decide a contact-form request: preflight,
method check, path check (legacy worker only), required fields, email format
(module worker only), then the send. The regular expression behind
`isValidEmail` is written out as a predicate. The validator is proved to
accept exactly that language, and the plain-words description of it is
proved too.

Clocks, parsing and outside services are inputs: `now` in milliseconds, the
parsed request body, whether the key-value backup succeeded, and what the
SendGrid request returned.

Some behaviours of the code are easy to assume otherwise, and the model
keeps them as written:

- The drag release is not cooldown-gated.
- Only ArrowUp and ArrowDown are handled. ArrowLeft and ArrowRight are not.
- The cooldown is measured from the moment a transition is accepted, not
  from the moment it ends.
- Both workers also require a `recipient` field.
- The legacy worker does no email-format check. It answers 400, not 500,
  for any exception in its `/contact` branch.

## Model

| member | source | states |
|---|---|---|
| `Navigation.JumpStep` | app/components/CanvasContainer.tsx:57-69 | the jump changes the state iff nothing is in flight, the cooldown has passed, the index is in [0, n-1] and differs from the current one; an accepted jump leaves index k, in flight, stamped `now`, with exactly one notification k appended |
| `Navigation.KeyStep` | app/components/CanvasContainer.tsx:78-96 | a key press changes the state iff idle, outside the cooldown, and it is ArrowUp above index 0 or ArrowDown below n-1; it then moves one step that way with one notification; any other key changes nothing |
| `Navigation.WheelStep` | app/components/CanvasContainer.tsx:105-127 | a wheel event changes the state iff idle, outside the cooldown, and deltaY < -20 with a previous canvas or deltaY > 20 with a next one; it then moves one step in the sign's direction with one notification |
| `Navigation.DragStep` | app/components/CanvasContainer.tsx:140-160 | a drag release changes the state iff idle (the cooldown is not consulted) and offset > 50 with a previous canvas or offset < -50 with a next one; it then moves one step, stamps `now` and notifies once |
| `Navigation.IndicatorStep` | app/components/CanvasContainer.tsx:164-175 | an indicator click is accepted iff idle, not the current index and outside the cooldown; there is no bounds check |
| `Navigation.StepNotifiesExactlyOnChange` | app/components/CanvasContainer.tsx:40-53 | every event appends exactly one notification carrying the new index when the index changes and none otherwise; a rejected request changes nothing at all; an accepted one leaves the navigator in flight, stamped with the event's time |
| `Navigation.StepKeepsIndexInRange` | app/components/CanvasContainer.tsx:57-175 | one event other than an out-of-range indicator click keeps the index in [0, n-1] |
| `Navigation.StepKeepsCoherent` | app/components/CanvasContainer.tsx:40-69 | one admissible event keeps the index in range, keeps it equal to the last notified index, and keeps every notification a real, in-range change |
| `Navigation.RunKeepsIndexInRange` | app/components/CanvasContainer.tsx:57-175 | over any sequence of jump, key, wheel, drag, in-range indicator and animation-complete events, the index stays in [0, n-1] |
| `Navigation.RunKeepsCoherent` | app/components/CanvasContainer.tsx:40-53 | over any sequence of admissible events, the index is the one the last notification carried, each notification differs from the index before it, and all notified indices are in range |
| `Navigation.InitialCoherent` | app/components/CanvasContainer.tsx:24-37 | the mount state (index 0, idle, time 0, no notifications) is coherent when there is at least one canvas |
| `Navigation.IndicatorClickCanLeaveRange` | app/components/CanvasContainer.tsx:164-175 | with six canvases an indicator click on 7 is accepted and leaves the index out of range, so the bounds invariant needs an in-range argument |
| `Navigation.AnimatingRejectsRequests` | app/components/CanvasContainer.tsx:57-175 | while a transition is in flight every jump, key, wheel, drag and indicator request leaves the state unchanged |
| `Navigation.CooldownRejectsRequests` | app/components/CanvasContainer.tsx:57-175 | less than 300 ms after the last accepted interaction, jump, key, wheel and indicator requests leave the state unchanged |
| `Navigation.SecondRequestWithinCooldownDropped` | app/components/CanvasContainer.tsx:59-67 | after an accepted request and its settle, a second jump/key/wheel/indicator request less than 300 ms later is dropped even if otherwise valid |
| `Navigation.DragIgnoresCooldown` | app/components/CanvasContainer.tsx:140-156 | at the very instant of the last accepted interaction, an idle navigator still accepts a drag release beyond 50 and moves to the previous canvas |
| `Navigation.SettleReopens` | app/components/CanvasContainer.tsx:242-244 | after the animation-complete hook, a valid jump outside the cooldown is accepted |
| `Navigation.SmallWheelsNeverStep` | app/components/CanvasContainer.tsx:105-127 | any number of wheel events with \|deltaY\| at most 20 leave the state unchanged: deltas are not summed |
| `Navigation.FiveStepsReachLastCanvas` | app/components/CanvasContainer.tsx:78-96 | six canvases, five settled ArrowDown presses 300 ms apart reach index 5 with notifications 1..5; a sixth press changes nothing |
| `Navigation.DragFromTwo` | app/components/CanvasContainer.tsx:140-160 | at index 2 a drag of +60 moves to 1 and of -60 to 3, each with exactly one notification |
| `Navigation.RenderIndexes` | app/components/CanvasContainer.tsx:177-188 | the render list starts with the current index, has no duplicates, and for an in-range index holds exactly the in-range indices at distance at most 1 |
| `Navigation.SlotsFrom` | app/components/CanvasContainer.tsx:203-220 | the rendered canvases come in canvas order, each one on the render list, with position index - current and zIndex 10 - \|position\| |
| `Navigation.SlotsFromCovers` | app/components/CanvasContainer.tsx:203-205 | every index on the render list gets a rendered canvas |
| `Navigation.RenderedAreCurrentAndNeighbours` | app/components/CanvasContainer.tsx:177-220 | the rendered set is exactly {i-1, i, i+1} intersected with [0, n-1]; positions are -1, 0 or 1 and only the current canvas has zIndex 10 |
| `Navigation.CanvasContainer.constructor` | app/components/CanvasContainer.tsx:24-37 | mounts at index 0, idle, time 0, nothing dispatched |
| `Navigation.CanvasContainer.SetCurrentCanvasIndex` | app/components/CanvasContainer.tsx:40-53 | a redundant index changes nothing; otherwise the index is set and one notification carrying it is appended |
| `Navigation.CanvasContainer.SetCanvasIndex` | app/components/CanvasContainer.tsx:57-69 | the in-place jump follows `JumpStep` and keeps the invariant |
| `Navigation.CanvasContainer.HandleKeyDown` | app/components/CanvasContainer.tsx:78-96 | the in-place key handler follows `KeyStep` and keeps the invariant |
| `Navigation.CanvasContainer.HandleWheel` | app/components/CanvasContainer.tsx:105-127 | the in-place wheel handler follows `WheelStep` and keeps the invariant |
| `Navigation.CanvasContainer.HandleDragEnd` | app/components/CanvasContainer.tsx:140-160 | the in-place drag handler follows `DragStep` and keeps the invariant |
| `Navigation.CanvasContainer.HandleIndicatorClick` | app/components/CanvasContainer.tsx:164-175 | follows `IndicatorStep`; the invariant survives only an in-range index |
| `Navigation.CanvasContainer.OnAnimationComplete` | app/components/CanvasContainer.tsx:242-244 | clears the in-flight flag and nothing else |
| `Navigation.CanvasContainer.ComputeRenderIndexes` | app/components/CanvasContainer.tsx:177-188 | the list built by pushing equals `RenderIndexes` of the current index |
| `MenuSync.SectionsFollowCanvasOrder` | app/components/Menu.tsx:9-17 | the six sections carry indices 0..5 and the ids of the page's canvases (app/page.tsx lines 13-38) in the same order, so every section index is in range for the page's canvases |
| `MenuSync.Deliver` | app/components/Menu.tsx:28-34 | after the listener has run for a sequence of notifications, the highlight is the last one notified (unchanged for none) and the overlay is untouched |
| `MenuSync.MountedMenuSynced` | app/components/Menu.tsx:22-24 | a menu that starts from the published index, or 0 when none is published, agrees with a freshly mounted container |
| `MenuSync.DispatchKeepsSynced` | app/components/Menu.tsx:28-34 | delivering one container step's notifications keeps the highlight equal to the container's index and leaves the overlay alone |
| `MenuSync.PageStepKeepsSynced` | app/components/Menu.tsx:28-53 | every page event keeps the highlight equal to the container's index, which equals its last notified index |
| `MenuSync.PageRunKeepsSynced` | app/components/Menu.tsx:28-53 | over any sequence of page events, the highlight always equals the last accepted index (0 before any) |
| `MenuSync.SectionClickHighlightFollowsContainer` | app/components/Menu.tsx:45-54 | a section click moves the highlight to k only when the container accepts the jump and leaves it when the jump is dropped; with the overlay open and the jump function present it closes the overlay; with the overlay closed (no section labels shown) or without the jump function it changes nothing |
| `MenuSync.JumpFromMenuScenario` | app/components/Menu.tsx:45-50 | from index 1 with the overlay open, clicking section 4 moves the container to 4 with notification 4; the menu then highlights 4 and is closed |
| `MenuSync.SectionClickShowsItsCanvas` | app/components/Menu.tsx:105-108 | on the site's page of six canvases, clicking a section while the container is idle, outside the cooldown and elsewhere shows the canvas with that section's id, highlights it and closes the overlay |
| `MenuSync.Menu.constructor` | app/components/Menu.tsx:20-24 | starts closed, highlighting the published index or 0 |
| `MenuSync.Menu.HandleCanvasChange` | app/components/Menu.tsx:28-34 | the highlight becomes the notified index; the overlay is untouched |
| `MenuSync.Menu.ToggleOpen` | app/components/Menu.tsx:71-72 | the menu button flips the overlay |
| `MenuSync.Menu.Close` | app/components/Menu.tsx:93-95 | the close button closes the overlay |
| `MenuSync.Menu.NavigateToSection` | app/components/Menu.tsx:45-54 | with the jump function present, it runs the container's jump and closes the overlay without touching the highlight; without it the menu is unchanged |
| `MenuSync.Page.constructor` | app/components/Menu.tsx:19-24 | a fresh container with the given number of canvases and a menu initialised from the published index; the pair starts in sync |
| `MenuSync.Page.Dispatch` | app/components/Menu.tsx:36 | runs the menu's listener on the notification the last container call dispatched |
| `MenuSync.Page.HandleKeyDown` | app/components/CanvasContainer.tsx:78-101 | a key press on the page follows `PageStep` and keeps container and menu in sync |
| `MenuSync.Page.HandleWheel` | app/components/CanvasContainer.tsx:105-135 | a wheel event on the page follows `PageStep` and keeps them in sync |
| `MenuSync.Page.HandleDragEnd` | app/components/CanvasContainer.tsx:238-241 | a drag release on the page follows `PageStep` and keeps them in sync |
| `MenuSync.Page.OnAnimationComplete` | app/components/CanvasContainer.tsx:242-244 | the settle hook on the page follows `PageStep` and keeps them in sync |
| `MenuSync.Page.ClickMenuButton` | app/components/Menu.tsx:71-72 | follows `PageStep`: only the overlay flips |
| `MenuSync.Page.ClickCloseButton` | app/components/Menu.tsx:85-96 | follows `PageStep`: the button exists only on the open overlay and closes it; only the overlay changes |
| `MenuSync.Page.ClickSection` | app/components/Menu.tsx:85-108 | a section click follows `PageStep` (nothing happens while the overlay, and so the label, is not shown) and keeps container and menu in sync |
| `Http.Preflight` | cloudflare-worker/src/index.ts:136-146 | the preflight answer is 204 with no body, carries every CORS header and Access-Control-Max-Age 86400 (the JSON answers, built by `Http.JsonResponse` at index.ts:124-134, carry the same CORS headers; see the `Fetch` rows) |
| `ContactWorker.IsValidEmailMatchesPattern` | cloudflare-worker/src/index.ts:119-122 | `ContactWorker.IsValidEmail` holds exactly for the strings of `^[^\s@]+@[^\s@]+\.[^\s@]+$`, with `\s` as JavaScript defines it |
| `ContactWorker.IsValidEmailCharacterisation` | cloudflare-worker/src/index.ts:119-122 | isValidEmail holds iff there is no whitespace, exactly one '@', a non-empty part before it, and a '.' after it that is neither first nor last of that part |
| `ContactWorker.NoAtIsInvalid` | cloudflare-worker/src/index.ts:119-122 | a string without '@' is rejected |
| `ContactWorker.IsValidEmailAccepts` | cloudflare-worker/src/index.ts:119-122 | "jo@example.com" and "a@b..c" are accepted |
| `ContactWorker.IsValidEmailRejectsMissingParts` | cloudflare-worker/src/index.ts:119-122 | a host without a dot, an empty local part and a dot right after the '@' are each rejected |
| `ContactWorker.IsValidEmailRejectsForbiddenChars` | cloudflare-worker/src/index.ts:119-122 | a space in the local part and a second '@' are each rejected |
| `ContactWorker.SendEmail` | cloudflare-worker/src/index.ts:66-79 | no API key fails with "Email service not configured" whatever the service; with a key, a service other than sendgrid (the default when unset) fails as unsupported; success only through SendGrid with a key, carrying SendGrid's own result |
| `ContactWorker.Fetch` | cloudflare-worker/src/index.ts:17-57 | 204 iff OPTIONS (the preflight); 405 iff another non-POST; 400 iff a parsed submission misses a field ("Missing required fields", checked first) or has a malformed email ("Invalid email format"); 200 iff valid, stored and sent; 500 otherwise, "Failed to send email" after a failed send and "Internal server error" for a parse failure or a failed store; every valid submission is stored, first, and nothing is stored or sent for any other request; a 200 is exactly the JSON `{success: true}` answer with the CORS headers, a 405 exactly the plain-text "Method not allowed", and every 400 and 500 a JSON error with the CORS headers |
| `ContactWorker.RejectedSubmissionHasNoEffects` | cloudflare-worker/src/index.ts:31-42 | a 400 answer stores nothing, sends nothing, and carries the CORS headers |
| `LegacyContactWorker.SendEmail` | cloudflare-worker.js:50-115 | with `SendWithSendGrid` and `SendWithMailgun` (lines 63-115) as its two branches: it throws iff EMAIL_SERVICE is undefined, or API_KEY is undefined for sendgrid or mailgun; a service other than sendgrid (the default for "") or mailgun gives "Email service not configured"; sendgrid with an empty key gives "SendGrid API key not configured" and with a key returns exactly what the SendGrid request returned; mailgun with an empty key gives "Mailgun API key not configured" and with a key reports success |
| `LegacyContactWorker.MailgunSucceedsWithoutSending` | cloudflare-worker.js:105-115 | mailgun with a key reports success whatever SendGrid would have answered |
| `LegacyContactWorker.HandleRequest` | cloudflare-worker.js:13-48 | 204 iff OPTIONS; 405 iff another non-POST; 404 "Not found" iff a POST whose URL does not end in /contact; 400 iff a /contact POST fails to parse, misses a field ("Missing required fields") or throws while sending, the parse failure and the throw both answered "Invalid request"; 200 iff a complete submission is sent; a 500 carries the send's own error string; a 200 is exactly the JSON `{success: true}` answer with the CORS headers, a 405 exactly the plain-text "Method not allowed", and every 400 and 500 a JSON error with the CORS headers |
| `LegacyContactWorker.NoEmailFormatCheck` | cloudflare-worker.js:29-35 | a complete submission whose email is "not-an-email" is answered 200 when Mailgun is configured |
| `LegacyContactWorker.UnboundKeyIsInvalidRequest` | cloudflare-worker.js:63-67 | without an API_KEY binding, a complete submission to sendgrid or mailgun is answered 400 "Invalid request" |
| `LegacyContactWorker.VariantsDisagreeOnEmailFormat` | cloudflare-worker.js:29-40 | for the same submission with email "not-an-email", the module worker answers 400 "Invalid email format" with no effects (cloudflare-worker/src/index.ts lines 37-39) while this worker answers 200 |

## Left out

- Presentation: the `y`, `scale` and `zIndex` animation values beyond the integer position and stacking order, the tween and spring settings, the drag elasticity, CSS classes and the overlay's fade. `scale` is a float.
- The `isDragging` flag: it is set on drag start and end but never read.
- React's asynchronous state batching and the handlers' stale closures over `isAnimating`. Each handler is one atomic, sequential update. The React state, the ref and `window.currentCanvasIndex` are one field for the same reason.
- `Date.now()`: each event carries its time as a natural number of milliseconds.
- Wheel deltas and drag offsets are `real`. NaN and infinities are not modelled.
- `window.setCanvasIndex` being re-installed whenever the canvas count, the in-flight flag or the index changes, and removed on unmount. A page has the jump function installed or not, for its whole life.
- Navigation.SettleStep: the animation-complete hook is an input the environment may send at any time. The model does not capture when the animation library fires it: only a rendered canvas whose animation ran can fire it. A jump of three or more canvases (the menu's 1 to 4, say) replaces the whole rendered set with canvases that mount without an initial animation. So the in-flight flag may then never be cleared, and every channel would stay blocked. This depends on the library's runtime behaviour and is not modelled. Properties that need a settle, such as `SettleReopens`, hold only once the hook has fired.
- ContactWorker.IsValidEmailMatchesPattern: strings are sequences of Unicode scalar values, while JavaScript strings are UTF-16 code units. A string holding a lone surrogate, which `[^\s@]` also matches because the pattern has no `u` flag, cannot be written in the model. Every representable string gets the validator's verdict.
- Navigation.JumpStep: the jump index is an integer, because its only caller, the menu, passes the section indices 0..5. The source's global takes any JavaScript number, and its bounds check would also accept a fraction such as 2.5. That would then match no canvas when rendering. That case is not modelled.
- The `CustomEvent` dispatch is the navigator's `notified` log. The page hands the new entry to the menu's listener right after the container call returns. The menu writes only the highlight and the click handler writes only the overlay, so the final state is the one the synchronous dispatch gives. `console.log` and `console.error` lines are not modelled.
- A container with zero canvases: index 0 is then out of range, so the invariant (`Valid`) needs at least one canvas.
- The menu's body-scroll lock (`document.body.style.overflow`). It is a DOM style effect.
- Workers: the SendGrid request body, `response.text()`, the KV key and timestamp, and the construction of `Response` objects. A response is reduced to status, body tag and headers. The plain-text 405 and 404 responses carry no modelled headers.
- Workers: JSON fields are optional strings. Non-string JSON values such as numbers and booleans are not modelled.
- Workers: for the module worker, an unset `EMAIL_SERVICE` or `API_KEY` is the empty string. For the legacy worker, a global binding is either never defined (reading it throws) or a string.
- app/api/contact/route.ts is not part of this model. It relays the request to a fixed address and has no logic of its own.
- The section canvases, `Canvas.tsx`, the layout, the page markup apart from the canvas order, and the Tailwind configuration are presentational.
