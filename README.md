# Comet, galaxy and page logic of a personal portfolio site

This project models, in Dafny, the behaviour that the landing page of a
Next.js/React portfolio site builds on top of its drawing code:

- **The comet overlay** (`components/CometEffect.tsx`, module `Comet`): a
  one-shot canvas animation. A head flies along a fixed straight path,
  "launch then coast" (quadratic ease up to 40 % of the time, then constant
  speed), leaving a trail of at most 55 recent positions drawn as tapered
  segments. After 2600 ms the trail is frozen and faded out over 17 fade
  calls of 0.06 each. Then the component stops rendering its canvas.
- **The galaxy background controller** (`components/Galaxy.tsx`, the effect
  at lines 197-311, module `Galaxy`): it sizes the WebGL surface to 0.75 of
  its container, renders once and signals ready, then runs a
  self-rescheduling animation loop. The loop renders at most once per 1000/45 ms,
  is started and stopped by an intersection observer, and is torn down in a
  fixed order.
- **The page** (`app/page.tsx`, module `Page`): the "Also into" text cycling
  through five interests; the one-way `galaxyReady` latch that makes the hero
  opaque and, 1200 ms later, mounts the comet; the section observer that fades
  sections in and highlights one nav button; and the website preview, whose
  1920x1200 frame is scaled to fit its container.

Each stateful component is a class whose fields are the component's
variables and closures' shared state. Browser callbacks are methods:
animation frames, timer expiries, observer and resize notifications. Each
callback method does nothing when the matching callback is not scheduled or
registered, so stale and late events are modelled as well. Time is given as
a parameter (`ts`, `t`, `now`). Calls into the canvas, WebGL and DOM APIs
become values: the comet returns the `Picture`s it draws, and the galaxy
appends `Effect`s to a log. Numbers are exact reals and unbounded integers.

Two behaviours of the code that the model keeps:
- When the comet finishes, the code clears the canvas, sets its own `done`
  state and renders nothing. It does not clear the trail buffer, and it
  calls no completion callback on the host. `CometEffect.OnFadeFrame` states
  the code's behaviour: the trail and the frozen `lastTrail` are unchanged by
  the final fade call.
- The comet's cleanup cancels only the pending flight frame. Fade frames keep
  running after unmount until the fade ends (see `CometEffect.Unmount`).

## Model

| member | source | states |
|---|---|---|
| Comet.TrajectoryFor | components/CometEffect.tsx:13-25 | for a non-negative window size the path starts and ends inside the window, and runs strictly rightwards and downwards when the size is positive |
| Comet.Progress | components/CometEffect.tsx:35-37 | time progress never exceeds 1, is non-negative for non-negative elapsed time, is exactly 1 iff 2600 ms have elapsed, and before that is elapsed/2600 |
| Comet.Ease | components/CometEffect.tsx:38-41 | from 0.4 on, the eased progress equals time progress (the coast runs at constant rate) |
| Comet.EaseFixedPoints | components/CometEffect.tsx:38-41 | the easing fixes 0, 0.4 and 1, and its accelerating branch also reaches 0.4 at 0.4, so the two branches meet |
| Comet.EaseLaunchBelowRaw | components/CometEffect.tsx:39-40 | during the launch the eased progress is between 0 and time progress |
| Comet.EaseInUnit | components/CometEffect.tsx:39-41 | time progress in [0, 1] gives eased progress in [0, 1] |
| Comet.EaseMonotone | components/CometEffect.tsx:39-41 | eased progress never decreases as time progress grows |
| Comet.Head | components/CometEffect.tsx:43-44 | eased progress 0 places the head at the start point and 1 at the end point |
| Comet.HeadOnSegment | components/CometEffect.tsx:43-44 | every head position for progress in [0, 1] lies on the segment from start to end (within its bounding box and collinear with it) |
| Comet.HeadAtArrival | components/CometEffect.tsx:34-44 | a frame at or after 2600 ms puts the head exactly on the end point |
| Comet.Recent | components/CometEffect.tsx:46-47 | the trail holds at most 55 points and at most the history's length, and holds all of the history or exactly 55 |
| Comet.RecentIsSuffix | components/CometEffect.tsx:46-47 | the trail is the newest points of the history, oldest first |
| Comet.PushShiftKeepsRecent | components/CometEffect.tsx:46-47 | a push followed by a shift when longer than 55 turns the trail of a history into the trail of the history extended by the new point |
| Comet.FadeEndsOnSeventeenthCall | components/CometEffect.tsx:88-97 | the fade multiplier is positive after fewer than 17 fade calls and drops to 0 or below on the 17th |
| Comet.SegmentBounds | components/CometEffect.tsx:52-55 | every trail segment has alpha strictly between 0 and 0.7 and width strictly between 0 and 3.5 |
| Comet.SegmentsTaper | components/CometEffect.tsx:52-55 | a newer segment is strictly more opaque and strictly wider than an older one |
| Comet.SegmentAt | components/CometEffect.tsx:52-59 | segment i of an n-point trail joins points i-1 and i, with width times n equal to 3.5 i and alpha times n squared equal to 0.7 i squared |
| Comet.TrailStrokes | components/CometEffect.tsx:52-64 | the segment loop draws exactly one stroke per pair of consecutive trail points, stroke i joining points i-1 and i with the tapered alpha and width |
| Comet.CometEffect.constructor | components/CometEffect.tsx:13-33 | mount fixes the window size and path, starts flying with an empty trail and no start time, and schedules the first frame exactly when a 2D context exists |
| Comet.CometEffect.OnFrame | components/CometEffect.tsx:34-117 | a fired frame fixes the start time on its first call (also when the stored start is 0), appends the eased head to the history, draws the trail and head; before 2600 ms it re-requests itself, otherwise it freezes the trail and draws the first fade picture at 0.94 without a head; a frame that is not scheduled changes nothing |
| Comet.CometEffect.Fly | components/CometEffect.tsx:35-82 | the flight step keeps the trail equal to the recent history and draws all its segments at full alpha with the head |
| Comet.CometEffect.StartFade | components/CometEffect.tsx:86-89 | entering the fade copies the trail, sets the multiplier to 1 and runs the first fade call at once |
| Comet.CometEffect.Fade | components/CometEffect.tsx:91-114 | each fade call lowers the multiplier by 0.06; at 0 or below it clears the canvas, finishes, and sets `done` only if still mounted; otherwise it draws the frozen trail at the multiplier's alpha, restores alpha 1 and schedules itself; it finishes exactly on the 17th call |
| Comet.CometEffect.OnFadeFrame | components/CometEffect.tsx:91-114 | a scheduled fade frame makes one fade call, leaves the trail and frozen trail untouched, and while fading draws every segment of the frozen trail at the multiplier's alpha without a head, and once finished while mounted the canvas is no longer rendered; an unscheduled one changes nothing |
| Comet.CometEffect.RendersCanvas | components/CometEffect.tsx:123 | the canvas disappears only once the fade has finished, and does disappear then if the component is still mounted |
| Comet.CometEffect.Unmount | components/CometEffect.tsx:119-120 | cleanup cancels the pending flight frame but leaves a scheduled fade frame scheduled |
| Galaxy.ScaledSize | components/Galaxy.tsx:216-219 | the surface is never larger than its container |
| Galaxy.ScaledSizeIsThreeQuarters | components/Galaxy.tsx:216-219 | the surface dimension is 0.75 of the container's, rounded down to a whole pixel |
| Galaxy.ResolutionOf | components/Galaxy.tsx:221-225 | the resolution uniform carries the surface size, and its aspect ratio times the height is the width whenever the height is positive |
| Galaxy.TimeUniforms | components/Galaxy.tsx:269-272 | `uTime` is the timestamp in seconds and `uStarSpeed` is `uTime` times the star speed, divided by 10 |
| Galaxy.SpacedSpan | components/Galaxy.tsx:262-267 | n renders of the throttled loop span at least n-1 frame intervals of 1000/45 ms |
| Galaxy.GalaxyRenderer.Mount | components/Galaxy.tsx:202-299 | mount registers the resize listener, sizes the surface through `Resize` before the program exists (so only the size changes), creates the program with the resolution of the sized surface, renders once, signals ready only when a handler is given, appends the canvas, requests frame 1 and observes the container, in that order, with `uTime` 0 |
| Galaxy.GalaxyRenderer.Resize | components/Galaxy.tsx:218-227 | resizing always sets the surface size and updates the resolution uniform only once the program exists |
| Galaxy.GalaxyRenderer.StartLoop | components/Galaxy.tsx:277-281 | a frame is requested only when none is pending |
| Galaxy.GalaxyRenderer.StopLoop | components/Galaxy.tsx:283-288 | a pending frame is cancelled and forgotten; otherwise nothing happens |
| Galaxy.GalaxyRenderer.Update | components/Galaxy.tsx:264-275 | each loop frame first re-requests itself; it renders, and updates the time uniforms unless animation is disabled, only when a full frame interval has passed since the last render, keeping the renders spaced |
| Galaxy.GalaxyRenderer.OnAnimationFrame | components/Galaxy.tsx:264-275 | only a pending frame request runs the loop step; otherwise nothing changes |
| Galaxy.GalaxyRenderer.OnIntersection | components/Galaxy.tsx:292-299 | while observed, the first entry of a batch decides: visibility starts the loop without requesting a second frame while one is pending, and invisibility cancels the pending frame |
| Galaxy.GalaxyRenderer.OnWindowResize | components/Galaxy.tsx:218-228 | while the listener is registered, a window resize resizes the surface and the resolution uniform |
| Galaxy.GalaxyRenderer.Teardown | components/Galaxy.tsx:301-307 | cleanup disconnects the observer, cancels a pending frame, removes the listener, detaches the canvas and loses the context, in that order, after which no callback reacts |
| Page.NextInterest | app/page.tsx:27 | the next interest index stays in range, advances by one and wraps from the last to the first |
| Page.IndexAfterIsRemainder | app/page.tsx:20-32 | after n swaps the text shows interest n mod 5 |
| Page.CyclingInterests.Shown | app/page.tsx:39 | the text shown is always one of the five interests |
| Page.CyclingInterests.constructor | app/page.tsx:20-24 | the text starts at the first interest, visible, with the 2800 ms interval registered |
| Page.CyclingInterests.OnIntervalTick | app/page.tsx:24-30 | an interval tick hides the text and schedules one swap, while registered |
| Page.CyclingInterests.OnSwapTimeout | app/page.tsx:26-29 | a swap timeout advances to the next interest and shows it while mounted; after unmount it changes only the pending count |
| Page.CyclingInterests.Unmount | app/page.tsx:31 | cleanup stops the interval and leaves pending swap timeouts pending |
| Page.IndexOf | app/page.tsx:207 | the position is -1 iff the id is not a nav section, and otherwise is the first position holding the id |
| Page.HeroOpacity | app/page.tsx:338 | the hero is opaque iff the galaxy is ready |
| Page.Highlighted | app/page.tsx:208-213 | only present buttons get a class; a button is active iff its position is the highlighted index |
| Page.AtMostOneActive | app/page.tsx:208-213 | at most one nav button is active, and it sits at the highlighted index |
| Page.HighlightLastWins | app/page.tsx:204-214 | a later highlight overrides an earlier one completely |
| Page.NavAfterStep | app/page.tsx:203-216 | an intersecting entry adds its section to the faded-in set and re-highlights the nav; a non-intersecting one changes neither |
| Page.HighlightNav | app/page.tsx:208-213 | the nav loop leaves the buttons highlighted for the index |
| Page.Home.constructor | app/page.tsx:189-193 | the page starts mounted and not ready, without the comet, with all nav buttons idle and the section observer connected |
| Page.Home.HandleGalaxyReady | app/page.tsx:195-199 | while mounted, the ready signal latches `galaxyReady` and, the first time only, schedules the comet 1200 ms later; repeated signals, and any signal after unmount, change nothing |
| Page.Home.OnTimersDue | app/page.tsx:195-199 | the comet appears once its timeout is due, and is rendered only when the galaxy is ready and the hero opaque, at least 1200 ms after the ready signal; the observer, the mounted state and the faded-in sections never change, and after unmount nothing changes |
| Page.Home.RendersComet | app/page.tsx:303 | the comet overlay is rendered only when the galaxy is ready and the hero is opaque |
| Page.Home.OnSectionEntries | app/page.tsx:201-218 | the faded-in sections grow by exactly the intersecting entries' targets, and the nav ends highlighted for the last intersecting entry, or unchanged when none intersects |
| Page.Home.Unmount | app/page.tsx:195-224 | cleanup clears a pending comet timeout, disconnects the section observer and unmounts the page |
| Page.ModalScale | app/page.tsx:63-69 | the scaled 1920x1200 frame fits inside the container and fills it in at least one dimension |
| Page.ThumbnailScale | app/page.tsx:53 | the thumbnail scale maps the 1920-pixel frame onto 256 pixels |
| Page.IframePreview.constructor | app/page.tsx:47-52 | the preview starts closed at scale 0.5 with no observer |
| Page.IframePreview.Open | app/page.tsx:60-76 | opening scales the frame to the container at once and starts observing it |
| Page.IframePreview.OnContainerResize | app/page.tsx:62-74 | while open, each container resize rescales the frame to fit |
| Page.IframePreview.Close | app/page.tsx:76 | closing disconnects the observer and keeps the last scale |

## Left out

- Pixels: the radial glow, the core disc, colours, line caps, the shaders and
  the WebGL renderer are not modelled. A `Picture` records the strokes, the
  global alpha and the head position; the galaxy records `Render`.
- Floating point: all arithmetic is exact. The comet's fade multiplier is
  counted in hundredths (100, 94, …), so the rounding of repeated `-= 0.06`
  in doubles is not modelled. Seventeen calls also end the fade in doubles.
- Comet.Ease: the coast branch is written as `0.4 + (raw - 0.4) * (1 / 0.6) * 0.6`, which in exact arithmetic is `raw`; the double rounding of `1 / 0.6` is not modelled.
- Galaxy.ScaledSize: assumes the renderer sets the canvas size attribute
  with a device pixel ratio of 1, so the integer attribute truncates
  `0.75 * offsetWidth`. The renderer library is not part of this model.
- Galaxy.GalaxyRenderer.Mount: the `onReady` handler is read through a
  ref; the model takes whether one is present at mount. The shader props
  other than `starSpeed` and `disableAnimation`, mouse interaction,
  `transparent` and the `focal`/`rotation` uniforms never change
  controller state and are left out.
- The early returns when a ref is empty (`if (!canvas) return`,
  `if (!ctnDom.current) return`) are left out: after mount these refs
  always hold their element. A missing 2D context is modelled
  (`hasContext`).
- React rendering is reduced to the state that decides it:
  `RendersCanvas`, `RendersComet`, `HeroOpacity`, the nav classes.
  `CometEffect`, `CyclingInterests` and `Home` carry a `mounted` flag, and
  their state updates after unmount are dropped, as React drops them. The
  preview's own unmount is not modelled.
- Galaxy.ResolutionOf: for a surface of height 0 the code divides by zero
  and stores Infinity (or NaN when the width is also 0) as the aspect
  ratio; the model records no ratio (`None`) instead of those IEEE values.
- Galaxy.GalaxyRenderer.OnIntersection: the observer may deliver several
  entries in one batch; the callback reads only the first, so the model
  takes that entry's flag and ignores the rest of the batch.
- Galaxy.GalaxyRenderer.Teardown: the context is lost only when the browser
  provides the `WEBGL_lose_context` extension; the model always logs
  `LoseContext`, so a missing extension is not modelled.
- Page.Home.OnSectionEntries: adding the fade-in class to the section element is modelled
  as a set of section ids; the observer threshold (0.1) and the geometry
  that decides intersection are inputs.
- Page.IframePreview.Open: the container's size is an input. The
  `scrollIntoView` call is left out. The backdrop click and the close
  button both set `isOpen` to false, which `Close` models.
- The rest of the page (static content, links, the experience list) and all
  other files of the site are not part of this model.
