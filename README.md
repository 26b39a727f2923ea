# Scroll-driven tennis-ball animation

This project models the animated tennis ball on the site's pages. As the
visitor scrolls, the ball follows a zig-zag path across the viewport. It bobs
vertically, rotates with its horizontal movement and casts a shadow. It is
shown only in the middle part of the page. From the end of the first frame
on, between frames its frame loop runs exactly when the ball is shown. There
are two exceptions. From the initial scroll check at page load until the first
frame, the loop may run with the ball still hidden. Within a frame, a scroll
out of the band, or into the gap between the two bands, lets one last callback
run while the ball is hidden.

Numbers are exact `real`s. The model has seven modules:

- `Viewport`: the window reading (`innerWidth`, `innerHeight`,
  `scrollHeight`, `scrollY`), the mobile breakpoint (width < 769), the ball
  size, and the scroll fraction `scrollY / max(1, scrollHeight - innerHeight)`.
- `Waypoints`: the 12-point path.
- `PathSampler`: the ease-in/out curve, the search for the first segment
  containing the fraction, and the horizontal target.
- `Motion`: exponential smoothing, rotation, the vertical bob and the shadow.
  The value `sin(fraction · π · 12)` is a parameter of type `Sine`, a real
  in [-1, 1].
- `Lifecycle`: the two flags `rafRunning` and `ballActive` as a pure state
  machine. The host's queue of requested frame callbacks is an explicit
  counter `pending`. A frame is modelled as at most one scroll event followed
  by the callbacks queued so far, all seeing the same fraction.
- `ScrollBall`: the class `TennisBall`. Its fields are the closure variables
  of the source, plus `framesPending`, the callback queue. Its methods update
  the fields in place. Their `ensures` tie the new state to the functions of
  the other modules.
- `RealArith`: helper lemmas about products and quotients of reals.

## Model

| member | source | states |
|---|---|---|
| `Viewport.PageHeight` | script.js:13 | the divisor is `max(1, scrollHeight - innerHeight)`: at least 1 and at least the scrollable height |
| `Viewport.IsMobile` | script.js:14 | no contract of its own: the breakpoint test `width < 769`, whose consequences `BallSize`, `Waypoints.BuildWaypoints`, `Motion.LerpFactor` and `Motion.TargetY` state |
| `Viewport.BallSize` | script.js:14-20 | the icon size is 34 exactly when the width is below 769, otherwise 48 |
| `Viewport.ScrollPct` | script.js:69 | a scroll offset within the scrollable range gives a fraction in [0, 1]; 0 at the top, 1 at the bottom of a scrollable page; negative exactly when the offset is |
| `Waypoints.Margin` | script.js:26 | no contract of its own: the margin, 10 on mobile and 60 otherwise; `BuildWaypoints` states where it lands on the path |
| `Waypoints.LeftEdge` | script.js:28 | no contract of its own: the left edge is the margin; `BuildWaypoints` states that the odd interior waypoints use it |
| `Waypoints.RightEdge` | script.js:27 | no contract of its own: the right edge `w - bs - margin`; `BuildWaypoints` states that the even interior waypoints use it |
| `Waypoints.OffscreenStart` | script.js:31 | no contract of its own: `-bs - 20`; `BuildWaypoints` and `PathSampler.StartsOffscreen` state that the path starts there |
| `Waypoints.OffscreenEnd` | script.js:42 | no contract of its own: `w + 20`; `BuildWaypoints` and `PathSampler.EndsOffscreen` state that the path ends there |
| `Waypoints.BuildWaypoints` | script.js:23-44 | 12 points with strictly increasing fractions from 0 to 1; x is off-screen left (`-bs-20`) first and off-screen right (`w+20`) last; the ten interior points alternate left edge (`margin`) and right edge (`w-bs-margin`), left first |
| `Waypoints.IncreasingPairwise` | script.js:30-43 | increasing neighbours imply that any earlier waypoint has a smaller fraction than any later one |
| `Waypoints.ScrollWithinUnit` | script.js:30-43 | every fraction of a well-formed path is in [0, 1], and interior ones are strictly inside |
| `PathSampler.Ease` | script.js:56-58 | no contract of its own: the cubic ease-in/out; see `EaseEndpoints`, `EaseRange`, `EaseMonotone` and `EaseSymmetric` |
| `PathSampler.Lerp` | script.js:59 | no contract of its own: `a + (b - a) * e`; see `LerpBetween` and `LerpMonotone` |
| `PathSampler.SegmentX` | script.js:55-59 | no contract of its own: the eased value on one segment; see `SegmentEndpoints`, `SegmentBetween` and `SegmentMonotone` |
| `PathSampler.XForScroll` | script.js:50-63 | no contract of its own: the eased value on the first containing segment, else the last waypoint's x; see `GetXForScroll`, `XAtWaypoint`, `XOutsideUnit`, `XWithinSegment`, `StartsOffscreen` and `EndsOffscreen` |
| `PathSampler.FindSegment` | script.js:51-54 | the result is the first segment at or after the start index that contains the fraction, ends included, or none if no segment does |
| `PathSampler.GetXForScroll` | script.js:50-63 | the linear search with early return computes `XForScroll`: the eased value on the first containing segment, else the last waypoint's x |
| `PathSampler.EaseEndpoints` | script.js:56-58 | the ease maps 0 to 0 and 1 to 1, and both branches give 0.5 at t = 0.5 |
| `PathSampler.EaseRange` | script.js:56-58 | for t in [0, 1] the eased value is in [0, 1] |
| `PathSampler.EaseMonotone` | script.js:56-58 | the ease never decreases on [0, 1] |
| `PathSampler.EaseSymmetric` | script.js:56-58 | ease-out mirrors ease-in: `Ease(1 - t) == 1 - Ease(t)` for every t |
| `PathSampler.SegmentEndpoints` | script.js:55-59 | a segment yields its first waypoint's x at its start and its second's at its end, so neighbouring segments agree where they meet |
| `PathSampler.SegmentBetween` | script.js:55-59 | for a fraction inside a segment the sampled x lies between the segment's two x values |
| `PathSampler.SegmentMonotone` | script.js:55-59 | inside a segment the sampled x moves monotonically from the first waypoint's x towards the second's |
| `PathSampler.FirstSegmentIs` | script.js:51-54 | a containing segment with no containing segment before it is the one the search finds |
| `PathSampler.XAtWaypoint` | script.js:51-59 | at every waypoint's own fraction the sampled x equals that waypoint's x |
| `PathSampler.XOutsideUnit` | script.js:51-62 | a fraction below 0 or above 1 matches no segment, and the result is the last waypoint's x |
| `PathSampler.CoveredFrom` | script.js:51-54 | a fraction between a waypoint's fraction and the last one is found in some segment from there on |
| `PathSampler.XWithinSegment` | script.js:51-59 | every fraction in [0, 1] lies in some segment, and the sampled x lies between that segment's x values |
| `PathSampler.StartsOffscreen` | script.js:31-59 | at fraction 0 the target is the off-screen start `-bs-20` |
| `PathSampler.EndsOffscreen` | script.js:42-62 | at fraction 1 the target is the off-screen end `w+20` |
| `Motion.LerpFactor` | script.js:94 | the smoothing rate is strictly between 0 and 1 |
| `Motion.Amplitude` | script.js:88 | no contract of its own: the bob height, 50 on mobile and 80 otherwise; `TargetY` states that the target stays within it |
| `Motion.TargetY` | script.js:88-91 | the vertical target stays within one amplitude of 40% of the viewport height, and is exactly there when the sine is 0 |
| `Motion.Smooth` | script.js:94-96 | one step leaves the gap `(1 - k)` times the old gap; the value moves towards the target, never overshoots, and reaches it only if already there |
| `Motion.RotationDelta` | script.js:99-100 | no contract of its own: `0.8` times the gap after the smoothing step; see `RotationFollowsMotion` |
| `Motion.RotationFollowsMotion` | script.js:98-100 | the rotation step uses the gap after the update, so it equals `0.8 (1 - k)` times the gap before it and has the sign of the movement |
| `Motion.SmoothStepsDecay` | script.js:94-96 | with a fixed target, n steps leave the gap `(1 - k)^n` times the original, and the position stays between the start and the target |
| `Motion.SmoothStepsCloser` | script.js:94-96 | with a fixed target, one or more frames leave the icon strictly closer to the target than it started, unless it is already there |
| `Motion.PowUnit` | script.js:94-96 | the decay factor `(1 - k)^n` is in (0, 1], and below 1 after at least one step |
| `Motion.ShadowScale` | script.js:107 | the shadow scale is in [0.6, 1.0]; it is 0.6 exactly when the sine is 0 and 1.0 exactly when its magnitude is 1 |
| `Motion.ShadowOpacity` | script.js:109 | a scale in [0.6, 1.0] gives an opacity in [0.48, 0.6] |
| `Motion.ShadowBounds` | script.js:107-109 | the shadow depends only on the sine's magnitude, and a larger magnitude gives a wider and darker shadow |
| `Lifecycle.InTickBand` | script.js:72 | no contract of its own: the band (0.03, 0.95) in which a frame shows the ball; see `Tick` and `TickBandInsideScrollBand` |
| `Lifecycle.InScrollBand` | script.js:129 | no contract of its own: the band (0.02, 0.96) in which a scroll keeps the loop going; see `Scroll` and `TickBandInsideScrollBand` |
| `Lifecycle.TickBandInsideScrollBand` | script.js:72 | the tick band (0.03, 0.95) lies inside the scroll band (0.02, 0.96) |
| `Lifecycle.Start` | script.js:120-125 | starting sets `running` and queues a callback only if the loop was not running, so it never queues a duplicate; a running loop keeps a callback queued |
| `Lifecycle.Scroll` | script.js:127-136 | inside (0.02, 0.96) a scroll starts the loop; outside it clears both flags and leaves the queue alone; a scroll never adds more than one callback, and none while running |
| `Lifecycle.Tick` | script.js:72-115 | a tick consumes its callback; it sets `active` exactly when 0.03 < fraction < 0.95; it queues another callback exactly when active, and otherwise clears `running` |
| `Lifecycle.Frame` | script.js:68-136 | no contract of its own: one rendering frame, at most one scroll event and then the queued callbacks; see `FrameSettles`, `ScrollOutStops`, `ScrollInShows` and `HysteresisRunsOneTick` |
| `Lifecycle.Frames` | script.js:68-136 | no contract of its own: a sequence of frames; see `FramesSettle`, `LoadThenFrames` and `DownAndBackScenario` |
| `Lifecycle.FrameSettles` | script.js:68-136 | between frames `running == active` and exactly one callback is queued while running and none otherwise; from such a state the scroll event leaves at most one callback queued within the frame, and the frame ends settled and active exactly when the fraction is in the tick band and the loop was or became running |
| `Lifecycle.FramesSettle` | script.js:68-136 | from a settled state the loop is settled at the end of every frame of any sequence: between frames it runs exactly when the ball is shown, with one callback queued then and none otherwise |
| `Lifecycle.LoadThenFrames` | script.js:68-139 | from page load (the initial scroll check from rest) at most one callback is queued, and at the end of any non-empty sequence of frames the loop is settled with at most one callback queued |
| `Lifecycle.HysteresisRunsOneTick` | script.js:72-136 | a scroll to a fraction in (0.02, 0.03] or [0.95, 0.96) leaves exactly one callback queued; that tick hides the ball and stops the loop, and the frames after it without scrolling do nothing, at any fraction |
| `Lifecycle.QuietFramesStayIdle` | script.js:68-136 | from rest, any sequence of frames without a scroll event leaves the ball hidden, the loop stopped and nothing queued: only a scroll event starts the loop |
| `Lifecycle.ScrollOutStops` | script.js:127-136 | a scroll outside (0.02, 0.96) ends the frame with the loop stopped, the ball hidden and nothing queued |
| `Lifecycle.ScrollInShows` | script.js:72-130 | a scroll into (0.03, 0.95) ends the frame with the ball shown and exactly one callback queued |
| `Lifecycle.DownAndBackScenario` | script.js:72-136 | a scroll from the top to 0.05, 0.5, 0.99, back to 0.5 and to the top, one event per frame, leaves the ball hidden, shown, shown, hidden, shown and hidden, with one callback queued exactly while shown, and ends idle |
| `Lifecycle.FramesPrefix` | script.js:68-136 | running the first `i` frames is running the first `i - 1` and then frame `i` |
| `Lifecycle.TwoScrollsBetweenFramesQueueTwo` | script.js:119-136 | two scroll events between frames, out of the band and back in, leave two callbacks queued: only the host's one scroll event per frame prevents this |
| `ScrollBall.TennisBall.constructor` | script.js:12-139 | at page load every coordinate is 0, the path is built for the current width, and the flags are those of one scroll check from rest |
| `ScrollBall.TennisBall.Resize` | script.js:47 | the path is replaced wholesale with the one for the new width; nothing else changes |
| `ScrollBall.TennisBall.AnimateBall` | script.js:68-116 | the flags and queue follow `Tick`; the targets are the sampled x and the bobbed y; the position takes one smoothing step; the rotation grows by 0.8 times the remaining gap; the drawn shadow is `ShadowScale`/`ShadowOpacity` of the sine; it reschedules exactly when the ball is active |
| `ScrollBall.TennisBall.StartBallAnimation` | script.js:120-125 | the flags and queue follow `Start`; nothing is queued while running; no other field changes |
| `ScrollBall.TennisBall.OnScroll` | script.js:127-136 | the flags and queue follow `Scroll`; the path and the motion state are unchanged |
| `ScrollBall.DesktopScenario` | script.js:69-85 | width 1024, document 2000, viewport 800, scrolled 100: the fraction is 1/12, it falls on the segment from 0.04 to 0.12, x lies between 60 and 916, the fraction is in the tick band, and a scroll there from rest ends the frame with the ball shown and one callback queued |

## Left out

- `Math.sin` and `Math.PI`: the sine of `fraction · π · 12` is the parameter `sine`, a real in [-1, 1]. The model does not check that it is the sine of that fraction.
- IEEE-754 doubles: all arithmetic is exact over `real`. Rounding in the fractions (0.04, 0.12, …) and in the division that computes `t` is not modelled.
- DOM effects (`classList` add/remove of `active`, `style.transform`, the shadow's `style.opacity`, `querySelector`): the visible marking is the `ballActive` flag. The values written to the page are the returned `Render`.
- `requestAnimationFrame` and `addEventListener`: a requested frame is one more entry in the explicit callback counter. `AnimateBall` consumes one entry as the host does when it runs the callback. The host's per-frame ordering is written out only in `Lifecycle.Frame`.
- The `document.getElementById('tennisBall')` guard: without the element nothing runs, which needs no model.
- The source re-queries `isMobile()` on every frame. `AnimateBall` therefore takes the current width as input, while the stored path changes only on `Resize`, as in the source.
- Everything after line 140 of script.js: the navbar class toggle, the mobile menu, smooth-scroll anchors, active-link highlighting, the counters and reveal animations (IntersectionObserver, `performance.now()`), the contact-form feedback (`setTimeout`) and the ticker duplication. These are event wiring over DOM queries and timers and are not part of this model.
- Convergence to the target in the limit: `SmoothStepsDecay` states exact decay by `(1 - k)^n`, and `SmoothStepsCloser` states that every frame strictly narrows the gap. Neither states that `(1 - k)^n` becomes arbitrarily small.
