# trgs-site: the interactive components, modelled in Dafny

The trgs-site landing page is mostly static markup. Five of its components,
though, hold small pieces of logic that are deterministic and can be stated
precisely. This project models those pieces and proves what they promise.

- **The curved journey gallery** (`components/Gallery.tsx`). It doubles the item list into a
  strip of tiles laid out a fixed width apart. Every animation frame:
  - eases the scroll position toward the scroll target;
  - places each tile relative to that position;
  - moves a tile that has left the viewport on the trailing side forward by one
    strip length, so the strip never ends.

  Dragging and the wheel move the target. Snapping rounds the target to a whole
  tile and reports an item index: the tile count modulo the item count, which is
  the centred item only for targets of zero or more (see Findings). Modelled as the classes
  `Gallery.Media` (one tile) and `Gallery.App` (the gallery), with the per-frame
  arithmetic as functions (`Step`, `Place`, `Wrap`, `Curve`, `SnapTarget`) that
  the methods are proved against.
- **The logo marquee** (`components/LogoLoop.tsx`). A track of repeated logo lists scrolls
  sideways. Its velocity eases toward a target that drops to zero while the
  track is hovered. Its offset wraps into one list width, and enough copies of
  the list are rendered to cover the container. A separate hook counts the list's
  images down and calls `onLoad` when the count reaches zero.
- **The journey section** (`components/Journey.tsx`). It flattens named phases of images
  into the gallery's item list, and maps a gallery index back to its phase's name.
- **The pillars rail** (`components/Pillars.tsx`). A horizontal rail with:
  - a progress ratio;
  - a wheel handler that turns vertical wheel movement into horizontal scrolling;
  - a one-way flag that End or Escape switches off.
- **The proof section's logo list** (`components/ProofSection.tsx`). Each logo path is
  paired with an alt text: the part of the path after its last `/`.

JavaScript numbers are modelled as exact `real`s. The `Math` functions and the
`%` operator that the components use are written out in `JsMath`:
- `Math.round` as the floor of `x + 1/2`;
- `Math.ceil`;
- `Math.sign`;
- `%` with the remainder taking the dividend's sign.

`Easing.Lerp` is the one interpolation step that both animations use.

Files:
- `wrappers.dfy`: `Option`.
- `js_math.dfy`: the `Math` functions and `%`.
- `easing.dfy`: `Lerp` and repeated easing.
- `gallery.dfy`, `logo_loop.dfy`, `journey.dfy`, `pillars.dfy`, `proof_section.dfy`: one module per component.

## Model

| member | source | states |
|---|---|---|
| `Easing.Lerp` | components/Gallery.tsx:40-42 | `lerp(p1, p2, t) = p1 + (p2 - p1) * t`; its properties are the `Lerp*` lemmas below |
| `Easing.LerpBounds` | components/Gallery.tsx:40-42 | `lerp(p, q, 0) = p` and `lerp(p, q, 1) = q`; for `t` in [0, 1] the result lies between `p` and `q`, whichever is larger |
| `Easing.LerpGap` | components/Gallery.tsx:40-42 | one step leaves exactly the fraction `1 - t` of the distance to the target |
| `Easing.LerpNeverWidens` | components/Gallery.tsx:480 | a frame with `ease` in [0, 1] never increases `abs(target - current)`, and strictly decreases it when `ease > 0` and the two differ |
| `Easing.SettleGap` | components/Gallery.tsx:479-486 | after `k` frames toward a fixed target, the signed gap is the first gap times `(1 - ease)^k` |
| `Easing.SettleNeverWidens` | components/Gallery.tsx:479-486 | however many frames run toward a fixed target with `ease` in (0, 1], the position never ends further from it than it started |
| `JsMath.Round` | components/Gallery.tsx:457 | `Math.round` of a non-negative number is the nearest integer, halves rounded up |
| `JsMath.Ceil` | components/LogoLoop.tsx:204-206 | `Math.ceil` is the least integer not below its argument |
| `JsMath.Sign` | components/Gallery.tsx:274 | `Math.sign(x)` is -1, 0 or 1 with the sign of `x` (so 0 exactly at 0), and `sign(x) * x = abs(x)` |
| `JsMath.RemFacts` | components/LogoLoop.tsx:139 | JavaScript's `%` with a positive divisor: the remainder is smaller than the divisor in magnitude, non-negative for a non-negative dividend, and differs from the dividend by a whole multiple of the divisor |
| `JsMath.PosMod` | components/LogoLoop.tsx:139 | for `w > 0`, `((o % w) + w) % w` lies in [0, w) |
| `JsMath.PosModCongruent` | components/LogoLoop.tsx:154 | `((o % w) + w) % w` differs from `o` by a whole multiple of `w` |
| `JsMath.PosModIdentity` | components/LogoLoop.tsx:139 | an offset already in [0, w) is left unchanged |
| `Gallery.Duplicate` | components/Gallery.tsx:408-410 | the tile list has `2n` entries and tile `i` carries item `i mod n` |
| `Gallery.TileLayout` | components/Gallery.tsx:303-310 | the layout `Media.onResize` computes: `scale = screen.height / 1500`, tile size from it, `width = scale.x + 2`, `widthTotal = width * length`, `x = width * index`; its properties are `TileScales` and `LayoutSpacing` |
| `Gallery.TileScales` | components/Gallery.tsx:300-311 | after layout a tile is 0.6 of the viewport high, keeps the 700:1500 design proportion corrected for the screen's aspect ratio, and is at least the padding wide |
| `Gallery.LayoutSpacing` | components/Gallery.tsx:307-310 | neighbouring tiles are exactly `width = scale.x + 2` apart, all tiles have the same width, and `widthTotal` is the last tile's `x` plus one width |
| `Gallery.Curve` | components/Gallery.tsx:262-279 | with `bend = 0` a tile is level and unrotated |
| `Gallery.Radius` | components/Gallery.tsx:268-269 | the bend circle's radius `R` is positive and satisfies `R * 2b = H^2 + b^2` |
| `Gallery.Lean` | components/Gallery.tsx:274-277 | the tile's rotation is `Math.sign(x)` times the arc angle |
| `Gallery.CurveMirror` | components/Gallery.tsx:267-279 | bending the other way negates the tile's height and rotation |
| `Gallery.CurveSymmetric` | components/Gallery.tsx:267-279 | tiles at `x` and `-x` sit at the same height and lean by opposite angles |
| `Gallery.Place` | components/Gallery.tsx:259-288 | the first half of `Media.update`: position, curve pose, speed and both edge flags |
| `Gallery.Wrap` | components/Gallery.tsx:290-297 | the second half of `Media.update`: the shift by `widthTotal` in the frame's direction |
| `Gallery.Step` | components/Gallery.tsx:258-298 | one tile's frame: `Wrap` after `Place`; its effect is stated by `StepEffect` |
| `Gallery.StepEffect` | components/Gallery.tsx:258-298 | a frame puts a tile at `x - current - extra` with speed `current - last`; moving right with the tile wholly left of the viewport lowers `extra` by `widthTotal`, moving left with it wholly right raises it by `widthTotal`, both flags cleared; otherwise `extra` stays and the flags report the edges |
| `Gallery.FlatStrip` | components/Gallery.tsx:264-266 | with `bend = 0` every frame leaves every tile at height 0 and rotation 0 |
| `Gallery.DirectionOf` | components/Gallery.tsx:481 | the direction is right exactly when `current > last`, left otherwise (equal included) |
| `Gallery.Run` | components/Gallery.tsx:479-486 | one tile's state after a run of frames, each stepping with that frame's direction; its invariant is `RunKeepsExtraMultiple` |
| `Gallery.StepKeepsExtraMultiple` | components/Gallery.tsx:290-297 | one frame keeps `extra` a whole multiple of `widthTotal` |
| `Gallery.RunKeepsExtraMultiple` | components/Gallery.tsx:290-297 | across any run of frames without a resize, `extra` stays a whole multiple of `widthTotal` |
| `Gallery.RestRunAligned` | components/Gallery.tsx:290-297 | a tile built at rest (`extra = 0`) and run through any frames without a resize keeps `extra` a whole multiple of `widthTotal` |
| `Gallery.SnapIndex` | components/Gallery.tsx:457 | `round(abs(target) / width)` is the tile count whose multiple of `width` lies within half a tile of `abs(target)` |
| `Gallery.SnapTarget` | components/Gallery.tsx:456-459 | the snapped target is a whole multiple of the tile width, within half a tile of the old target, and keeps the target's sign |
| `Gallery.SnapIdempotent` | components/Gallery.tsx:454-464 | snapping a snapped target changes neither the target nor the tile count |
| `Gallery.ReportedIndex` | components/Gallery.tsx:462 | the index computed as written lies in [0, n) |
| `Gallery.ReportedIndexIgnoresSign` | components/Gallery.tsx:457-462 | as written, targets of equal magnitude and opposite sign report the same index |
| `Gallery.ReportedIndexMissesCentre` | components/Gallery.tsx:461-462 | for three items, tile width 3 (a 1-unit tile plus the padding) and target -3, the index as written is 1 while the centred tile shows item 2 |
| `Gallery.CentreIndex` | components/Gallery.tsx:461-463 | the corrected index lies in [0, n) and agrees with the index as written for non-negative targets |
| `Gallery.CentreIndexStable` | components/Gallery.tsx:454-464 | snapping a snapped target reports the same centred item |
| `Gallery.CentredTileShowsCentreIndex` | components/Gallery.tsx:461-463 | after snapping, whichever tile sits exactly at the centre (after any number of wraps) shows item `CentreIndex` |
| `Gallery.DragTarget` | components/Gallery.tsx:439-440 | the target while dragging is the position at touch-down plus `(start - x) * scrollSpeed * 0.025`; with the cursor back at `start` it is that position |
| `Gallery.DragMonotone` | components/Gallery.tsx:436-441 | dragging further left gives a larger target for a positive speed, and a drag back to the start restores the position at touch-down |
| `Gallery.WheelDelta` | components/Gallery.tsx:449 | the delta is `deltaY` when that is non-zero, otherwise `wheelDelta` when that is non-zero, otherwise `detail` |
| `Gallery.WheelStep` | components/Gallery.tsx:450 | a wheel event moves the target by a fifth of the scroll speed: forward for a positive delta, backward otherwise (zero included) |
| `Gallery.Media.constructor` | components/Gallery.tsx:138-168 | a new tile is laid out for the given sizes and is at rest: no wrap offset, no speed, both flags clear |
| `Gallery.Media.OnResize` | components/Gallery.tsx:300-311 | the tile's size, width, strip length and slot become the layout for the new sizes; its scroll state is kept |
| `Gallery.Media.Update` | components/Gallery.tsx:258-298 | the tile's new state is exactly one `Step` of its old state |
| `Gallery.Media.Position` | components/Gallery.tsx:259-288 | the tile's `x` position, speed and edge flags for this frame |
| `Gallery.Media.Bend` | components/Gallery.tsx:261-279 | the tile's height and rotation are the curve's at its position |
| `Gallery.Media.WrapAround` | components/Gallery.tsx:290-297 | the tile's state after the wraparound in the frame's direction |
| `Gallery.NewTiles` | components/Gallery.tsx:411-427 | one fresh, distinct tile per entry, tile `i` carrying entry `i`, index `i` and length `n`, laid out and at rest |
| `Gallery.StepTiles` | components/Gallery.tsx:482 | every tile runs one `Step` with the same scroll delta and direction; no layout changes |
| `Gallery.ResizeTiles` | components/Gallery.tsx:476 | every tile is laid out for the new sizes and keeps its scroll state |
| `Gallery.App.FrameKeepsValid` | components/Gallery.tsx:479-486 | a frame keeps the gallery's layout invariant |
| `Gallery.App.constructor` | components/Gallery.tsx:344-385 | the gallery starts valid, with the doubled item list, every tile at rest, zero scroll and no reports |
| `Gallery.App.CreateMedias` | components/Gallery.tsx:408-428 | the tile list is `items ++ items` and the gallery is valid with every tile fresh and at rest |
| `Gallery.App.Update` | components/Gallery.tsx:479-486 | `current` eases toward `target`, every tile steps with the frame's direction and delta, and `last` becomes `current`; the gallery stays valid |
| `Gallery.App.OnResize` | components/Gallery.tsx:466-477 | every tile is laid out for the new sizes at its own index and keeps its scroll state |
| `Gallery.App.OnCheck` | components/Gallery.tsx:454-464 | with no tiles nothing changes; otherwise the target snaps to a whole tile and, when a listener is set, `round(abs(target) / width) % (tiles / 2)` is reported, as written |
| `Gallery.App.OnCheckCentred` | components/Gallery.tsx:454-464 | the corrected snap: the same target, but the item reported is `CentreIndex`, the one on the tile the snap centres |
| `Gallery.App.OnTouchDown` | components/Gallery.tsx:430-434 | pressing records the current position and the cursor's `x` |
| `Gallery.App.OnTouchMove` | components/Gallery.tsx:436-441 | a move has no effect unless pressed; while pressed the target is the drag target |
| `Gallery.App.OnTouchUp` | components/Gallery.tsx:443-446 | releasing clears the pressed flag and then snaps as `onCheck` does, reporting the index as written |
| `Gallery.App.OnWheel` | components/Gallery.tsx:448-452 | a wheel event adds the wheel step of its delta to the target |
| `LogoLoop.ToCssLength` | components/LogoLoop.tsx:61-62 | a missing length stays missing, a string passes through unchanged, and a number becomes a numeral ending in `px` |
| `LogoLoop.NatToString` | components/LogoLoop.tsx:62 | the decimal numeral is all digits with no leading zero |
| `LogoLoop.IntToString` | components/LogoLoop.tsx:62 | the numeral starts with `-` exactly when the number is negative |
| `LogoLoop.NatRoundTrip` | components/LogoLoop.tsx:62 | the digits of a numeral read back as its number |
| `LogoLoop.PxRoundTrip` | components/LogoLoop.tsx:61-62 | a pixel length written by `toCssLength` reads back as the same number |
| `LogoLoop.TargetVelocity` | components/LogoLoop.tsx:195-198 | the target velocity has the speed's magnitude; it is positive for left, negative for right |
| `LogoLoop.TargetVelocityIgnoresSign` | components/LogoLoop.tsx:195-198 | the sign of the speed prop plays no part |
| `LogoLoop.FrameTarget` | components/LogoLoop.tsx:148 | a frame eases toward 0 when paused by hover, and toward the target velocity otherwise |
| `LogoLoop.Dt` | components/LogoLoop.tsx:145 | `dt` is never negative, is 0 when time has not advanced, and is otherwise the elapsed milliseconds over 1000 |
| `LogoLoop.CopyCount` | components/LogoLoop.tsx:205-207 | the copy count is `max(2, ceil(cw / sw) + 2)`: at least both, and equal to one of them |
| `LogoLoop.CopyCountCovers` | components/LogoLoop.tsx:200-208 | the copies span the container plus two list widths |
| `LogoLoop.Marquee.constructor` | components/LogoLoop.tsx:129-193 | unmeasured width, two copies, not hovered, offset and velocity 0, no previous frame |
| `LogoLoop.Marquee.UpdateDims` | components/LogoLoop.tsx:200-209 | nothing changes for a list width of 0 or less; otherwise the width rounds up and the copy count covers the container |
| `LogoLoop.Marquee.OnEnter` | components/LogoLoop.tsx:296 | hovering sets the flag only when hovering pauses |
| `LogoLoop.Marquee.OnLeave` | components/LogoLoop.tsx:297 | leaving clears the flag only when hovering pauses |
| `LogoLoop.Marquee.StartEffect` | components/LogoLoop.tsx:138-141 | a measured width pulls the offset into [0, width); an unmeasured one leaves it alone |
| `LogoLoop.Marquee.Animate` | components/LogoLoop.tsx:143-157 | a frame records its timestamp, eases the velocity toward the frame's target, and, for a measured width, advances the offset by `vel * dt` wrapped into one list width |
| `LogoLoop.Marquee.Cleanup` | components/LogoLoop.tsx:163-166 | clean-up forgets the previous frame's timestamp |
| `LogoLoop.Travel` | components/LogoLoop.tsx:153 | the distance `vel * dt` a frame moves the track; nothing when `dt = 0` |
| `LogoLoop.FrameOffset` | components/LogoLoop.tsx:152-155 | a frame's new offset lies in [0, width) and differs from `offset + vel * dt` by whole list widths |
| `LogoLoop.FirstFrameStill` | components/LogoLoop.tsx:144-157 | the first frame after a (re)start has `dt = 0` and moves neither the velocity nor the offset |
| `LogoLoop.VelocityConverges` | components/LogoLoop.tsx:148-150 | with easing in [0, 1) the velocity moves toward the target without overshooting |
| `LogoLoop.ImageLoader.constructor` | components/LogoLoop.tsx:90-95 | before the effect runs, no listener is attached and `onLoad` has not run |
| `LogoLoop.ImageLoader.Done` | components/LogoLoop.tsx:103-106 | the count drops by one, and `onLoad` runs when it reaches exactly 0 |
| `LogoLoop.ImageLoader.Setup` | components/LogoLoop.tsx:96-111 | with no images `onLoad` runs at once; otherwise complete images count down at once and every other image gets both a `load` and an `error` listener, leaving the count at the number of incomplete images; `onLoad` has run exactly when every image was already complete |
| `LogoLoop.ImageLoader.OnEvent` | components/LogoLoop.tsx:107-111 | an event whose listener is still attached detaches that one listener and counts down once; any other event changes nothing; `onLoad` runs when the count reaches exactly 0 |
| `LogoLoop.ImageLoader.Cleanup` | components/LogoLoop.tsx:112-117 | clean-up removes every listener, so later events count for nothing |
| `LogoLoop.OneEventEach` | components/LogoLoop.tsx:102-111 | when each image fires exactly one of `load` and `error`, the count equals the images that have fired neither, so `onLoad` runs exactly when all have finished |
| `LogoLoop.EarlyLoad` | components/LogoLoop.tsx:107-111 | with two images, one that fires `load` and then `error` counts down twice, so `onLoad` runs while the other image has fired nothing |
| `Journey.AltText` | components/Journey.tsx:18 | the alt text is `alt` when present and non-empty, otherwise the title |
| `Journey.ToFlat` | components/Journey.tsx:15-19 | one phase item as a gallery item: its image, its caption as text, and `alt || title` as alt |
| `Journey.FlatPhase` | components/Journey.tsx:15-19 | a phase's items map one for one, in order, to gallery items |
| `Journey.FlatPrefixLength` | components/Journey.tsx:12-22 | the first `n` phases flatten to as many items as they hold |
| `Journey.FlatPrefixAt` | components/Journey.tsx:12-22 | item `k` of phase `p` lands right after the items of the earlier phases |
| `Journey.FlatItems` | components/Journey.tsx:12-22 | `phases.flatMap(...)`: every phase's items in phase order; its layout is `FlatItemsLayout` |
| `Journey.FlatItemsLayout` | components/Journey.tsx:12-22 | `flatItems` has one entry per phase item, phase by phase and then item by item |
| `Journey.CumMonotone` | components/Journey.tsx:30-34 | the running item count never falls |
| `Journey.IndexToPhase` | components/Journey.tsx:29-37 | the name of the first phase whose running count exceeds `idx`; when no phase does (past the end, or no phases at all), the last phase's name, or `""` with no phases |
| `Journey.PhaseOfUnique` | components/Journey.tsx:31-33 | only one phase is the first to pass an index |
| `Journey.ProducingPhase` | components/Journey.tsx:12-35 | the flat index of an item of phase `p` maps back to phase `p` |
| `Journey.InRangeHasPhase` | components/Journey.tsx:29-35 | every index below the total count has a phase |
| `Journey.PhaseOfFlatItem` | components/Journey.tsx:12-35 | for every index of `flatItems`, the phase found is the one that produced the item there |
| `Journey.FoundPhaseHasItems` | components/Journey.tsx:31-34 | a phase with no items is never found for a valid index |
| `Pillars.Progress` | components/Pillars.tsx:33-36 | progress is 0 when the rail does not overflow, and otherwise the scroll position over the scrollable range |
| `Pillars.ProgressBounds` | components/Pillars.tsx:34-35 | a scroll position within range gives a progress in [0, 1] |
| `Pillars.Redirects` | components/Pillars.tsx:40-41 | a wheel event is taken over exactly when the flag is on and `abs(deltaX) > abs(deltaY)` does not hold |
| `Pillars.AfterKeys` | components/Pillars.tsx:46-48 | the flag after a run of key presses, one `onKey` at a time; its properties are the `AfterKeys*` lemmas |
| `Pillars.AfterKeysOn` | components/Pillars.tsx:46-48 | the flag is still on after a run of keys exactly when it started on and none was End or Escape |
| `Pillars.AfterKeysSnoc` | components/Pillars.tsx:46-48 | a run of key presses is a sequence of single `onKey` steps |
| `Pillars.AfterKeysStaysOff` | components/Pillars.tsx:46-48 | once off, no key turns the flag back on |
| `Pillars.ClampScroll` | components/Pillars.tsx:43 | the resting position the model takes for a scroll request lies in the scrollable range, and is the request itself when that is in range |
| `Pillars.Rail.constructor` | components/Pillars.tsx:24-53 | the flag starts on and the first `onScroll` sets progress in [0, 1] |
| `Pillars.Rail.OnScroll` | components/Pillars.tsx:33-37 | progress follows the scroll position and stays in [0, 1] |
| `Pillars.Rail.OnResize` | components/Pillars.tsx:55-56 | after a resize the model clamps the position into the new range, and progress is recomputed in [0, 1] |
| `Pillars.Rail.OnWheel` | components/Pillars.tsx:39-44 | the event is cancelled exactly when the flag is on and the event is not mostly horizontal; then the rail is asked to scroll by `deltaY`; otherwise the browser's own handling scrolls the rail by `deltaX`, which leaves it in place when `deltaX` is 0; the model rests the rail at the clamped request in both cases |
| `Pillars.Rail.OnKey` | components/Pillars.tsx:46-48 | End or Escape turns the flag off, other keys leave it alone, and nothing turns it on |
| `ProofSection.Split` | components/ProofSection.tsx:37 | `split` always yields at least one piece |
| `ProofSection.SplitJoin` | components/ProofSection.tsx:37 | joining the pieces with the separator gives back the string |
| `ProofSection.SplitPiecesClean` | components/ProofSection.tsx:37 | no piece contains the separator |
| `ProofSection.SplitSingle` | components/ProofSection.tsx:37 | there is exactly one piece when the separator does not occur |
| `ProofSection.LastSlashEnd` | components/ProofSection.tsx:37 | the last segment starts just past a `/` (or at 0) and holds no `/` |
| `ProofSection.LastPieceAfterLastSlash` | components/ProofSection.tsx:37 | `split("/").pop()` is the text after the last `/`, or the whole string without one |
| `ProofSection.Alt` | components/ProofSection.tsx:37 | the alt derived from a logo path, `split("/").pop()` or else `"logo"`; its meaning is stated by `AltIsFileName` |
| `ProofSection.AltIsFileName` | components/ProofSection.tsx:37 | the alt is the text after the last `/` when that is non-empty, `"logo"` otherwise, so it is never empty and never holds `/` |
| `ProofSection.AltOfFileInDir` | components/ProofSection.tsx:37 | a directory ending in `/` followed by a plain file name gives the file name as alt |
| `ProofSection.LogoItems` | components/ProofSection.tsx:37 | one item per path, in order, with the path unchanged and its derived alt |
| `ProofSection.LogoItemsKeepOrder` | components/ProofSection.tsx:37 | same length and order as `LOGOS`, and every alt non-empty and free of `/` |
| `ProofSection.ShippedFirstAlt` | components/ProofSection.tsx:10-37 | the shipped list has 24 items and `"/logos/intel.svg"` gets the alt `"intel.svg"` |
| `ProofSection.ShippedLastAlt` | components/ProofSection.tsx:34-37 | `"/logos/ned.png"` gets the alt `"ned.png"` |

## Left out

- Rendering: WebGL, shaders, canvas text textures and the DOM. This covers the gallery's `uTime`/`uSpeed` uniforms, the tiles' image loading, `translate3d` strings and all JSX.
- The gallery's viewport is an input. The camera's `tan` arithmetic that derives it from the container size is not modelled. `Gallery.App.OnResize` takes the measured screen and viewport.
- `Math.sqrt` and `Math.asin`, for a bent strip: the caller supplies them as a `Trig` value. The radius, the clamped distance and the sign logic around them are modelled exactly.
- The `debounce` timer: `Gallery.App.OnCheck` is the call the timer makes when it fires. `Gallery.App.OnWheel` moves the target only.
- The `Media` constructor calls `onResize()` without the argument that the method destructures. The model lays a new tile out from the sizes passed to it, as `App.onResize` does for every tile.
- The gallery constructor's closing `update()` call, and the `requestAnimationFrame` loop: each frame is one call to `Gallery.App.Update` made by the host. `destroy` and the listener wiring are not modelled.
- Gallery sizes: the layout needs a screen of positive width and height (`Gallery.Measurable`). A zero-size container makes the component divide by zero (`components/Gallery.tsx:304-305`), which yields `NaN` or `Infinity` in JavaScript; that case is not modelled.
- `LogoLoop.ToCssLength`: only integer pixel counts are modelled. JavaScript's formatting of fractional numbers, exponents and `NaN` is out of scope.
- The marquee's easing factor `1 - exp(-dt / 0.25)`: the caller supplies it, in [0, 1) and 0 when `dt` is 0. `Math.exp` is not modelled.
- The marquee effect's early return when the track element is missing, `ResizeObserver` and its window fallback. `updateDims` is a method the host calls with the measured widths.
- The marquee's `onLoad` callback: it is counted (`loadCalls`), not run.
- The order of effect runs. The marquee's effect re-runs whenever the hovered flag, the measured width, the target velocity or `pauseOnHover` changes (`components/LogoLoop.tsx:167`). The model leaves that to the host: after `OnEnter`, `OnLeave` or an `UpdateDims` that changes the width, the host calls `Cleanup` and then `StartEffect` before the next `Animate`. Likewise the image loader's `Cleanup` and `Setup` run again when the logos, gap or height change. The marquee's `speed`, `direction` and `pauseOnHover` are constants of a `Marquee`. A prop change on a mounted marquee, which re-runs the effect while the offset and velocity persist, is not modelled: the component's only use passes constant props.
- `Pillars.ClampScroll`: the rail has mandatory scroll snapping (`snap-x snap-mandatory` on the rail and `snap-center` on each card, `components/Pillars.tsx:107,114`). The browser therefore settles on a card's snap position, which is not modelled. The model takes the request clamped into the scrollable range as the resting position. The proved properties hold for any in-range position.
- `Pillars.Rail.OnWheel`: `scrollBy` is modelled as the old position plus `deltaY`, clamped into the scrollable range. An event that is not cancelled gets the browser's native handling. The model reduces that to a sideways scroll of the rail by `deltaX`, clamped the same way. It does not model the page's vertical scroll, scroll chaining, or the browser's own line and page delta modes. The model leaves out the move on to a snap position and the smooth-scroll animation. The redirect decision and the progress bounds are modelled exactly.
- `Pillars.Rail.OnResize`: on resize, the browser clamps the position and then re-snaps it to a card. The model does only the clamp, with `ClampScroll`.
- Default props: the model takes every prop as an explicit parameter, with no defaults. Left out are the gallery's defaults (`bend = 3`, `scrollSpeed = 2`, `scrollEase = 0.05`, `components/Gallery.tsx:517-522`) and the marquee's (`speed = 10`, `direction = "left"`, `pauseOnHover = true`, `components/LogoLoop.tsx:173-178`). The contracts hold for any values, the defaults included.
- `ProofSection.ShippedFirstAlt`: the concrete alt text is proved for the first and the last `LOGOS` entries only. `ProofSection.AltOfFileInDir` covers every entry of the same shape, and `ProofSection.LogoItemsKeepOrder` covers the whole list.
- The journey item's `placeholder` field is carried but unused, as in the component. The section's rendering and its `onIndexChange` wiring are page glue and are not modelled.

## Findings

| source | as written | input that shows it | evidently intended | confidence | as-written member | corrected member |
|---|---|---|---|---|---|---|
| components/Gallery.tsx:462 | the reported index is `round(abs(target) / width) mod n`, which drops the target's sign | `n = 3` items, tile width 3 (a 1-unit tile plus the padding), target -3: reports item 1, but the tile at the centre is tile 5 (wrapped once), which shows item 2 | the item of the tile at the centre, i.e. the signed tile count modulo `n`, which `Gallery.App.OnCheckCentred` reports | not executed | `Gallery.ReportedIndexMissesCentre` | `Gallery.CentredTileShowsCentreIndex` |
