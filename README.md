# React Native image crop view: the geometry and gesture engine in Dafny

This project models the core of `react-native-image-cropview`. A crop box sits
over an image inside a container. The user drags the box's eight handles, and
pans and pinches the image. When they finish, the crop box is converted back
into source-image pixels. Three rectangles have to stay consistent:
- the container;
- the crop box, as four edges;
- the image, as its size, translation and scale.

The model follows the source file by file, with one Dafny module per file:

- `Types` (`types.dfy`, from `src/types.ts` and `src/config.ts`): the layout
  records, the handle and gesture-state enumerations, and the constants.
- `Utils` (`utils.dfy`, `src/utils.ts`): `resize` (contain / cover),
  `createAspectRatioRectangle`, `clamp` and `getMinCropperSize`, as pure
  functions.
- `Hooks` (`hooks.dfy`, `src/hooks.ts`): the pan and pinch frame trackers,
  the value cell and the timer, as classes whose methods overwrite their
  fields as the hooks' refs are overwritten. Ghost histories tie each tracker
  to a pure specification of the deltas it emits. `HooksTests` holds the
  unit-test cases and the timer finding.
- `CropBoxComponent` (`cropbox.dfy`, `src/components/cropbox/index.tsx`):
  - the pure parts: the bounds computation, the per-handle edge proposals,
    the `enabled` test, and the settle that contain-fits and centres the box;
  - the class `CropBox`: the four edge cells, the drag envelope, the active
    handler and the settle timer.
- `ImageComponent` (`image.dfy`, `src/components/image/index.tsx`):
  - the pure parts: the view transform, the apparent edges, the crop area, the
    re-centring, the pinch step and the zoom that follows the crop box;
  - the class `Image`: the layouts, the scale and translation with their
    logical tracks, the frame trackers and the decay record.
- `CropperComponent` (`cropper.dfy`, `src/components/Cropper.tsx`):
  - the selection of the aspect ratio and the maximum scale from the props;
  - the initial layout;
  - the class `Cropper`, which owns both children, routes each child's
    notifications to the other as the component's props wire them, detects
    the first layout and rotations, and emits the crop in source-image pixels.

Arithmetic is exact: every length is a `real`. Animations are modelled by
their effect on completion. The animated value and the logical track both
take the target value, and the completion's callback runs at once. The
screen's dimensions, the status-bar height, the container measures and the
image size are parameters.

The view transform is written once, as `ScreenPoint(t, s, size, u)`: the
screen position of the point `u` along an image side of length `size`,
translated by `t` and scaled by `s` about the centre. Every claim about the
apparent edges, the crop area, the pinch and the zoom that follows the crop
box is stated against it. The central end-to-end results are:
- `CropperComponent.Cropper.InitCropper`: right after the initial layout,
  the emitted rectangle lies inside the source image.
- `CropperComponent.Cropper.OnSettleTimer`: while the image covers the crop
  box and the zoom is not capped, the crop box's settle leaves the emitted
  rectangle exactly as it was. The settle is a contain-fit and re-centre of
  the box, followed by the image's `pinchToZoom` and re-centring.

## Model

| member | source | states |
|---|---|---|
| Utils.Resize | src/utils.ts:19-61 | the result is the input scaled by `scale` on both sides (aspect ratio kept), and one side equals the container's |
| Utils.ResizeContainFits | src/utils.ts:42-54 | with positive sizes, `contain` fits inside the container on both sides with a positive scale |
| Utils.ResizeCoverCovers | src/utils.ts:42-54 | with positive sizes, `cover` reaches at least the container on both sides with a positive scale |
| Utils.ResizeContainIsLargest | src/utils.ts:42-54 | every scale at which the box fits is at most `contain`'s scale |
| Utils.ResizeCoverIsSmallest | src/utils.ts:42-54 | every scale at which the box covers is at least `cover`'s scale |
| Utils.ResizeContainOfFitted | src/utils.ts:42-54 | a box that fits and touches its container is left unchanged by `contain` (scale 1) |
| Utils.CreateAspectRatioRectangle | src/utils.ts:63-82 | the width is the smaller side of the box, and width / height is the aspect ratio |
| Utils.AspectRatioRectangleMayBeTaller | src/utils.ts:72-81 | only the width is bounded: 100 x 50 at ratio 1/2 gives 50 x 100 |
| Utils.Clamp | src/utils.ts:84-94 | the value when inside [min, max], min below, max above, max when min > max; never above max |
| Utils.MinCropperSize | src/utils.ts:124-146 | 100 wide on a portrait screen, 100 * width / (height + status bar) on a landscape one, with height = width / ratio |
| Utils.UtilsTestCases | src/__tests__/utils.test.ts:5-90 | the test cases: contain 500 x 250 into 100 x 100, cover 100 x 100, the 100 x 50 rectangle at ratio 1, and three clamps |
| Hooks.PanFrames | src/hooks.ts:55-67 | one delta per reading: each reading minus the reading before it, the first minus the reset baseline |
| Hooks.PanFramesTelescope | src/hooks.ts:55-67 | the deltas since a reset add up to the latest reading minus the baseline (no double counting) |
| Hooks.ScaleFrames | src/hooks.ts:23-30 | one ratio per reading: each reading over the one before it, the first over 1 |
| Hooks.ScaleFramesTelescope | src/hooks.ts:23-30 | for non-zero readings, the ratios since a reset multiply up to the latest reading |
| Hooks.ScaleFrame.constructor | src/hooks.ts:16-17 | both refs start at 1, with no readings |
| Hooks.ScaleFrame.Reset | src/hooks.ts:19-21 | the previous reading becomes 1 and the history restarts; the last ratio is kept |
| Hooks.ScaleFrame.Update | src/hooks.ts:23-30 | returns the reading over the previous one, which is the last of `ScaleFrames` of the history; the reading becomes the previous one |
| Hooks.PanTranslationFrame.constructor | src/hooks.ts:41-46 | the baseline is the initial x / y, with a missing field read as 0; the delta starts at (0, 0) |
| Hooks.PanTranslationFrame.Reset | src/hooks.ts:48-53 | the baseline becomes the given x / y (missing as 0) and the history restarts |
| Hooks.PanTranslationFrame.Update | src/hooks.ts:55-67 | returns the reading minus the previous one, which is the last of `PanFrames` of the history; the reading becomes the previous one |
| Hooks.SharedValue.constructor | src/hooks.ts:83-85 | both the logical and the animated value start at the initial value |
| Hooks.SharedValue.SetAnimatedValue | src/hooks.ts:87-89 | only the animated value changes |
| Hooks.SharedValue.SetValue | src/hooks.ts:91-93 | only the logical value changes |
| Hooks.Timeout.constructor | src/hooks.ts:109-110 | no timer and no function |
| Hooks.Timeout.StartTimer | src/hooks.ts:112-115 | stores the function and schedules it under a fresh timer id |
| Hooks.Timeout.ClearTimer | src/hooks.ts:122-126 | cancels the pending timer; the id and the stored function stay |
| Hooks.Timeout.ResetTimer | src/hooks.ts:117-120 | cancels the old timer, then re-arms with the same function exactly when one was stored |
| Hooks.Timeout.Expire | src/hooks.ts:114 | a scheduled timer fires once and hands back its function; any other id does nothing |
| Hooks.Timeout.Unmount | src/hooks.ts:128-130 | as written, unmounting leaves every timer as it is |
| Hooks.Timeout.UnmountWithCleanup | src/hooks.ts:128-130 | with the cleanup returned, unmounting cancels the pending timer |
| HooksTests.UnmountLeavesTimerPending | src/hooks.ts:128-130 | a timer started and then unmounted is still due to fire |
| HooksTests.UnmountWithCleanupCancelsTimer | src/hooks.ts:128-130 | with the cleanup, the same sequence leaves nothing pending |
| HooksTests.ScaleFrameTestCase | src/__tests__/hooks.test.ts:13-32 | readings 1, 2, 4 give 1, 2, 2; after a reset 1 gives 1 |
| HooksTests.PanTranslationFrameTestCase | src/__tests__/hooks.test.ts:34-59 | a tracker made at (0, 0) returns deltas 1, 1, 1 for readings 1, 2, 3, and 1 for a reading of 1 after a reset to (0, 0) |
| HooksTests.SharedValueTestCase | src/__tests__/hooks.test.ts:61-77 | a cell made with 0 reads 0 on both sides, and 1 on both after both setters |
| CropBoxComponent.ClampedValues | src/components/cropbox/index.tsx:179-310 | every edge keeps the minimum size from its opposite edge and stays within the drag envelope; unlocked, the bounds are exactly the envelope and the opposite edge less the minimum; locked, they are also capped by the box resized at the initial aspect ratio |
| CropBoxComponent.ClampDiagnosticReachable | src/components/cropbox/index.tsx:241-250 | a locked top-right drag of a 100 x 100 box whose finger moves 100 to the left reaches the exact-zero width diagnostic |
| CropBoxComponent.Proposal | src/components/cropbox/index.tsx:312-680 | only the handle's edges move; unlocked, each moves by the frame delta on its axis; locked, the axis with the larger cumulative translation drives the other through the aspect ratio, with the sign flipped for top-right and bottom-left |
| CropBoxComponent.LockedCornerKeepsAspectRatio | src/components/cropbox/index.tsx:320-334 | one locked corner event keeps a box at the locked aspect ratio at it |
| CropBoxComponent.LockedDragKeepsAspectRatio | src/components/cropbox/index.tsx:320-358 | a whole locked corner drag keeps the box at the aspect ratio, whatever the finger does |
| CropBoxComponent.UnlockedDragAddsFrames | src/components/cropbox/index.tsx:330-358 | an unlocked drag moves each of the handle's edges by the sum of the frame deltas on its axis and leaves the others alone |
| CropBoxComponent.UnlockedDragFollowsFinger | src/components/cropbox/index.tsx:315-358 | with the deltas the pan tracker emits, each moving edge ends at its start plus the finger's last translation |
| CropBoxComponent.ClampedEdges | src/components/cropbox/index.tsx:337-364 | only the handle's edges move, each clamped into its bounds whenever they are non-empty |
| CropBoxComponent.CommitKeepsBoxInsideImage | src/components/cropbox/index.tsx:190-208 | an END commit keeps a box that was inside the envelope and at least the minimum size inside it and at least that size |
| CropBoxComponent.FindIndex | src/components/cropbox/index.tsx:912-934 | the first index of the handle (no earlier entry equals it), or -1 exactly when it is absent |
| CropBoxComponent.AllHandlersDistinct | src/components/cropbox/index.tsx:912-934 | the handler list has every handle once |
| CropBoxComponent.Enabled | src/components/cropbox/index.tsx:912-934 | a handle is enabled exactly when no handle is active or it is the active one |
| CropBoxComponent.OnlyActiveHandlerEnabled | src/components/cropbox/index.tsx:912-934 | while a handle is active it is the only one enabled |
| CropBoxComponent.CurrentBoxBounderies | src/components/cropbox/index.tsx:706-713 | the box's corner is its left / top edge and its far corner its right / bottom edge |
| CropBoxComponent.NextBoxBounderies | src/components/cropbox/index.tsx:715-749 | the box scaled by a factor until it fits, touching the container on one side and centred in it; its focal point is the old centre, and the similarity it announces takes each old edge to the new one |
| CropBoxComponent.SettledEdges | src/components/cropbox/index.tsx:776-804 | the settled edges, read back as a rectangle, are the settle's rectangle |
| CropBoxComponent.ClipToContainer | src/components/cropbox/index.tsx:102-109 | each side inside the container stays, each side outside it moves onto the container's edge |
| CropBoxComponent.ClipIsIdempotent | src/components/cropbox/index.tsx:102-109 | clipping twice clips once |
| CropBoxComponent.SettledBoxFitsContainer | src/components/cropbox/index.tsx:715-749 | a positive box settles inside the container with a positive factor and keeps its aspect ratio |
| CropBoxComponent.SettleIsIdempotent | src/components/cropbox/index.tsx:715-749 | a box that has just settled settles again with factor 1, no translation and at the same place |
| CropBoxComponent.CropBox.constructor | src/components/cropbox/index.tsx:63-168 | no handle active, aspect ratio 1, all edges and the envelope 0, no timer |
| CropBoxComponent.CropBox.SetImageLayout | src/components/cropbox/index.tsx:102-109 | the envelope becomes the given layout clipped to the container; nothing else changes |
| CropBoxComponent.CropBox.SetMovedValues | src/components/cropbox/index.tsx:353-358 | the handle's logical edges take the target, the animated edges stay |
| CropBoxComponent.CropBox.SetMovedAnimatedValues | src/components/cropbox/index.tsx:353-358 | the handle's animated edges take the target, the logical edges stay |
| CropBoxComponent.CropBox.SetAllEdges | src/components/cropbox/index.tsx:776-804 | all four edges take the target, logically and animated |
| CropBoxComponent.CropBox.ResetTo | src/components/cropbox/index.tsx:125-154 | both sides of all four edges are the given edges, the container is set, when locked the aspect ratio is width / height, the initial size is the box's, and the minimum size is recomputed |
| CropBoxComponent.CropBox.ScaleRectangleAndFitIntoPosition | src/components/cropbox/index.tsx:751-805 | announces `NextBoxBounderies` of the current box, and the edges become the settled box |
| CropBoxComponent.CropBox.UpdateCropperToFitInsideContainer | src/components/cropbox/index.tsx:113-124 | the container and the minimum size are replaced, then the box settles into the new container |
| CropBoxComponent.CropBox.HoldAnimations | src/components/cropbox/index.tsx:110-112 | the settle is pushed back: the old timer can no longer fire, and one is pending exactly when a function is stored |
| CropBoxComponent.CropBox.OnDragHandlerStart | src/components/cropbox/index.tsx:814-820 | the settle timer is cancelled |
| CropBoxComponent.CropBox.OnDragHandlerEnd | src/components/cropbox/index.tsx:822-833 | no handle active, returns the current box for the image, and the settle timer is pending |
| CropBoxComponent.CropBox.OnDragHandlerCanceled | src/components/cropbox/index.tsx:835-847 | no handle active; nothing else changes (also the failed case) |
| CropBoxComponent.CropBox.OnHandleGestureEvent | src/components/cropbox/index.tsx:312-680 | ACTIVE gives the animated edges the clamped proposal and the logical edges the unclamped one; END commits the clamped proposal, resets the tracker, returns the box and starts the settle timer; BEGAN makes the handle active and cancels the timer; CANCELLED and FAILED release the handle |
| CropBoxComponent.CropBox.OnTimerFired | src/components/cropbox/index.tsx:826-832 | a scheduled timer fires once: it returns the next box for the image, announces the settle, and the edges become the settled box; any other id changes nothing |
| ImageComponent.CenterImage | src/components/image/index.tsx:241-246 | the middle of the unscaled image |
| ImageComponent.ApparentX | src/components/image/index.tsx:332-343 | the image's left and right sides on screen are `ScreenPoint` of 0 and of the width, and they are width * scale apart |
| ImageComponent.ApparentY | src/components/image/index.tsx:318-330 | the same for top and bottom |
| ImageComponent.CropArea | src/components/image/index.tsx:147-162 | the crop area is the inverse transform of the crop box: `ScreenPoint` takes its corners onto the crop box's corners |
| ImageComponent.RecenteredAxis | src/components/image/index.tsx:268-314 | a side that starts after the box moves its start onto the box's start; else one that ends before the box moves its end onto the box's end; else the translation stays |
| ImageComponent.RecenteredValues | src/components/image/index.tsx:253-316 | the scale is min(maxScale, max(track, cover scale)), within [cover scale, maxScale] when that is non-empty; each axis is re-centred at that scale; the apparent edges are where the image then is |
| ImageComponent.RecenterCoversCropBox | src/components/image/index.tsx:253-316 | when the cover scale is at most `maxScale`, the re-centred image covers the crop box on all four sides |
| ImageComponent.PinchToZoomTargets | src/components/image/index.tsx:96-136 | the new scale is min(maxScale, track * settle factor) |
| ImageComponent.PinchToZoomFollowsCropBox | src/components/image/index.tsx:96-136 | below the cap, every image point moves as the settle moves the crop box: scaled about the focal point, then translated |
| ImageComponent.PinchToZoomTranslationIgnoresCap | src/components/image/index.tsx:96-136 | whatever the cap, the translation is the one that at the uncapped scale moves every image point as the settle moves the crop box; the cap limits only the scale |
| ImageComponent.PinchStep | src/components/image/index.tsx:192-234 | the scale track is min(max(track * ratio, cover scale - 0.2), maxScale); below the cap the translation moves the image's displayed centre as a zoom by the (unclamped) ratio about the focal point would; at the cap the translation does not move |
| ImageComponent.PinchKeepsFocalPointFixed | src/components/image/index.tsx:209-234 | within the bounds, the image point under the fingers' focal point stays there |
| ImageComponent.PinchAtFloorShiftsFocalPoint | src/components/image/index.tsx:211-227 | when the floor binds, the scale is the floor and the image point under the focal point ends away from it by (floor - unclamped scale) times its offset from the image's centre |
| ImageComponent.PinchAtFloorMovesFocalPoint | src/components/image/index.tsx:211-227 | a pinch to half size at the left edge of a 100 x 100 image held at scale 0.8 moves the image point under the focal point from 0 to -15 |
| ImageComponent.SimilarityKeepsCropArea | src/components/image/index.tsx:96-162 | moving the crop box and the image by the same uncapped similarity leaves the crop area unchanged |
| ImageComponent.SettleKeepsCropArea | src/components/image/index.tsx:96-162 | the crop box's settle and `pinchToZoom` with the same event leave the crop area unchanged, unless the scale is capped |
| ImageComponent.Image.constructor | src/components/image/index.tsx:52-91 | empty layouts, scale 1 and translation (0, 0) on both the animated value and the track, both decays ended |
| ImageComponent.Image.MoveTo | src/components/image/index.tsx:345-346 | the displayed translation is the value, and the decay record's listener copy follows it |
| ImageComponent.Image.SetCropboxLayout | src/components/image/index.tsx:93-95 | only the crop-box layout changes |
| ImageComponent.Image.ResetTo | src/components/image/index.tsx:137-146 | the layout, the translation and the scale are set exactly, on both the animated values and the tracks |
| ImageComponent.Image.GetCropArea | src/components/image/index.tsx:147-162 | the image points under the crop box's corners, at the current tracks |
| ImageComponent.Image.RecenterImage | src/components/image/index.tsx:417-472 | the scale and each chosen axis take the re-centred values; the apparent edges are returned; with both axes the image then covers the crop box |
| ImageComponent.Image.PanGestureEvent | src/components/image/index.tsx:165-190 | BEGAN stops the running decays (`stopAllAnimations`) and reports each axis whose decay was running; ACTIVE adds the frame delta to the translation and reports a move; END resets the tracker and starts both decays; the scale never changes |
| ImageComponent.Image.DecayImage | src/components/image/index.tsx:373-390 | both decays are marked running; nothing else changes |
| ImageComponent.Image.DecayFrame | src/components/image/index.tsx:345-371 | the listener records the value; a running axis whose apparent edge reached the crop edge stops, and its track takes the value |
| ImageComponent.Image.DecayEnd | src/components/image/index.tsx:390-415 | the axis's decay ends, its track takes the last value, and that axis is re-centred |
| ImageComponent.Image.PinchGestureEvent | src/components/image/index.tsx:192-239 | BEGAN stops the running decays (`stopAllAnimations`) and reports each axis whose decay was running; ACTIVE takes one `PinchStep` with the tracker's ratio and reports a move below the cap; END resets the tracker and re-centres both axes |
| ImageComponent.Image.PinchMove | src/components/image/index.tsx:205-234 | the tracker records the reading; the tracks take one `PinchStep` with the ratio to the previous reading; the displayed values follow, and a move is reported, exactly below the cap |
| ImageComponent.Image.PinchToZoom | src/components/image/index.tsx:96-136 | the tracks take `PinchToZoomTargets`, then both axes are re-centred; the image then covers the crop box when it can |
| CropperComponent.LockedAspectRatio | src/components/Cropper.tsx:264-266 | locked exactly when an aspect ratio is given (JavaScript truthiness) or the crop is round |
| CropperComponent.GetAspectRatio | src/components/Cropper.tsx:268-278 | round gives 1; else a numeric non-zero ratio wins; else the image's ratio; positive for a positive image ratio |
| CropperComponent.ChosenRatioPositive | src/components/Cropper.tsx:268-278 | for an admissible configuration and a positive image, the chosen aspect ratio is positive |
| CropperComponent.UnlockedUsesImageRatio | src/components/Cropper.tsx:264-278 | an unlocked cropper always uses the image's own ratio |
| CropperComponent.GetScaleMax | src/components/Cropper.tsx:280-285 | the prop when it lies in [3, 20], else 10; always within [3, 20] |
| CropperComponent.FittedAspectRectangle | src/components/Cropper.tsx:144-158 | the aspect-ratio rectangle, fitted into the container by `contain`, is positive, fits the container, touches it on one side and keeps the chosen aspect ratio |
| CropperComponent.InitialCropBox | src/components/Cropper.tsx:139-168 | a positive box at the chosen aspect ratio that fits the container, touches it on one side and is centred |
| CropperComponent.InitialImage | src/components/Cropper.tsx:179-208 | the image cover-fitted to the crop box: the source size times a positive scale, at least the box on both sides, equal on one, centred |
| CropperComponent.InitialImageContainsCropBox | src/components/Cropper.tsx:179-208 | the initial image rectangle contains the crop box |
| CropperComponent.ToImagePixels | src/components/Cropper.tsx:245-257 | scaling the emitted rectangle back by the original scale gives the crop area |
| CropperComponent.DoneAfterInitWithinImage | src/components/Cropper.tsx:139-257 | with no gesture after the initial layout, the emitted rectangle lies within the source image and is the crop box divided by the original scale |
| CropperComponent.SettleKeepsCoveredCropArea | src/components/Cropper.tsx:217-223 | when the image covers the crop box and the zoom is not capped, the settle and `pinchToZoom` keep the image covering the box, the re-centring changes nothing, and the crop area is unchanged |
| CropperComponent.SettledBoxMovesCropBox | src/components/cropbox/index.tsx:715-749 | the settle of a positive box is a similarity with a positive factor that takes the crop box's rectangle onto the positive settled box |
| CropperComponent.CoveredZoomNeedsNoRecenter | src/components/image/index.tsx:96-136 | for any uncapped similarity that moves the crop box, an image that covered the box still covers it after the zoom, is not moved by the re-centring, and shows the same crop area |
| CropperComponent.ZoomKeepsCover | src/components/image/index.tsx:96-136 | the zoom that follows the crop box keeps the image covering it |
| CropperComponent.RecenterOfCovering | src/components/image/index.tsx:253-316 | re-centring an image that covers the crop box at a scale within `maxScale` changes nothing |
| CropperComponent.Cropper.constructor | src/components/Cropper.tsx:89-101 | the children are configured from the props (locked aspect ratio, maximum scale); original scale 1; no layout seen |
| CropperComponent.Cropper.OnContainerLayout | src/components/Cropper.tsx:109-132 | only the first layout records the measures and starts the initial layout; a layout with both sides changed is a rotation and, once the children are mounted, settles the crop box into the new container with the image following it |
| CropperComponent.Cropper.InitCropper | src/components/Cropper.tsx:139-209 | the crop box and the image take the initial layout at scale 1 and agree on the crop box; the image covers it, and the emitted rectangle lies within the source image |
| CropperComponent.Cropper.OnFooterDone | src/components/Cropper.tsx:245-257 | once mounted, the emitted rectangle, scaled back by the original scale, is the image region under the crop box's corners |
| CropperComponent.Cropper.UpdateImageBounderies | src/components/Cropper.tsx:213-215 | the image learns the crop box's rectangle; its layout and tracks stay |
| CropperComponent.Cropper.UpdateImageZoomAndBounderis | src/components/Cropper.tsx:217-223 | the image learns the settled box, zooms with it and re-centres, and the crop box's envelope becomes the image's new apparent edges, clipped |
| CropperComponent.Cropper.UpdateCropboxLayoutBounderies | src/components/Cropper.tsx:225-228 | the crop box's envelope becomes the image's apparent edges, clipped to the container |
| CropperComponent.Cropper.OnCropBoxHandle | src/components/cropbox/index.tsx:912-934 | an event on a disabled handle changes nothing: the cropper, the image, the crop box, its edges, tracker and timer are all unchanged; a release on an enabled one leaves the image knowing the box and the settle pending |
| CropperComponent.Cropper.SettleImage | src/components/Cropper.tsx:213-223 | the image learns the settled box and zooms with it; when the image covered its box and the settle moves that box onto the settled one without capping, the image still covers the box and the emitted rectangle is unchanged |
| CropperComponent.Cropper.OnSettleTimer | src/components/Cropper.tsx:217-223 | the box settles and the image follows; while the image covered the box and the zoom is not capped, it still covers it and the emitted rectangle is unchanged |
| CropperComponent.Cropper.OnImageMove | src/components/Cropper.tsx:310 | the crop box's pending settle is pushed back: the old timer can no longer fire, and a new one is pending exactly when a settle function is stored |
| CropperComponent.Cropper.OnImagePan | src/components/image/index.tsx:165-190 | a pan move pushes the settle back (the old timer can no longer fire; a new one is pending exactly when a settle function is stored); other events leave the timer as it was; the crop box's edges and envelope are untouched |
| CropperComponent.Cropper.OnImagePinch | src/components/image/index.tsx:192-239 | a pinch release hands the re-centred apparent edges to the crop box as its envelope; a pinch move below the cap pushes the settle back (the old timer can no longer fire, a new one is pending exactly when a settle function is stored), while at the cap and on other events the timer is left as it was; the crop box's edges are untouched |
| CropperComponent.Cropper.OnImageDecayFrame | src/components/image/index.tsx:345-371 | the displayed translation is the frame's value; each stopped axis's track takes it |
| CropperComponent.Cropper.OnImageDecayEnd | src/components/image/index.tsx:390-415 | the axis is re-centred and the crop box's envelope becomes the new apparent edges, clipped |

## Left out

- Rendering, styles, hit slops, the grid and backdrop animations, the indicators and the overlay: presentation with no state the geometry reads.
- Animation physics: easing, durations and the decay trajectory with deceleration 0.994. An animation is its completion. A decay is its stop test on the frames the host delivers, plus its completion.
- Interleaving: a gesture that arrives while an animation is still running is not modelled. The model applies each completion at once.
- `useGestureEvent`: it only forwards each event to the handler, and the host calls the handlers directly here.
- Platform queries (`Dimensions`, `getStatusBarHeight`, `isIphoneX`, `measureInWindow`) and `getImageSize`: their results are parameters. `Cropper.OnContainerLayout` returns whether the host should start the initial layout, and the host calls `Cropper.InitCropper` when the image size arrives.
- The order in which the asynchronous image size and the children's mounting resolve: `Cropper.InitCropper` requires the children to be mounted.
- `onFooterReset` re-measures the container and runs `initCropper` again. In the model that is another call of `Cropper.InitCropper`. The footer's flags and the `onReset`, `onCancel` and `onDone` callbacks are UI and are not modelled; `onFooterDone` returns its rectangle instead.
- Floating point: the arithmetic is exact. Where the source would divide by 0 and produce NaN or Infinity, the model requires a non-zero divisor instead. This covers a zero-sized box, image or crop box, a zero aspect ratio and a zero pinch reading. It also covers a landscape screen whose height plus status bar is 0.
- `CropperComponent.Config.Admissible`: a negative numeric aspect ratio is excluded. It gives a box with a negative side.
- `CropperComponent.Cropper.OnContainerLayout`: a rotation before the initial layout has finished would settle a zero-sized box; the model requires the layout to have finished.
- `ImageComponent.Image.RecenterImage`: an axis that is not chosen keeps its translation. The apparent edges that are returned are still computed, as written, at the new scale and at the RE-CENTRED translation of both axes. So after a one-axis re-centre (`DecayEnd`), the crop box's drag envelope places the axis that was not chosen where it would be if re-centred, not where the image actually is.
- `CropperComponent.InitialImageContainsCropBox` and `CropperComponent.DoneAfterInitWithinImage` are stated for any positive crop box centred in the container, which is what `InitialCropBox` produces. Stating them on `InitialCropBox` directly nests two fits, which the verifier cannot discharge quickly.
- `CropperComponent.Cropper.OnSettleTimer`: the crop is kept only while the zoom is uncapped. Once `maxScale` caps the zoom, the image no longer follows the box exactly, and the crop area changes.
- `CropperComponent.Cropper.OnCropBoxHandle`: the handles the source does not render when the aspect ratio is locked (the four bars) are excluded by its precondition.

Behaviour of the code a reader may not expect, which the model follows:
- `getNextBoxBounderies` fits the box with `resize`'s default mode, `contain`.
- `createAspectRatioRectangle` bounds only the width, so the box can be taller than the area it was made for.
- `getscaleMax` accepts values up to `maximumAvailableScale` = 20 (src/config.ts:13). The prop's own comment (src/components/Cropper.tsx:64-66) and its type `ScaleRange` (src/types.ts:105) both stop at 15.

## Findings

| source | as written | input that shows it | evidently intended | confidence | as-written member | corrected member |
|---|---|---|---|---|---|---|
| src/hooks.ts:128-130 | the effect's body is the expression statement `() => clearTimer()`, so nothing is returned and no cleanup runs on unmount | start the settle timer (release a crop-box handle), then unmount the cropper: the timer still fires | the effect returns `() => clearTimer()`, so unmounting cancels the pending timer | not executed | HooksTests.UnmountLeavesTimerPending | HooksTests.UnmountWithCleanupCancelsTimer |
