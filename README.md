# PhotoViewer core, modelled in Dafny

PhotoViewer is a small SDL image viewer. It opens one image and shows it in a
resizable window. The image is fitted to the window, zoomed with the mouse
wheel, and panned by dragging. Once per frame, the viewer clamps the zoom and
the offsets. The image is never shown below the smaller of two sizes: its
natural size, and the size at which it fits the window. The offset
clamp's bound is meant to keep an image larger than the window covering it.
The drawn image can fall half a pixel short of that, because it is centred on
the integer window centre (see "## Findings"). This project models that core:

- `timing.dfy` (`Timing`) models the frame-time meter `fpsMeter_t`. It is a
  class over a fixed-size history array. Ticking shifts the array one place
  and appends the newest frame time. The contracts tie the array to the
  functions `Shift`, `Sum` and `Mean`, and the lemmas describe the window
  of the last `n` frame times.
- `sdl.dfy` (`Sdl`) holds the parts of SDL that the core calls: surfaces,
  a renderer with a maximum texture size, and textures. Image decoding is a
  lookup in a `Disk` map from paths to image sizes. It fails when the path is
  missing. Texture upload fails in two cases: the surface has a zero side,
  or it exceeds the renderer's maximum texture size.
- `imagehandle.dfy` (`ImageHandle`) models `imagedata_t`. It is a class with
  a path, an optional cached surface and an optional cached texture. Both are
  loaded lazily, at most once. An empty path is reported as an error, and so
  is a failed load or upload.
- `viewtransform.dfy` (`ViewTransform`) holds the pure view arithmetic:
  - the zoom limit, proved to be the largest zoom at which the image fits the
    window without being enlarged past its natural size
  - the zoom clamp and the offset clamp, with their fixed points and
    idempotence
  - the reset, proved equal to the zoom limit
  - the wheel step and the drag
  - the draw origin
- `viewer.dfy` (`Viewer`) models the state that `main` mutates, as the class
  `View` with fields `zoom`, `offX` and `offY`. Its methods are the reset
  lambda, the event loop, and the per-frame clamp. Each is proved against
  the functions of `ViewTransform`.

`double` is modelled as `real`: every operation is exact. Window and image
sizes are the integers SDL reports, held as reals in `Sizes`.

## Model

| member | source | states |
|---|---|---|
| Timing.Zeros | PhotoViewer/src/lib/fpsMeter.h:31-33 | the history the meter starts with: `n` entries, all zero |
| Timing.Shift | PhotoViewer/src/lib/fpsMeter.h:13-16 | one tick moves every entry one place towards the front, drops the oldest and puts the new frame time last; the length is kept |
| Timing.Sum | PhotoViewer/src/lib/fpsMeter.h:24 | the left-to-right total that `std::accumulate` computes; it is never negative when no duration is |
| Timing.Mean | PhotoViewer/src/lib/fpsMeter.h:23-25 | the average over every slot: times the slot count it gives back the total; it is never negative when no duration is |
| Timing.Replay | PhotoViewer/src/lib/fpsMeter.h:9-17 | a run of ticks keeps the history length |
| Timing.ReplaySnoc | PhotoViewer/src/lib/fpsMeter.h:9-17 | one more tick after a run of ticks is one more `Shift` of the history the run left, so a loop of `Tick` calls follows `Replay` |
| Timing.ReplayWindow | PhotoViewer/src/lib/fpsMeter.h:9-17 | after a run of ticks the history is the last `n` entries of the old history followed by the new frame times |
| Timing.FreshHistory | PhotoViewer/src/lib/fpsMeter.h:9-17 | from a fresh meter, after `k <= n` ticks the history is `n-k` zeros followed by the `k` frame times in order |
| Timing.FullHistory | PhotoViewer/src/lib/fpsMeter.h:9-17 | after at least `n` ticks the history is exactly the last `n` frame times |
| Timing.SumZeros | PhotoViewer/src/lib/fpsMeter.h:23-25 | a fresh history sums to zero |
| Timing.SumAppend | PhotoViewer/src/lib/fpsMeter.h:23-25 | the sum `std::accumulate` computes splits over a concatenation |
| Timing.SumShift | PhotoViewer/src/lib/fpsMeter.h:9-17 | a tick changes the sum by the new frame time minus the dropped oldest one |
| Timing.FreshSum | PhotoViewer/src/lib/fpsMeter.h:23-25 | before the history fills, the history's total is the total of the frame times so far; the zeros add nothing |
| Timing.FreshMean | PhotoViewer/src/lib/fpsMeter.h:23-25 | before the history fills, the average is the sum of the frame times so far divided by the full history size `n`, not by the number of ticks |
| Timing.FpsMeter.constructor | PhotoViewer/src/lib/fpsMeter.h:31-33 | a new meter has a zero history of the given size and a zero last time point |
| Timing.FpsMeter.Default | PhotoViewer/src/main.cpp:16 | the meter the viewer declares has the default capacity of 10 slots, all zero, and a zero last time point |
| Timing.FpsMeter.Tick | PhotoViewer/src/lib/fpsMeter.h:9-17 | the array becomes `Shift` of the old array with frame time `now - last`, and `last` becomes `now` |
| Timing.FpsMeter.Delta | PhotoViewer/src/lib/fpsMeter.h:19-21 | returns the most recent frame time, which is the last history entry |
| Timing.FpsMeter.DeltaAvg | PhotoViewer/src/lib/fpsMeter.h:23-25 | returns the sum of the whole history divided by its size |
| Timing.FpsMeter.Fps | PhotoViewer/src/lib/fpsMeter.h:27-29 | is the reciprocal of the average frame time; it is absent exactly when the history sums to zero; it is positive when no duration is negative |
| Sdl.LoadImage | PhotoViewer/src/imagedata.h:20 | decoding succeeds exactly when the path exists; on success it gives a fresh surface with that image's size |
| Sdl.CreateTexture | PhotoViewer/src/imagedata.h:28 | the upload succeeds exactly when the renderer accepts the surface's size; on success it gives a fresh texture of the surface's size, owned by that renderer |
| ImageHandle.ImageData.constructor | PhotoViewer/src/imagedata.h:36 | a default handle has an empty path and nothing cached |
| ImageHandle.ImageData.FromPath | PhotoViewer/src/imagedata.h:35 | a handle made from a path holds that path and nothing cached |
| ImageHandle.ImageData.Assign | PhotoViewer/src/main.cpp:18-22 | assigning a path replaces the handle: the new path, with no surface or texture |
| ImageHandle.ImageData.GetPath | PhotoViewer/src/imagedata.h:10-13 | fails with "Image is empty" exactly when the path is empty; otherwise returns the path; it succeeds exactly when `HasImage` holds |
| ImageHandle.ImageData.IsEmpty | PhotoViewer/src/imagedata.h:15 | holds exactly when the path is empty; the contract repeats the one-line body, and `GetPath` is its partner |
| ImageHandle.ImageData.HasImage | PhotoViewer/src/imagedata.h:16 | the handle's truth value is the negation of `IsEmpty`; the contract repeats the one-line body, and `GetPath` succeeds exactly when it holds |
| ImageHandle.ImageData.GetSurface | PhotoViewer/src/imagedata.h:18-24 | a cached surface is returned as it is, with no load; otherwise an empty path fails with "Image is empty" and a decode succeeds exactly when the path exists, and the fresh surface is cached |
| ImageHandle.ImageData.GetTexture | PhotoViewer/src/imagedata.h:26-31 | a cached texture is returned whatever renderer is passed; otherwise the surface is loaded first, and a newly decoded surface is fresh with the size recorded for the path; the upload succeeds exactly when a surface is loaded and the renderer accepts it; the fresh texture is cached and has the surface's size; a failed upload keeps the loaded surface |
| ViewTransform.FitScale | PhotoViewer/src/main.cpp:91-94 | the scale at which an image side spans the window side exactly; it is never negative |
| ViewTransform.FitScaleReciprocal | PhotoViewer/src/main.cpp:92-93 | the source expression `1.0 / (image / window)` is that scale, and it is 0 for a zero-size window |
| ViewTransform.ZoomLimit | PhotoViewer/src/main.cpp:91-94 | the limit lies in `[0, 1]` and the image fits the window at it |
| ViewTransform.ZoomLimitIsLargestFit | PhotoViewer/src/main.cpp:91-94 | a zoom fits the window on both axes and is at most natural size exactly when it does not exceed the limit |
| ViewTransform.ZoomLimitNaturalSize | PhotoViewer/src/main.cpp:91-94 | the limit is 1 exactly when the image fits the window unscaled |
| ViewTransform.ClampZoom | PhotoViewer/src/main.cpp:96 | the zoom is raised to the limit when it is below it and otherwise kept; the result is never below either |
| ViewTransform.ClampOffset | PhotoViewer/src/main.cpp:102-112 | the result is 0 where the scaled image fits the axis; otherwise it lies within half the overhang on either side; an acceptable offset is kept and one beyond the bound saturates at it |
| ViewTransform.ClampOffsetIdempotent | PhotoViewer/src/main.cpp:102-112 | clamping a clamped offset again changes nothing |
| ViewTransform.ClampAxis | PhotoViewer/src/main.cpp:98-112 | the clamped offset is in range for the image at the given zoom, and an offset already in range is kept |
| ViewTransform.ClampFrame | PhotoViewer/src/main.cpp:91-112 | after the per-frame clamp the view is in view: the zoom is at least the limit and both offsets are in range at the new zoom |
| ViewTransform.ClampFrameFixedPoints | PhotoViewer/src/main.cpp:96-112 | the clamp leaves a view unchanged exactly when it is already in view |
| ViewTransform.ClampFrameIdempotent | PhotoViewer/src/main.cpp:96-112 | clamping twice in a row is clamping once |
| ViewTransform.Shrink | PhotoViewer/src/main.cpp:39-45 | one reset step: if the image overflows the window side, the zoom drops to the scale that spans it exactly; otherwise it is kept |
| ViewTransform.Reset | PhotoViewer/src/main.cpp:32-46 | a reset view has both offsets 0 |
| ViewTransform.TightFitIsLimit | PhotoViewer/src/main.cpp:32-46 | a fitting zoom that is tight on natural size, on the width or on the height is the zoom limit |
| ViewTransform.ResetFitsTightly | PhotoViewer/src/main.cpp:32-46 | the reset zoom fits the window and is tight on one of those constraints |
| ViewTransform.ResetIsZoomLimit | PhotoViewer/src/main.cpp:32-46 | the reset zoom equals the per-frame zoom limit, so the reset view is in view and the next clamp leaves it unchanged |
| ViewTransform.Scroll | PhotoViewer/src/main.cpp:60-64 | a wheel step of `s` notches scales the zoom by `1 + 0.1*s`; zero notches keep it; a positive zoom stays positive exactly when `s > -10` |
| ViewTransform.Pan | PhotoViewer/src/main.cpp:66-71 | a drag moves the offsets by the motion and keeps the zoom |
| ViewTransform.PanUndo | PhotoViewer/src/main.cpp:66-71 | dragging back by the opposite motion restores the view |
| ViewTransform.DrawOrigin | PhotoViewer/src/main.cpp:83 | the draw origin as written: equal to the exactly centred origin for an even window size, half a pixel before it for an odd one |
| ViewTransform.DrawOriginLeadingEdge | PhotoViewer/src/main.cpp:83 | with a clamped offset and an image wider than the window, the image's leading edge never enters the window, and its trailing edge ends at most half a pixel short of the window edge |
| ViewTransform.DrawOriginTrailingGap | PhotoViewer/src/main.cpp:114-116 | for a 101-pixel window, a 200-pixel image and the offset at the clamp bound, the drawn image ends at 100.5, inside the window |
| ViewTransform.CenteredDrawOrigin | PhotoViewer/src/main.cpp:114-116 | the corrected draw origin: the image's centre sits `off` pixels from the exact window centre, and with no offset the margins on both sides are equal |
| ViewTransform.CenteredDrawOriginCovers | PhotoViewer/src/main.cpp:114-116 | with the exact window centre, a clamped image larger than the window covers it edge to edge, and one that fits lies wholly inside it |
| Viewer.InitialWindowSize | PhotoViewer/src/main.cpp:24-27 | the initial window is at least 200 pixels on each side and at least the image's size, and it equals one of the two |
| Viewer.Dispatch | PhotoViewer/src/main.cpp:51-74 | the event loop as a function: wheel events scale the zoom, drags pan, a close stops processing; it reports a close exactly when a close event is queued |
| Viewer.DispatchStopsAtClose | PhotoViewer/src/main.cpp:53-57 | a close ends the event loop: events queued after it change nothing, and the view is the one the events before it produced |
| Viewer.DispatchKeepsZoom | PhotoViewer/src/main.cpp:53-73 | events other than wheel steps leave the zoom unchanged |
| Viewer.View.constructor | PhotoViewer/src/main.cpp:29-30 | the view starts at zoom 1 with both offsets 0 |
| Viewer.View.Reset | PhotoViewer/src/main.cpp:32-46 | after a reset the view is the reset transform: the zoom limit with both offsets 0; it is in view |
| Viewer.View.Scroll | PhotoViewer/src/main.cpp:60-64 | a wheel event sets the zoom to `Scroll` of the old zoom and keeps the offsets |
| Viewer.View.Drag | PhotoViewer/src/main.cpp:66-71 | a drag sets the view to `Pan` of the old view |
| Viewer.View.HandleEvents | PhotoViewer/src/main.cpp:51-74 | draining the queue leaves the view and the close flag as `Dispatch` gives them; events after a close are not processed |
| Viewer.View.Clamp | PhotoViewer/src/main.cpp:91-112 | the per-frame clamp, computed with the source's own zoom-limit expression, sets the view to `ClampFrame` of the old view at `ZoomLimit`; the result is in view |

## Left out

- Pixels are not modelled: clearing, copying the texture to the screen, and presenting the frame (`main.cpp` lines 80-81 and 118-128).
- Releasing surfaces, textures, the window and the renderer is not modelled. Objects are garbage collected in Dafny, and the unique-pointer deleters have no observable effect on the model.
- Timing.FpsMeter.Fps: returns `None` where the source divides by a zero average and gets an infinity or a NaN.
- Timing.FpsMeter.Tick: takes the clock reading `now` as a parameter instead of reading `high_resolution_clock`. The meter's zero time point is modelled as `0.0`.
- The frame pacing with `SDL_Delay`, the use of the meter in the main loop, and the window title string are left out. They are plain I/O with no state the model keeps.
- `floor` and the `int` casts that build the draw rectangle are left out. `DrawOrigin` stops at the `double` value before rounding.
- `double` arithmetic is modelled as exact `real` arithmetic. Rounding, overflow and NaN are not modelled. A zero-size window gives an infinite `iWidth / width` in IEEE arithmetic, and `1.0 / inf` is 0. The model writes that 0 out explicitly.
- The drag test `SDL_GetMouseState(nullptr, nullptr) && SDL_BUTTON(1)` is not modelled: a `MouseDrag` event is a motion that the viewer accepts. As written, the test accepts a motion while any button is held, because it combines the masks with `&&`.
- Choosing the start path from `argv` and the error dialog in the `catch` handler are left out. The model starts from the path that `Assign` is given.
- Creating the window and the renderer, and errors from SDL calls other than decoding and texture upload, are left out.
- Sdl.CreateTexture: only two failures are modelled: a surface with a zero side, and a surface that exceeds the renderer's maximum texture size. Out-of-memory and driver errors are not modelled.
- Sdl.LoadImage: decoding is a lookup in a map from paths to image sizes. File formats and corrupt files are not modelled, beyond failing when the path is missing.
- The code does not reset the view when the window is resized. The per-frame clamp alone handles a resize, and the model follows the code.
- There is no 20× zoom cap and no navigation to other files in the same directory. Neither appears in this code.

## Findings

| source | as written | input that shows it | evidently intended | confidence | as-written member | corrected member |
|---|---|---|---|---|---|---|
| PhotoViewer/src/main.cpp:83 | The window centre is `width / 2` in integer division, but the offset clamp at lines 102-112 uses the exact centre `(double)width / 2`. For an odd window size, an image clamped to its bound stops half a pixel short of the window's trailing edge. | A window 101 pixels wide, an image 200 pixels wide at the zoom, and `offX = -49.5` (the clamp's lower bound). The image's right edge is at 100.5, not 101. | Centre the image on the same exact centre the clamp uses, so a clamped image larger than the window covers it edge to edge. | not executed | ViewTransform.DrawOriginTrailingGap | ViewTransform.CenteredDrawOriginCovers |
