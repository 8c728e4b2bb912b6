# Mandelbrot viewer: escape-time engine, HSV colouring and viewport state

The viewer renders the Mandelbrot set onto an HTML canvas. A Rust module
compiled to WebAssembly does the rendering. For every pixel it samples a
point c of the complex plane and iterates z := z * z + c from 0. It stops
when |z| exceeds 2, or after 100 steps (`MAX_ITERS`), and maps the step
count to a hue. It converts that HSV colour to RGB and pushes four RGBA
bytes per pixel into a flat, row-major buffer. A TypeScript page script
keeps the visible window of the plane (`xMin`, `xMax`, `yMin`, `yMax`). It
also tracks a mouse drag that selects a new window, optionally locked to
the canvas's aspect ratio while shift is held, and a `loading` flag that
guards the redraw.

The project has three modules:

- `Color` (color.dfy) is `ColorHSV::to_rgb`. Rust's `as u8` (truncating,
  saturating), the `f64` remainder `%` (fmod) and the wrapping `u8` addition
  are written out. An independent closed-form HSV to RGB formula serves as
  a reference for the conversion.
- `Engine` (engine.dfy) models three functions:
  - `calc_mb_iters`, as a method with its `while` loop, proved against the
    orbit function `Orbit` and the stopping point `EscapeCount`;
  - `get_mb_color_hsv`;
  - the nested loops of `draw_mandelbrot`, as methods that append to a byte
    sequence, proved against the specification function `Image`.
- `Viewport` (viewport.dfy) is the page state: a class `Viewer` whose
  fields are the variables the handlers capture. Its methods are `Draw`,
  `MouseDown`, `OnHold` and `MouseUp`, and its constructor is `main`'s
  initialisation and first draw. The pure parts are functions:
  - the screen-to-plane map;
  - the aspect lock, as the offsets `LockedDrag` it leaves between drag
    start and end;
  - the bound ordering `Span`.

Floating-point numbers (`f64`, `number`) are modelled as exact reals. The
test `z.norm() <= 2.0` is modelled as `re * re + im * im <= 4`. The
smoothing term `log10(log2(|z|))` of the escaped result is a function
parameter `smooth`, applied to the squared modulus.

Two behaviours of the code are worth stating precisely:

- On a 4 by 4 grid over [-2, 1] x [-1, 1], pixel (3, 3) samples
  (0.25, 0.5), not (0.25, 0.25) (`Engine.FourByFourSamples`).
- After a mouse-up the window satisfies `xMin <= xMax` and `yMin <= yMax`.
  The inequality is strict exactly when the two converted coordinates
  differ (`Viewport.Span`). A drag of zero extent on an axis leaves that
  axis with zero width, so a strictly ordered window is not an invariant
  of the code.
- A shift drag along one axis only, for example straight down, is cut by
  the aspect lock to a box of zero size (`Viewport.AxisLockCollapses`):
  with no width, the height is cut to 0 as well. The following mouse-up then
  sets `xMin == xMax` and `yMin == yMax`. The collapse is permanent. Over
  a window of zero extent the screen-to-plane map is constant
  (`Viewport.CollapsedAxisStays`), so every later selection yields the
  same single point.

## Model

| member | source | states |
|---|---|---|
| Color.K | rs/src/color.rs:16 | k = 255 v, the unrounded brightest level; bounded by `LevelsInRange` |
| Color.M | rs/src/color.rs:17 | m = k (1 - s), the unrounded darkest level; bounded by `LevelsInRange` |
| Color.Z | rs/src/color.rs:18 | z = (k - m) times the hue weight, the unrounded hue part; bounded by `HuePartInRange` |
| Color.Top | rs/src/color.rs:20 | the byte x = k as u8; 255 v rounded down by `TopApproximates` |
| Color.Middle | rs/src/color.rs:21 | the byte y = z as u8 + m as u8; no wrap by `MiddleDoesNotOverflow`, value by `MiddleApproximates` |
| Color.Bottom | rs/src/color.rs:22 | the byte z' = m as u8; 255 (v - v s) rounded down by `BottomApproximates` |
| Color.Arrange | rs/src/color.rs:23-35 | the if-chain on the hue; its branch table is `ArrangeBySextant` and its permutation property `ArrangePermutes` |
| Color.ToRgb | rs/src/color.rs:15-36 | `ColorHSV::to_rgb`; a permutation of its three levels by `ToRgbPermutes`, and within 2 of the closed-form HSV formula by `ToRgbApproximatesReference` |
| Color.AsU8 | rs/src/color.rs:20-22 | `as u8` on an `f64`: truncation toward zero in [0, 256), 0 below 0, 255 from 256 up |
| Color.RemTwo | rs/src/color.rs:18 | the `f64` remainder by 2 has the dividend's sign and lies in [0, 2) or (-2, 0] |
| Color.WrappingAdd | rs/src/color.rs:21 | `u8` addition: the plain sum below 256, the sum less 256 otherwise |
| Color.HueFactor | rs/src/color.rs:18 | the hue weight `1 - abs((h/60) % 2 - 1)` lies in [0, 1] for a non-negative hue and is at most 0 for a negative one |
| Color.Sextant | rs/src/color.rs:23-35 | the sextant index chosen by the if-chain is at most 5 and brackets the hue between 60 i and 60 (i + 1), with 300 and up, 360 included, in the last one |
| Color.ArrangeBySextant | rs/src/color.rs:23-35 | the channel order output in each of the six hue ranges: (x, y, z'), (y, x, z'), (z', x, y), (z', y, x), (y, z', x), (x, z', y) |
| Color.ArrangePermutes | rs/src/color.rs:23-35 | every branch outputs a permutation of x, y and z' (equal multisets) |
| Color.ToRgbPermutes | rs/src/color.rs:20-35 | `to_rgb` outputs a permutation of trunc(k), trunc(z) + trunc(m) and trunc(m) |
| Color.BlackWhenValueZero | rs/src/color.rs:16-22 | v = 0 gives (0, 0, 0) for every hue and saturation |
| Color.LevelsInRange | rs/src/color.rs:16-17 | for s and v in [0, 1]: 0 <= m <= k <= 255, and k - m = 255 v s |
| Color.HuePartInRange | rs/src/color.rs:18 | for a non-negative hue: 0 <= z <= k - m |
| Color.MiddleDoesNotOverflow | rs/src/color.rs:21 | for s and v in [0, 1] and any hue, trunc(z) + trunc(m) <= 255, so the `u8` addition does not wrap |
| Color.SaturatedHasZeroChannel | rs/src/color.rs:16-22 | s = 1 puts a 0 among the channels, and s = v = 1 puts a 255 among them too |
| Color.FullColorLevels | rs/src/color.rs:16-22 | at s = v = 1 the three levels are 255, 0 and trunc(255 times the hue weight) |
| Color.PrimaryHues | rs/src/color.rs:15-36 | hues 0, 60, 120 and 240 at full saturation and value give red, yellow, green and blue; hue 360 gives red again |
| Color.HueFactorIsRamp | rs/src/color.rs:18 | on [0, 360] the hue weight is the triangle wave rising on even sextants and falling on odd ones |
| Color.TopApproximates | rs/src/color.rs:16-20 | the brightest level is 255 v rounded down |
| Color.BottomApproximates | rs/src/color.rs:16-22 | the darkest level is 255 (v - v s) rounded down |
| Color.MiddleLevel | rs/src/color.rs:16-18 | before truncation, z + m is 255 times v darkened by 1 - ramp(h) |
| Color.MiddleApproximates | rs/src/color.rs:16-21 | the middle level is that value rounded down, less at most one more unit |
| Color.ReferenceInSextant | rs/src/color.rs:23-35 | the reference formula puts the same three levels in the same channel order per sextant as the if-chain |
| Color.ToRgbApproximatesReference | rs/src/color.rs:15-36 | for h in [0, 360] and s, v in [0, 1], each output byte is within 2 below 255 times the reference channel (red, green, blue) |
| Engine.Orbit | rs/src/lib.rs:38-41 | the value of z after k passes of the loop body; its values are tied to the loop by the invariant of `CalcMbIters` |
| Engine.InDiscAt | rs/src/lib.rs:40 | the loop test `z.norm() <= 2.0` at step k, as the squared modulus <= 4 |
| Engine.Iters | rs/src/lib.rs:44-47 | the result of `calc_mb_iters`; computed by `CalcMbIters`, characterised by `CappedIffInterior` and `ZeroIsInterior` |
| Engine.StopFrom | rs/src/lib.rs:40-43 | the loop's stopping step from step k on: no later than 100; every earlier point is in the disc; below 100 the point there is outside it |
| Engine.EscapeCount | rs/src/lib.rs:38-43 | the loop counter on exit is at most 100, every point before it passes the test abs(z) <= 2, and below 100 the point at it fails the test |
| Engine.StopFromIs | rs/src/lib.rs:40-43 | any step with the exit properties is the stopping step (uniqueness) |
| Engine.EscapeCountIs | rs/src/lib.rs:40-43 | any n with the exit properties is the exit count |
| Engine.CalcMbIters | rs/src/lib.rs:35-48 | the loop body runs exactly EscapeCount(c) <= 100 times (a ghost count of its passes); the result is 100 when the counter reaches the cap, and otherwise n + 1 - smooth(q), with q the squared modulus of the exit point |
| Engine.OrbitOfZero | rs/src/lib.rs:38-41 | for c = 0, z stays 0 at every step |
| Engine.ZeroIsInterior | rs/src/lib.rs:38-46 | for c = 0 the loop runs to 100 and the result is 100.0 |
| Engine.OrbitOfTwo | rs/src/lib.rs:38-41 | for c = 2 the orbit is 0, 2, 6 |
| Engine.RealTwoStopsAtTwo | rs/src/lib.rs:40-43 | for c = 2 the loop exits with n = 2 |
| Engine.FarPointStopsAtOne | rs/src/lib.rs:40-43 | a c outside the disc of radius 2 exits with n = 1 |
| Engine.CappedIffInterior | rs/src/lib.rs:44-47 | with the smoothing term positive outside the disc, the result is 100 exactly when the counter reached the cap, and below 100 otherwise |
| Engine.MbColorHsv | rs/src/lib.rs:50-58 | `get_mb_color_hsv`; its shape (saturation, hue, value) is `MbColorHsvShape` |
| Engine.MbColorHsvShape | rs/src/lib.rs:53-57 | s = 1; h = 3.6 iters, in [0, 360] for iters in [0, 100]; v = 0 exactly when iters >= 100 and v = 1 exactly when iters < 100 |
| Engine.InteriorIsBlack | rs/src/lib.rs:76-77 | a point that reaches the cap is painted (0, 0, 0) |
| Engine.EscapedIsSaturated | rs/src/lib.rs:76-77 | a point that escapes is painted with one channel 0 and one channel 255 |
| Engine.SampleX | rs/src/lib.rs:74 | the abscissa sampled by column j; `FirstSampleIsCorner`, `SamplesInWindow` and `SampleXIncreasing` state where it lies |
| Engine.SampleY | rs/src/lib.rs:75 | the ordinate sampled by row i; `FirstSampleIsCorner` and `SamplesInWindow` state where it lies |
| Engine.PixelColor | rs/src/lib.rs:74-77 | the colour of pixel (j, i); computed by `ShadePixel`, placed in the buffer by `PixelLayout`, black or saturated by `InteriorIsBlack` and `EscapedIsSaturated` |
| Engine.PixelBytes | rs/src/lib.rs:79-82 | four bytes per pixel, the last one 255 |
| Engine.RowBytes | rs/src/lib.rs:73-83 | the first j pixels of a row take 4 j bytes |
| Engine.RowsBytes | rs/src/lib.rs:72-84 | the first i rows of `width` pixels take 4 i width bytes |
| Engine.Image | rs/src/lib.rs:71-84 | the buffer of a frame holds 4 height width bytes |
| Engine.ShadePixel | rs/src/lib.rs:74-77 | sampling, iterating and colouring pixel (j, i) gives the colour that the image specification assigns to it |
| Engine.DrawRow | rs/src/lib.rs:73-83 | the inner loop appends exactly the bytes of row i, pixel by pixel, to what was pushed before |
| Engine.DrawMandelbrot | rs/src/lib.rs:71-84 | the nested loops build exactly the image of the frame, width height 4 bytes long |
| Engine.EmptyGridEmptyImage | rs/src/lib.rs:71-84 | a width or height of 0 gives an empty buffer |
| Engine.FourByFourSize | rs/src/lib.rs:71-84 | a 4 by 4 grid gives 64 bytes |
| Engine.RowBytesPrefix | rs/src/lib.rs:79-82 | pushing more pixels of a row only appends: earlier bytes are never changed |
| Engine.RowsBytesPrefix | rs/src/lib.rs:72-84 | pushing more rows only appends |
| Engine.RowLayout | rs/src/lib.rs:73-83 | byte k of pixel j of a row sits at 4 j + k |
| Engine.GridLayout | rs/src/lib.rs:72-83 | for any pixel colouring, byte k of pixel (j, i) sits at 4 (i width + j) + k, inside the buffer |
| Engine.PixelLayout | rs/src/lib.rs:72-83 | in the image, byte k of pixel (j, i) sits at 4 (i width + j) + k and is channel k of that pixel's colour |
| Engine.PixelIsOpaque | rs/src/lib.rs:82 | the fourth byte of every pixel is 255 |
| Engine.FirstSampleIsCorner | rs/src/lib.rs:74-75 | pixel (0, 0) samples (x_min, y_min) |
| Engine.SamplesInWindow | rs/src/lib.rs:74-75 | for a non-degenerate window every sample lies in [x_min, x_max) x [y_min, y_max); the far edges are never reached |
| Engine.SampleXIncreasing | rs/src/lib.rs:74 | samples strictly increase along a row |
| Engine.FourByFourSamples | rs/src/lib.rs:74-75 | on a 4 by 4 grid over [-2, 1] x [-1, 1], pixel (0, 0) samples (-2, -1) and pixel (3, 3) samples (0.25, 0.5) |
| Viewport.Sign | src/index.ts:57 | the direction factor is a unit that turns the offset into its length (r x = abs(x)); it is 1 at 0 |
| Viewport.CanvasToGraph | src/index.ts:31-37 | the linear screen-to-plane map; ends and monotonicity by `CanvasToGraphEnds` and `CanvasToGraphIncreasing` |
| Viewport.Viewer.CanvasToGraphCoordX | src/index.ts:31-33 | `canvasToGraphCoordX`: the map over the canvas width and the current x bounds |
| Viewport.Viewer.CanvasToGraphCoordY | src/index.ts:35-37 | `canvasToGraphCoordY`: the map over the canvas height and the current y bounds |
| Viewport.LockedDrag | src/index.ts:50-61 | the offsets the shift lock leaves; ratio, one-axis and containment by `LockedDragRatio`, `LockedDragOneAxis` and `LockedDragWithin` |
| Viewport.Span | src/index.ts:81-94 | the stored bounds are the two coordinates, smaller first, in either drag direction; strictly ordered exactly when they differ |
| Viewport.CanvasToGraphEnds | src/index.ts:31-37 | canvas coordinate 0 maps to the low bound and the full canvas side to the high bound |
| Viewport.CanvasToGraphIncreasing | src/index.ts:31-37 | the map is strictly increasing over a window with lo < hi |
| Viewport.CanvasMatchesSamples | src/index.ts:31-37 | at a pixel's corner the map gives the point the renderer sampled for that pixel |
| Viewport.LockedDragOneAxis | src/index.ts:56-60 | with shift, at most one of the two offsets differs from the drag |
| Viewport.LockedDragRatio | src/index.ts:50-61 | with shift, the box satisfies abs(dx) = aspectRatio abs(dy) in every branch, also when no branch fires and for a zero-length drag |
| Viewport.WidthCut | src/index.ts:56-57 | the width-cutting branch leaves the ratio |
| Viewport.HeightCut | src/index.ts:58-59 | the height-cutting branch leaves the ratio |
| Viewport.Uncut | src/index.ts:51-61 | when neither branch fires the box already has the ratio |
| Viewport.LockedDragWithin | src/index.ts:52-60 | the locked offsets keep the drag's direction and do not exceed it: abs(dx) <= abs(w) and abs(dy) <= abs(h) |
| Viewport.AxisLockCollapses | src/index.ts:52-60 | a shift drag with no width or no height is cut to offsets (0, 0) |
| Viewport.CollapsedAxisStays | src/index.ts:31-37 | over a window of zero extent every canvas coordinate maps to the one bound |
| Viewport.LockedOffsets | src/index.ts:50-61 | offsets produced by the lock keep the drag on one axis at least and have the ratio |
| Viewport.Viewer.constructor | src/index.ts:6-12 | the aspect ratio is width / height; the initial window is [-2, 1] x [-0.84375, 0.84375], strictly ordered; the drag is at (0, 0); `loading` is clear; the buffer holds the image of the initial window (the draw at line 98) |
| Viewport.Viewer.Draw | src/index.ts:15-24 | while `loading` is set nothing changes; otherwise the buffer becomes the image of the current window and `loading` is clear again on return; window and drag are untouched; the window invariant is kept |
| Viewport.Viewer.MouseDown | src/index.ts:69-73 | the drag start becomes the mouse position; nothing else changes; the window invariant is kept |
| Viewport.Viewer.OnHold | src/index.ts:44-61 | without shift the drag end is the mouse; with shift the end's offsets from the start are the locked offsets of the mouse's, and the end keeps the mouse on one axis at least; nothing else changes; the window invariant is kept |
| Viewport.Viewer.MouseUp | src/index.ts:75-96 | the window becomes the ordered span of the converted drag coordinates on each axis, so it stays ordered; the drag is untouched; then the window is drawn as in `Draw` |

## Left out

- Floating-point rounding, NaN and infinity: reals are exact, so every
  property above is about the exact-arithmetic version of the formulas.
- Color.WrappingAdd: the `u8` addition of rs/src/color.rs:21 wraps as in a
  release build. The panic a debug build raises on overflow is not
  modelled. `MiddleDoesNotOverflow` makes the choice immaterial for
  saturation and value in [0, 1], which is all `get_mb_color_hsv` produces.
- The square root of `z.norm()`: the squared modulus is compared with 4.
- Engine.Iters: the smoothing term `log10(log2(|z|))` (rs/src/lib.rs:47)
  is the parameter `smooth`, applied to the squared modulus. Lemmas that
  need its sign assume it is positive outside the disc, as log2 |z| > 1
  makes it there.
- The `ImageData` wrapper (rs/src/lib.rs:87): `DrawMandelbrot` returns the
  byte sequence. The `?` there is the source's only error return, and it is
  dropped with the wrapper. The `ImageData` constructor rejects an empty
  buffer, so for a width or height of 0 the source returns an error, not an
  empty image. `EmptyGridEmptyImage` is about the pushed bytes only. The `ctx` parameter is unused in the source and is
  dropped. The wasm-bindgen externs, the allocator and the unused import
  are left out too.
- The `utils` module (rs/src/lib.rs:6) is not part of this model.
- Canvas and DOM calls (`getContext`, `putImageData`, `clearRect`, the
  rectangle stroked in `onHold`, `redraw`), `Date.now` timing and
  `console.log` are output only and are not modelled.
- Listener wiring: `mousemove` is registered on mouse-down and removed on
  mouse-up (src/index.ts:72, 76). The model does not enforce this order of
  calls. `OnHold` may be called at any time, and `MouseUp` uses whatever
  drag end is stored, as the source does after a click with no movement.
- Viewport.Viewer.constructor: `imageData` is unassigned in the source
  until the first draw. The constructor performs that draw (line 98), so
  the model has no state with the buffer undefined.
- `loading` only matters if `draw` is re-entered while it runs. The model
  is sequential, so `Draw` always finds it clear when it is called from a
  handler.
- Viewport.Viewer.OnHold: its contract states the locked offsets exactly
  and the one-axis fact. The aspect ratio of the resulting box is proved
  about those offsets (`LockedDragRatio`, `LockedOffsets`) rather than
  restated on the fields.
- The web worker (src/mandelbrot-worker.ts) and the generated TypeScript
  declarations (rs/pkg) contain no logic that the page uses, and are not
  part of this model.
