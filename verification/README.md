# plot-gui view state and tick layout, in Dafny

plot-gui draws a Cartesian plane in a resizable raylib window. The mouse wheel
zooms it, a grid of labelled gridlines is drawn, and a set of data points is
plotted. This project models the logic that decides the view. That logic is
spread over the render loop in `src/main.c`:

- **View state** (`view.dfy`, module `View`). The state is the integer triple
  `(ticksX, ticksY, freq)`. `ticksX` and `ticksY` are the ticks per quadrant on
  each axis, and `freq` is the stride. Every frame does the same four steps in
  this order:
  1. Zoom: a negative wheel value adds 2 to both tick counts, a positive one
     subtracts 2, and zero does nothing.
  2. Stride: the stride ladder reads the *unclamped* x count.
  3. `grid_draw` clamps the x count to [10, 50].
  4. `grid_draw` overwrites the y count with `floor(x * H / W)`.

  A `Run` over any sequence of frames keeps x even and in range and keeps the
  stride in {1..4}. Because x is always even, the ladder's hole at x = 15 is
  never reached.
- **Geometry** (`geometry.dfy`, module `Geometry`). This covers the rectangle
  centre, the pixel distance between ticks (`(size / 2) / n`), and the world to
  screen mapping of `plot_point` (y is inverted). It also defines the inverse
  of that mapping and proves both round trips. The visible world range on each
  axis is exactly `[-n, n]`.
- **Grid** (`grid.dfy`, module `Grid`). `grid_draw` returns a list of draw
  commands instead of calling raylib. Each command is either a labelled minor
  gridline or a major axis. The two tick loops walk outwards from the centre
  one offset per step, as the C loops do. A gridline pair is drawn exactly for
  indices `0 < i < n` with `i % freq == 0`. Each line carries the label `±i`
  and sits where `plot_point` would draw that world value, strictly inside the
  rectangle. `RenderFrame` puts one loop iteration together: zoom, stride,
  `grid_draw`, then `plot_points`.

All arithmetic is exact: `int` for tick counts and render sizes, and `real`
for pixel geometry.

Behaviour taken from the code as written:

- Panning never moves the origin. The code only logs the mouse delta, and the
  origin is always the rectangle centre.
- Labels are the raw loop index `±i`, not a clamped running world value.
- The clamp runs in `grid_draw`, after the stride has been chosen from the
  unclamped count, not straight after the zoom.
- A zero-size window is not guarded in the code. Here it is a precondition.
- Data points are drawn as separate markers. They are never joined into a
  polyline.

## Model

| member | source | states |
|---|---|---|
| View.Zoom | src/main.c:164-170 | a negative wheel adds exactly 2 to both counts, a positive one subtracts exactly 2 from both, zero leaves the state unchanged; the stride is untouched |
| View.ZoomInverse | src/main.c:165-170 | one zoom-in notch undoes one zoom-out notch and vice versa (before clamping) |
| View.Ladder | src/main.c:172-180 | at exactly 15 the previous stride is kept; otherwise the stride is in 1..4; a previous stride in 1..4 gives a result in 1..4 |
| View.LadderMonotone | src/main.c:172-180 | away from 15 the stride ignores its previous value and never decreases as the tick count grows |
| View.LadderCountsThresholds | src/main.c:172-180 | away from 15 the stride equals one plus the number of thresholds (15, 28, 35) the count lies strictly above |
| View.LadderRungs | src/main.c:172-180 | tick counts 10, 16, 29, 36 give strides 1, 2, 3, 4 |
| View.Clamp | src/main.c:27-29 | the result is in [10, 50], equals the input when the input is in range, and is the in-range value nearest the input |
| View.ClampIdempotent | src/main.c:28-29 | clamping twice is clamping once |
| View.ClampKeepsStride | src/main.c:28-29 | for every x count, the ladder gives the same stride for the clamped count as for the unclamped one, so choosing the stride before the clamp never changes it |
| View.DeriveY | src/main.c:31 | y is the floor of x divided by the aspect ratio W/H: y*W <= x*H < (y+1)*W, and y >= 0 |
| View.DeriveYUnique | src/main.c:31 | any y satisfying that inequality is the derived y, so the y count is a function of x, W and H alone |
| View.Normalize | src/main.c:27-31 | after normalisation x is in [10, 50] (unchanged if it already was), y is derived from the clamped x, and the stride is untouched |
| View.NormalizeIdempotent | src/main.c:27-31 | normalising an already normalised state changes nothing |
| View.Init | src/main.c:148-150 | the start-up state has x = 10, stride 1, and y derived from 10 by the same formula as in grid_draw |
| View.Frame | src/main.c:163-195 | after a frame x is the clamp of the zoomed x (so in [10, 50]), y is derived from the clamped x and the frame's render size, the stride is the ladder applied to the pre-clamp x, and a stride in 1..4 stays in 1..4 |
| View.FrameIgnoresPreviousY | src/main.c:166-170 | whatever zoom did to y is overwritten: the frame's result does not depend on the previous y |
| View.InitReachable | src/main.c:148-150 | the start-up state is reachable: x even and in range, stride in 1..4 and consistent with x |
| View.ZoomAvoidsHole | src/main.c:164-180 | from a reachable state the zoomed x is even, so the ladder never sees 15 |
| View.FramePreservesReachable | src/main.c:163-195 | one frame keeps x even and in [10, 50] and the stride in 1..4 and consistent with x |
| View.Run | src/main.c:163-200 | the render loop over a sequence of frames: no frames leave the state alone; after at least one frame x is in [10, 50]; a stride in 1..4 stays in 1..4 |
| View.RunAppend | src/main.c:163-200 | running two sequences of frames one after the other is running their concatenation |
| View.RunPreservesReachable | src/main.c:163-200 | any sequence of frames from a reachable state (such as start-up) keeps x even and in [10, 50] and the stride in 1..4 |
| View.RunDerivesY | src/main.c:163-200 | after at least one frame, y is the value derived from x and the last frame's render size |
| View.ZoomOutAtMaximum | src/main.c:166-180 | at x = 50 a zoom-out frame leaves x at 50 with stride 4 |
| View.FiveZoomOuts | src/main.c:148-180 | on an 800x600 window the start-up y is 7, and five zoom-out frames reach x = 20, y = 15, stride 2 |
| Geometry.Mid | src/main.c:22-25 | the midpoint is equidistant from both edges on each axis |
| Geometry.OffsetSpansHalf | src/main.c:34-37 | n tick offsets span exactly half the rectangle, and the offset is positive when the size is |
| Geometry.CoordSign | src/main.c:121-126 | world 0 maps to the centre; positive world x lies right of the centre and positive world y above it (smaller screen y) |
| Geometry.PlotPoint | src/main.c:114-127 | (0, 0) is drawn at the rectangle centre; positive x is right of centre; positive y is above centre (y inverted) |
| Geometry.CoordRoundTrip | src/main.c:121-126 | along one axis, screen coordinate and world value convert into each other without loss, both ways |
| Geometry.PlotPointRoundTrip | src/main.c:114-127 | the inverse mapping undoes plot_point, and plot_point undoes the inverse mapping |
| Geometry.CoordVisible | src/main.c:121-126 | a world value is drawn within the rectangle's extent iff it is within n ticks of the origin, and strictly inside iff strictly within |
| Geometry.PlotPoints | src/main.c:129-134 | one marker per input point, in input order, each where plot_point draws it |
| Grid.LabelsExactly | src/main.c:48-103 | a label v is drawn iff v is non-zero, below the tick count in absolute value, and a multiple of the stride; index 0 never gets a minor line |
| Grid.TicksExactly | src/main.c:44-103 | every command of a tick loop is the gridline its label calls for, and the gridline labelled v is drawn iff v is a non-zero multiple of the stride within the tick count |
| Grid.TickLineInside | src/main.c:34-72 | a gridline whose label is within n ticks lies strictly inside the rectangle along the axis and spans it across the axis |
| Grid.TicksInside | src/main.c:46-103 | every gridline a full tick loop draws lies strictly inside the rectangle |
| Grid.TickLineMatchesPlotPoint | src/main.c:121-126 | the gridline labelled v sits on the screen column (x) or row (y) where plot_point draws world value v |
| Grid.PairAtIsTickPair | src/main.c:48-98 | the pair drawn at the walked coordinates for index i is the left/right (x: -i, i) or upper/lower (y: i, -i) pair of gridlines of those labels |
| Grid.WalkStep | src/main.c:71-72 | one step of the walk moves each side one tick offset further out |
| Grid.TicksStep | src/main.c:48-73 | one loop iteration appends the pair for index i exactly when i is a non-zero multiple of the stride |
| Grid.DrawTicks | src/main.c:44-103 | the accumulating tick loop yields exactly the gridlines of the labels that are non-zero multiples of the stride within the tick count |
| Grid.MajorAxes | src/main.c:105-109 | two major axes, the horizontal x axis first, then the vertical y axis; each passes through the rectangle centre and spans the rectangle |
| Grid.GridDraw | src/main.c:20-110 | grid_draw normalises the state, draws the x loop, the y loop and then the two major axes; every gridline is strictly inside the rectangle; the gridline labelled v is drawn iff v is a non-zero multiple of the stride within that axis's tick count |
| Grid.RenderFrame | src/main.c:163-198 | a render-loop iteration leaves the state Frame computes; it draws the x tick loop, the y tick loop and the major axes over the full window, every gridline inside the window, the gridline labelled v exactly when v is a non-zero multiple of the stride within that axis's tick count; and it plots every point where plot_point puts it |

## Left out

- raylib calls (window and font setup, `DrawLineEx`, `DrawRectangleV`, `DrawTextEx`, `DrawCircleV`, `MeasureTextEx`, `TextFormat`) are foreign drawing and I/O. `grid_draw` and `plot_points` return command lists instead. A label is modelled by its number and its anchor point. Text measurement, the background box behind each label, colours, line thickness and the circle radius are not modelled.
- Panning: the code only logs the mouse delta while the button is held (src/main.c:182-184) and never moves the origin, so there is nothing to model.
- The demo parabola built with `calloc` (src/main.c:153-160) is demo data. `PlotPoints` and `RenderFrame` take an arbitrary sequence of points instead.
- Grid.DrawTicks: the running `negative_dir`/`positive_dir` positions are exact reals. The drift of float accumulation is not reproduced.
- View.DeriveY: `(int)(1.0f / (W/H) * x)` is modelled as an exact floor. Float rounding can make the C value one smaller when `x*H/W` is a whole number, and that rounding is not reproduced.
- Degenerate windows: a zero width divides by zero in the code (`1.0f / ASPECT_RATIO()` at src/main.c:31 and 149), and a window wide enough that y becomes 0 divides by zero at src/main.c:36 and 123. `Frame` requires a positive width. A zero height is accepted and gives y = 0, which is also what the float code computes (W/0 is infinite, and 1 divided by infinity is 0). `GridDraw` and `RenderFrame` require a positive window size and a positive y count, and `PlotPoint` requires positive tick counts.
- Render sizes are sampled once per frame, and `grid_draw` reads them through `GetRenderWidth`/`GetRenderHeight`. Here they are the `width`/`height` of `FrameInput`. `RenderFrame` draws into the full window rectangle `(0, 0, W, H)`, as `main` does.
