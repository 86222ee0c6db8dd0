/**
  The zoom state of the plot view and the per-frame step that updates it.

  The view is an integer state machine `(ticksX, ticksY, freq)`: the number of
  minor ticks between the origin and the edge of each quadrant on either axis,
  and the stride that decides which of those ticks get a gridline. Each frame
  applies the mouse wheel, picks the stride from the (unclamped) x tick count,
  then clamps the x count and re-derives the y count from the window's aspect
  ratio, in that order.
 */
module View {

  const MinTicks: int := 10
  const MaxTicks: int := 50
  /** How many ticks per quadrant one wheel notch adds or removes. */
  const ZoomStep: int := 2

  datatype ViewState = ViewState(ticksX: int, ticksY: int, freq: int)

  /** What the render loop reads from the window once per frame. */
  datatype FrameInput = FrameInput(wheel: real, width: int, height: int)

  function Abs(x: int): nat {
    if x < 0 then -x else x
  }

  function Dist(a: int, b: int): nat {
    Abs(a - b)
  }

  /** A negative wheel value zooms out (more ticks on both axes), a positive
      one zooms in, zero changes nothing. Only the sign of the wheel matters. */
  function Zoom(s: ViewState, wheel: real): (r: ViewState)
    ensures r.freq == s.freq
    ensures r.ticksX - s.ticksX == r.ticksY - s.ticksY
    ensures wheel < 0.0 <==> r.ticksX > s.ticksX
    ensures wheel > 0.0 <==> r.ticksX < s.ticksX
    ensures wheel == 0.0 <==> r == s
    ensures wheel < 0.0 ==> r.ticksX == s.ticksX + ZoomStep && r.ticksY == s.ticksY + ZoomStep
    ensures wheel > 0.0 ==> r.ticksX == s.ticksX - ZoomStep && r.ticksY == s.ticksY - ZoomStep
  {
    if wheel < 0.0 then
      s.(ticksX := s.ticksX + ZoomStep, ticksY := s.ticksY + ZoomStep)
    else if wheel > 0.0 then
      s.(ticksX := s.ticksX - ZoomStep, ticksY := s.ticksY - ZoomStep)
    else
      s
  }

  /** Zooming in by one notch undoes zooming out by one notch, and vice versa
      (before any clamping). */
  lemma ZoomInverse(s: ViewState, out: real, inn: real)
    requires out < 0.0 < inn
    ensures Zoom(Zoom(s, out), inn) == s
    ensures Zoom(Zoom(s, inn), out) == s
  {
  }

  /** The stride ladder: descending thresholds on the x tick count. At exactly
      15 no branch fires and the previous stride is kept. */
  function Ladder(x: int, prev: int): (f: int)
    ensures x == 15 ==> f == prev
    ensures x != 15 ==> 1 <= f <= 4
    ensures 1 <= prev <= 4 ==> 1 <= f <= 4
  {
    if x > 35 then 4
    else if x > 28 then 3
    else if x > 15 then 2
    else if x < 15 then 1
    else prev
  }

  /** Away from the hole at 15 the stride depends on the tick count alone, and
      it never decreases as the tick count grows. */
  lemma LadderMonotone(x: int, y: int, p: int, q: int)
    requires x <= y && x != 15 && y != 15
    ensures Ladder(x, p) <= Ladder(y, q)
    ensures x == y ==> Ladder(x, p) == Ladder(y, q)
  {
  }

  /** A reference reading of the ladder: one plus the number of thresholds
      (15, 28, 35) the tick count lies strictly above. */
  function ThresholdsPassed(x: int): nat {
    (if x > 15 then 1 else 0) + (if x > 28 then 1 else 0) + (if x > 35 then 1 else 0)
  }

  lemma LadderCountsThresholds(x: int, prev: int)
    requires x != 15
    ensures Ladder(x, prev) == 1 + ThresholdsPassed(x)
  {
  }

  /** One tick count per rung: 10, 16, 29 and 36 give strides 1, 2, 3 and 4. */
  lemma LadderRungs(prev: int)
    ensures Ladder(10, prev) == 1 && Ladder(16, prev) == 2
    ensures Ladder(29, prev) == 3 && Ladder(36, prev) == 4
  {
  }

  /** Clamp the x tick count to [MinTicks, MaxTicks]: the nearest value in range. */
  function Clamp(x: int): (r: int)
    ensures MinTicks <= r <= MaxTicks
    ensures MinTicks <= x <= MaxTicks ==> r == x
    ensures forall v :: MinTicks <= v <= MaxTicks ==> Dist(r, x) <= Dist(v, x)
  {
    var lo := if x < MaxTicks then x else MaxTicks;
    if MinTicks > lo then MinTicks else lo
  }

  lemma ClampIdempotent(x: int)
    ensures Clamp(Clamp(x)) == Clamp(x)
  {
  }

  /** Clamping never changes the stride the ladder picks: below the range the
      ladder already gives 1 and above it 4. So choosing the stride before the
      clamp, as the render loop does, gives the same stride as choosing it
      after. */
  lemma ClampKeepsStride(x: int, prev: int)
    ensures Ladder(Clamp(x), prev) == Ladder(x, prev)
  {
  }

  /** The y tick count that keeps world units square on a W x H render
      surface: the x count divided by the aspect ratio W/H, truncated. */
  function DeriveY(x: int, width: int, height: int): (y: int)
    requires width > 0 && height >= 0 && x >= 0
    ensures y >= 0
    ensures y * width <= x * height < (y + 1) * width
  {
    (x * height) / width
  }

  /** The y count is determined by its defining inequality: any y satisfying it
      is the derived one. */
  lemma DeriveYUnique(x: int, width: int, height: int, y: int)
    requires width > 0 && height >= 0 && x >= 0
    requires y * width <= x * height < (y + 1) * width
    ensures y == DeriveY(x, width, height)
  {
    var d := DeriveY(x, width, height);
    if y < d {
      MulMonotone(y + 1, d, width);
      assert false;
    } else if y > d {
      MulMonotone(d + 1, y, width);
      assert false;
    }
  }

  lemma MulMonotone(a: int, b: int, c: int)
    requires a <= b && c >= 0
    ensures a * c <= b * c
  {
  }

  /** The start of `grid_draw`: clamp x, then overwrite y with the value
      derived from the clamped x. The stride is untouched. */
  function Normalize(s: ViewState, width: int, height: int): (r: ViewState)
    requires width > 0 && height >= 0
    ensures MinTicks <= r.ticksX <= MaxTicks
    ensures MinTicks <= s.ticksX <= MaxTicks ==> r.ticksX == s.ticksX
    ensures r.ticksY * width <= r.ticksX * height < (r.ticksY + 1) * width
    ensures r.freq == s.freq
  {
    var x := Clamp(s.ticksX);
    ViewState(x, DeriveY(x, width, height), s.freq)
  }

  lemma NormalizeIdempotent(s: ViewState, width: int, height: int)
    requires width > 0 && height >= 0
    ensures Normalize(Normalize(s, width, height), width, height) == Normalize(s, width, height)
  {
  }

  /** The state at start-up: the minimum x count, y derived from it by the same
      formula `grid_draw` uses, stride 1. */
  function Init(width: int, height: int): (s: ViewState)
    requires width > 0 && height >= 0
    ensures s.ticksX == MinTicks && s.freq == 1
    ensures s.ticksY * width <= MinTicks * height < (s.ticksY + 1) * width
  {
    ViewState(MinTicks, DeriveY(MinTicks, width, height), 1)
  }

  predicate ValidInput(i: FrameInput) {
    i.width > 0 && i.height >= 0
  }

  /** One frame of the render loop as far as the view state goes: zoom, stride
      from the pre-clamp x count, then clamp and y re-derivation. */
  function Frame(s: ViewState, i: FrameInput): (r: ViewState)
    requires ValidInput(i)
    ensures r.ticksX == Clamp(Zoom(s, i.wheel).ticksX)
    ensures MinTicks <= r.ticksX <= MaxTicks
    ensures r.ticksY * i.width <= r.ticksX * i.height < (r.ticksY + 1) * i.width
    ensures r.freq == Ladder(Zoom(s, i.wheel).ticksX, s.freq)
    ensures 1 <= s.freq <= 4 ==> 1 <= r.freq <= 4
  {
    var z := Zoom(s, i.wheel);
    var f := Ladder(z.ticksX, z.freq);
    Normalize(z.(freq := f), i.width, i.height)
  }

  /** Whatever zoom did to the y count is overwritten: the frame's result does
      not depend on the previous y count. */
  lemma FrameIgnoresPreviousY(s: ViewState, y: int, i: FrameInput)
    requires ValidInput(i)
    ensures Frame(s, i) == Frame(s.(ticksY := y), i)
  {
  }

  predicate AllValid(inputs: seq<FrameInput>) {
    forall k :: 0 <= k < |inputs| ==> ValidInput(inputs[k])
  }

  /** The state after running the loop over a sequence of frames: no frame
      leaves the state alone, and every frame keeps x in range and a valid
      stride valid. */
  function Run(s: ViewState, inputs: seq<FrameInput>): (r: ViewState)
    requires AllValid(inputs)
    ensures |inputs| == 0 ==> r == s
    ensures |inputs| > 0 ==> MinTicks <= r.ticksX <= MaxTicks
    ensures 1 <= s.freq <= 4 ==> 1 <= r.freq <= 4
    decreases |inputs|
  {
    if |inputs| == 0 then s else Run(Frame(s, inputs[0]), inputs[1..])
  }

  /** Running two sequences of frames one after the other is running their
      concatenation: the loop has no state besides the view. */
  lemma {:induction false} RunAppend(s: ViewState, a: seq<FrameInput>, b: seq<FrameInput>)
    requires AllValid(a) && AllValid(b)
    ensures AllValid(a + b)
    ensures Run(s, a + b) == Run(Run(s, a), b)
    decreases |a|
  {
    if |a| == 0 {
      assert a + b == b;
    } else {
      assert (a + b)[0] == a[0];
      assert (a + b)[1..] == a[1..] + b;
      RunAppend(Frame(s, a[0]), a[1..], b);
    }
  }

  /** The states the loop can reach: x even and in range, and the stride the
      ladder gives for x (away from 15 the ladder ignores its previous value). */
  predicate Reachable(s: ViewState) {
    && MinTicks <= s.ticksX <= MaxTicks
    && s.ticksX % 2 == 0
    && 1 <= s.freq <= 4
    && s.freq == Ladder(s.ticksX, s.freq)
  }

  lemma InitReachable(width: int, height: int)
    requires width > 0 && height >= 0
    ensures Reachable(Init(width, height))
  {
  }

  /** From a reachable state the zoom step never lands on the ladder's hole at
      15, because x stays even. */
  lemma ZoomAvoidsHole(s: ViewState, wheel: real)
    requires Reachable(s)
    ensures Zoom(s, wheel).ticksX % 2 == 0
    ensures Zoom(s, wheel).ticksX != 15
  {
  }

  lemma FramePreservesReachable(s: ViewState, i: FrameInput)
    requires ValidInput(i) && Reachable(s)
    ensures Reachable(Frame(s, i))
  {
  }

  /** After any sequence of wheel inputs and window sizes, starting from a
      reachable state (such as the start-up state), x is even and in
      [MinTicks, MaxTicks] and the stride is in {1..4}. */
  lemma {:induction false} RunPreservesReachable(s: ViewState, inputs: seq<FrameInput>)
    requires AllValid(inputs) && Reachable(s)
    ensures Reachable(Run(s, inputs))
    decreases |inputs|
  {
    if |inputs| > 0 {
      FramePreservesReachable(s, inputs[0]);
      RunPreservesReachable(Frame(s, inputs[0]), inputs[1..]);
    }
  }

  /** After at least one frame, y is the value derived from x and the size of
      the last frame's window. */
  lemma {:induction false} RunDerivesY(s: ViewState, inputs: seq<FrameInput>)
    requires AllValid(inputs) && |inputs| > 0
    ensures var r := Run(s, inputs);
      var last := inputs[|inputs| - 1];
      r.ticksX >= 0 && r.ticksY == DeriveY(r.ticksX, last.width, last.height)
    decreases |inputs|
  {
    var r := Run(s, inputs);
    var last := inputs[|inputs| - 1];
    if |inputs| == 1 {
      var f := Frame(s, inputs[0]);
      assert inputs[1..] == [];
      assert Run(f, inputs[1..]) == f;
      assert r == f;
      DeriveYUnique(r.ticksX, last.width, last.height, r.ticksY);
    } else {
      RunDerivesY(Frame(s, inputs[0]), inputs[1..]);
      assert inputs[1..][|inputs[1..]| - 1] == last;
    }
  }

  /** At x = 50, zooming out picks the stride from 52 and then clamps back to 50. */
  lemma ZoomOutAtMaximum(height: int)
    requires height >= 0
    ensures var r := Frame(ViewState(50, 0, 4), FrameInput(-1.0, 800, height));
      r.ticksX == 50 && r.freq == 4
  {
  }

  /** On an 800 x 600 window the start-up state has 7 ticks per y quadrant, and
      five zoom-out notches reach x = 20 with stride 2. */
  lemma FiveZoomOuts()
    ensures Init(800, 600).ticksY == 7
    ensures var out := FrameInput(-1.0, 800, 600);
      Run(Init(800, 600), [out, out, out, out, out]) == ViewState(20, 15, 2)
  {
    var out := FrameInput(-1.0, 800, 600);
    var s0 := Init(800, 600);
    var s1 := Frame(s0, out);
    var s2 := Frame(s1, out);
    var s3 := Frame(s2, out);
    var s4 := Frame(s3, out);
    var s5 := Frame(s4, out);
    assert s5 == ViewState(20, 15, 2);
    assert Run(s5, []) == s5;
    assert Run(s4, [out]) == s5;
    assert Run(s3, [out, out]) == s5;
    assert Run(s2, [out, out, out]) == s5;
    assert Run(s1, [out, out, out, out]) == s5;
  }
}
