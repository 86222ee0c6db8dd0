/**
  `grid_draw` and the per-frame render step, with the drawing calls replaced by
  the list of commands they would issue.

  On an axis with `n` ticks per quadrant and stride `f`, tick index `i` gets a
  pair of minor gridlines (one on each side of the origin) exactly when
  `0 < i < n` and `i % f == 0`. Each gridline carries the integer label it is
  drawn with; its position is where the world value equal to that label is
  plotted. The two major axes through the centre are drawn last.
 */
module Grid {
  import opened View
  import opened Geometry

  /** The vertical gap between the x axis and the labels of x gridlines, and
      the horizontal gap between the y axis and the labels of y gridlines. */
  const LabelGap: real := 5.0

  /** A minor gridline with its numeric label, or a major axis line.
      `labelAt` is where the label is pinned: for a vertical (x) gridline the
      label is centred horizontally on it with its top edge there; for a
      horizontal (y) gridline the label's left edge is there and it is centred
      vertically on the line. */
  datatype Command =
    | Gridline(axis: Axis, start: Point, stop: Point, value: int, labelAt: Point)
    | MajorAxis(start: Point, stop: Point)

  /** A gridline of `axis` at screen coordinate `c`, spanning the rectangle. */
  function GridlineAt(axis: Axis, r: Rect, c: real, v: int): Command {
    match axis
    case X => Gridline(X, Point(c, r.y), Point(c, r.y + r.height), v, Point(c, Mid(r).y + LabelGap))
    case Y => Gridline(Y, Point(r.x, c), Point(r.x + r.width, c), v, Point(Mid(r).x + LabelGap, c))
  }

  /** The gridline labelled `v`, drawn where world value `v` is plotted. */
  function TickLine(axis: Axis, r: Rect, n: int, v: int): Command
    requires n > 0
  {
    GridlineAt(axis, r, Coord(axis, r, n, v as real), v)
  }

  /** Whether a gridline labelled `v` is drawn on an axis whose loop runs over
      indices below `k` with stride `f`. */
  predicate Drawn(v: int, k: int, f: int)
    requires f > 0
  {
    v != 0 && Abs(v) < k && Abs(v) % f == 0
  }

  /** The labels of the two gridlines for tick index `i`, in drawing order:
      on the x axis the left line (-i) then the right one (i); on the y axis
      the upper line (i) then the lower one (-i). */
  function PairLabels(axis: Axis, i: int): seq<int> {
    match axis
    case X => [-i, i]
    case Y => [i, -i]
  }

  /** The labels the tick loop has drawn after its first `k` iterations. */
  function Labels(axis: Axis, f: int, k: nat): seq<int>
    requires f > 0
  {
    if k == 0 then []
    else Labels(axis, f, k - 1) + (if k - 1 != 0 && (k - 1) % f == 0 then PairLabels(axis, k - 1) else [])
  }

  /** The label `v` is drawn exactly when it is a non-zero multiple of the
      stride within `k` ticks of the origin: index 0 never gets a minor line. */
  lemma {:induction false} LabelsExactly(axis: Axis, f: int, k: nat)
    requires f > 0
    ensures forall v :: v in Labels(axis, f, k) <==> Drawn(v, k, f)
  {
    if k > 0 {
      LabelsExactly(axis, f, k - 1);
      var i := k - 1;
      forall v
        ensures v in Labels(axis, f, k) <==> Drawn(v, k, f)
      {
        if Drawn(v, k, f) && Abs(v) == i {
          assert v in PairLabels(axis, i);
        }
      }
    }
  }

  /** The gridlines for a sequence of labels, one per label, in order. */
  function Lines(axis: Axis, r: Rect, n: int, labels: seq<int>): (cs: seq<Command>)
    requires n > 0
    ensures |cs| == |labels|
  {
    seq(|labels|, j requires 0 <= j < |labels| => TickLine(axis, r, n, labels[j]))
  }

  lemma LinesAppend(axis: Axis, r: Rect, n: int, a: seq<int>, b: seq<int>)
    requires n > 0
    ensures Lines(axis, r, n, a + b) == Lines(axis, r, n, a) + Lines(axis, r, n, b)
  {
  }

  /** Every line is the gridline its label calls for, and the gridline
      labelled `v` is among the lines exactly when `v` is among the labels. */
  lemma LinesMembership(axis: Axis, r: Rect, n: int, labels: seq<int>)
    requires n > 0
    ensures forall c :: c in Lines(axis, r, n, labels) ==>
      c.Gridline? && c == TickLine(axis, r, n, c.value) && c.value in labels
    ensures forall v :: TickLine(axis, r, n, v) in Lines(axis, r, n, labels) <==> v in labels
  {
    var cs := Lines(axis, r, n, labels);
    forall c | c in cs
      ensures c.Gridline? && c == TickLine(axis, r, n, c.value) && c.value in labels
    {
      var j :| 0 <= j < |cs| && cs[j] == c;
      assert TickLine(axis, r, n, labels[j]).value == labels[j];
    }
    forall v | v in labels
      ensures TickLine(axis, r, n, v) in cs
    {
      var j :| 0 <= j < |labels| && labels[j] == v;
      assert cs[j] == TickLine(axis, r, n, v);
    }
    forall v | TickLine(axis, r, n, v) in cs
      ensures v in labels
    {
      var j :| 0 <= j < |cs| && cs[j] == TickLine(axis, r, n, v);
      assert TickLine(axis, r, n, v).value == v;
      assert labels[j] == v;
    }
  }

  /** The commands of the tick loop after its first `k` iterations. */
  function Ticks(axis: Axis, r: Rect, n: int, f: int, k: nat): seq<Command>
    requires n > 0 && f > 0
  {
    Lines(axis, r, n, Labels(axis, f, k))
  }

  /** Every command of the tick loop is the gridline its label calls for, and
      the gridline labelled `v` is drawn exactly when `v` is a non-zero
      multiple of the stride within `k` ticks of the origin. */
  lemma TicksExactly(axis: Axis, r: Rect, n: int, f: int, k: nat)
    requires n > 0 && f > 0
    ensures forall c :: c in Ticks(axis, r, n, f, k) ==>
      c.Gridline? && c == TickLine(axis, r, n, c.value) && Drawn(c.value, k, f)
    ensures forall v :: TickLine(axis, r, n, v) in Ticks(axis, r, n, f, k) <==> Drawn(v, k, f)
  {
    LabelsExactly(axis, f, k);
    LinesMembership(axis, r, n, Labels(axis, f, k));
  }

  /** A gridline of `axis` that spans the rectangle across the axis and lies
      strictly inside it along the axis. */
  predicate InsideRect(c: Command, r: Rect)
    requires c.Gridline?
  {
    match c.axis
    case X =>
      r.x < c.start.x < r.x + r.width && c.stop.x == c.start.x
      && c.start.y == r.y && c.stop.y == r.y + r.height
    case Y =>
      r.y < c.start.y < r.y + r.height && c.stop.y == c.start.y
      && c.start.x == r.x && c.stop.x == r.x + r.width
  }

  /** Every gridline whose label is within `n` ticks of the origin lies
      strictly inside the rectangle. */
  lemma TickLineInside(axis: Axis, r: Rect, n: int, v: int)
    requires n > 0 && Size(axis, r) > 0.0 && Abs(v) < n
    ensures InsideRect(TickLine(axis, r, n, v), r)
  {
    CoordVisible(axis, r, n, v as real);
  }

  /** Every line a full tick loop draws lies strictly inside the rectangle. */
  lemma TicksInside(axis: Axis, r: Rect, n: int, f: int)
    requires n > 0 && f > 0 && Size(axis, r) > 0.0
    ensures forall c :: c in Ticks(axis, r, n, f, n) ==> c.Gridline? && InsideRect(c, r)
  {
    TicksExactly(axis, r, n, f, n);
    forall c | c in Ticks(axis, r, n, f, n)
      ensures c.Gridline? && InsideRect(c, r)
    {
      TickLineInside(axis, r, n, c.value);
    }
  }

  /** The gridline labelled `v` sits on the screen column (x axis) or row
      (y axis) where `plot_point` draws world value `v`. Both sides go through
      `Coord`, so this holds by definition; the link between the position the
      C loop accumulates and `plot_point` is `PairAtIsTickPair`, carried through
      the loop by `DrawTicks`. */
  lemma TickLineMatchesPlotPoint(r: Rect, s: ViewState, v: int)
    requires s.ticksX > 0 && s.ticksY > 0
    ensures TickLine(X, r, s.ticksX, v).start.x == PlotPoint(r, s, Point(v as real, 0.0)).x
    ensures TickLine(Y, r, s.ticksY, v).start.y == PlotPoint(r, s, Point(0.0, v as real)).y
  {
  }

  /** The two gridlines for tick index `i` drawn at the screen coordinates the
      loop has walked to, on the origin's negative and positive side. */
  function PairAt(axis: Axis, r: Rect, negative: real, positive: real, i: int): seq<Command> {
    match axis
    case X => [GridlineAt(X, r, negative, -i), GridlineAt(X, r, positive, i)]
    case Y => [GridlineAt(Y, r, negative, i), GridlineAt(Y, r, positive, -i)]
  }

  /** Where the walk stands after `i` steps: `i` offsets left of (or above)
      the centre, and `i` offsets right of (or below) it. */
  ghost predicate Walked(axis: Axis, r: Rect, n: int, i: int, negative: real, positive: real)
    requires n > 0
  {
    && negative == Centre(axis, r) - (i as real) * Offset(axis, r, n)
    && positive == Centre(axis, r) + (i as real) * Offset(axis, r, n)
  }

  /** The walked coordinates `i` offsets either side of the centre are where
      the labels -i and i are plotted. */
  lemma PairAtIsTickPair(axis: Axis, r: Rect, n: int, i: int, negative: real, positive: real)
    requires n > 0 && Walked(axis, r, n, i, negative, positive)
    ensures PairAt(axis, r, negative, positive, i) == Lines(axis, r, n, PairLabels(axis, i))
  {
    var d := Offset(axis, r, n);
    var ir := i as real;
    assert d * ir == ir * d;
    assert d * (-ir) == -(ir * d);
    assert (-i) as real == -ir;
    match axis
    case X =>
      assert negative == Coord(X, r, n, (-i) as real);
      assert positive == Coord(X, r, n, i as real);
    case Y =>
      assert negative == Coord(Y, r, n, i as real);
      assert positive == Coord(Y, r, n, (-i) as real);
  }

  /** One step of the walk moves each side one offset further out. */
  lemma WalkStep(axis: Axis, r: Rect, n: int, i: int, negative: real, positive: real)
    requires n > 0 && Walked(axis, r, n, i, negative, positive)
    ensures Walked(axis, r, n, i + 1, negative - Offset(axis, r, n), positive + Offset(axis, r, n))
  {
    var d := Offset(axis, r, n);
    assert ((i + 1) as real) * d == (i as real) * d + d;
  }

  /** One iteration of the tick loop appends the pair drawn at the walked
      coordinates when the index is a non-zero multiple of the stride. */
  lemma TicksStep(axis: Axis, r: Rect, n: int, f: int, i: nat, negative: real, positive: real)
    requires n > 0 && f > 0 && Walked(axis, r, n, i, negative, positive)
    ensures Ticks(axis, r, n, f, i + 1)
      == Ticks(axis, r, n, f, i) + (if i != 0 && i % f == 0 then PairAt(axis, r, negative, positive, i) else [])
  {
    var extra := if i != 0 && i % f == 0 then PairLabels(axis, i) else [];
    assert Labels(axis, f, i + 1) == Labels(axis, f, i) + extra;
    LinesAppend(axis, r, n, Labels(axis, f, i), extra);
    PairAtIsTickPair(axis, r, n, i, negative, positive);
  }

  /** One tick loop of `grid_draw`: walk outwards from the centre in both
      directions, one tick offset per step, and emit a labelled pair of
      gridlines at every non-zero multiple of the stride. */
  method DrawTicks(axis: Axis, r: Rect, n: int, f: int) returns (cmds: seq<Command>)
    requires n > 0 && f > 0
    ensures cmds == Ticks(axis, r, n, f, n)
    ensures forall v :: TickLine(axis, r, n, v) in cmds <==> Drawn(v, n, f)
  {
    var d := Offset(axis, r, n);
    var negative := Centre(axis, r);
    var positive := Centre(axis, r);
    cmds := [];
    var i := 0;
    while i < n
      invariant 0 <= i <= n
      invariant Walked(axis, r, n, i, negative, positive)
      invariant cmds == Ticks(axis, r, n, f, i)
    {
      TicksStep(axis, r, n, f, i, negative, positive);
      WalkStep(axis, r, n, i, negative, positive);
      if i != 0 && i % f == 0 {
        cmds := cmds + PairAt(axis, r, negative, positive, i);
      }
      negative := negative - d;
      positive := positive + d;
      i := i + 1;
    }
    TicksExactly(axis, r, n, f, n);
  }

  /** The two major axes through the centre, spanning the rectangle: the
      horizontal x axis first, then the vertical y axis. */
  function MajorAxes(r: Rect): (a: seq<Command>)
    ensures |a| == 2 && a[0].MajorAxis? && a[1].MajorAxis?
    ensures a[0].start.y == a[0].stop.y == Mid(r).y
    ensures a[0].start.x == r.x && a[0].stop.x == r.x + r.width
    ensures a[1].start.x == a[1].stop.x == Mid(r).x
    ensures a[1].start.y == r.y && a[1].stop.y == r.y + r.height
  {
    [ MajorAxis(Point(r.x, Mid(r).y), Point(r.x + r.width, Mid(r).y)),
      MajorAxis(Point(Mid(r).x, r.y), Point(Mid(r).x, r.y + r.height)) ]
  }

  /** `grid_draw`: normalise the view state (clamp x, derive y), then draw the
      x and y tick loops and the major axes. */
  method GridDraw(s: ViewState, r: Rect, width: int, height: int) returns (t: ViewState, cmds: seq<Command>)
    requires width > 0 && height >= 0 && s.freq > 0
    requires r.width > 0.0 && r.height > 0.0
    requires Normalize(s, width, height).ticksY > 0
    ensures t == Normalize(s, width, height)
    ensures cmds == Ticks(X, r, t.ticksX, t.freq, t.ticksX) + Ticks(Y, r, t.ticksY, t.freq, t.ticksY) + MajorAxes(r)
    ensures forall c :: c in cmds && c.Gridline? ==> InsideRect(c, r)
    ensures forall v :: TickLine(X, r, t.ticksX, v) in cmds <==> Drawn(v, t.ticksX, t.freq)
    ensures forall v :: TickLine(Y, r, t.ticksY, v) in cmds <==> Drawn(v, t.ticksY, t.freq)
  {
    t := Normalize(s, width, height);
    var xs := DrawTicks(X, r, t.ticksX, t.freq);
    var ys := DrawTicks(Y, r, t.ticksY, t.freq);
    cmds := xs + ys + MajorAxes(r);
    TicksInside(X, r, t.ticksX, t.freq);
    TicksInside(Y, r, t.ticksY, t.freq);
  }

  /** One iteration of the render loop: apply the wheel, pick the stride from
      the unclamped x count, draw the grid (which clamps x and derives y from
      the render size), then plot the data points. */
  method RenderFrame(s: ViewState, input: FrameInput, points: seq<Point>)
    returns (t: ViewState, cmds: seq<Command>, marks: seq<Point>)
    requires ValidInput(input) && input.height > 0 && s.freq > 0
    requires Frame(s, input).ticksY > 0
    ensures t == Frame(s, input)
    ensures var b := Rect(0.0, 0.0, input.width as real, input.height as real);
      cmds == Ticks(X, b, t.ticksX, t.freq, t.ticksX) + Ticks(Y, b, t.ticksY, t.freq, t.ticksY) + MajorAxes(b)
    ensures forall c :: c in cmds && c.Gridline? ==> InsideRect(c, Rect(0.0, 0.0, input.width as real, input.height as real))
    ensures forall v ::
      TickLine(X, Rect(0.0, 0.0, input.width as real, input.height as real), t.ticksX, v) in cmds <==> Drawn(v, t.ticksX, t.freq)
    ensures forall v ::
      TickLine(Y, Rect(0.0, 0.0, input.width as real, input.height as real), t.ticksY, v) in cmds <==> Drawn(v, t.ticksY, t.freq)
    ensures |marks| == |points|
    ensures forall k :: 0 <= k < |points| ==>
      marks[k] == PlotPoint(Rect(0.0, 0.0, input.width as real, input.height as real), t, points[k])
  {
    var z := Zoom(s, input.wheel);
    z := z.(freq := Ladder(z.ticksX, z.freq));
    var bounds := Rect(0.0, 0.0, input.width as real, input.height as real);
    t, cmds := GridDraw(z, bounds, input.width, input.height);
    marks := PlotPoints(bounds, t, points);
  }
}
