/**
  Screen geometry of the plot: the rectangle the grid is drawn in, the
  distance between neighbouring ticks on each axis, and the mapping from world
  coordinates to screen coordinates used by `plot_point`. All arithmetic is
  exact over `real`; the screen's y axis points down, the world's points up.
 */
module Geometry {
  import opened View

  datatype Point = Point(x: real, y: real)

  /** A screen rectangle: top-left corner and size, in pixels. */
  datatype Rect = Rect(x: real, y: real, width: real, height: real)

  datatype Axis = X | Y

  /** The pixel centre of the rectangle, where the world origin is drawn. */
  function Mid(r: Rect): (m: Point)
    ensures m.x - r.x == r.x + r.width - m.x
    ensures m.y - r.y == r.y + r.height - m.y
  {
    Point(r.x + r.width / 2.0, r.y + r.height / 2.0)
  }

  /** The rectangle's start and extent along one axis. */
  function Start(axis: Axis, r: Rect): real {
    match axis
    case X => r.x
    case Y => r.y
  }

  function Size(axis: Axis, r: Rect): real {
    match axis
    case X => r.width
    case Y => r.height
  }

  function Centre(axis: Axis, r: Rect): real {
    match axis
    case X => Mid(r).x
    case Y => Mid(r).y
  }

  /** Pixels between neighbouring ticks on an axis with `n` ticks per
      quadrant. */
  function Offset(axis: Axis, r: Rect, n: int): real
    requires n > 0
  {
    (Size(axis, r) * 0.5) / (n as real)
  }

  /** `n` tick offsets span exactly half the rectangle, so a positive size
      gives a positive offset. */
  lemma OffsetSpansHalf(axis: Axis, r: Rect, n: int)
    requires n > 0
    ensures Offset(axis, r, n) * (n as real) == Size(axis, r) / 2.0
    ensures Size(axis, r) > 0.0 ==> Offset(axis, r, n) > 0.0
  {
  }

  /** The screen coordinate of world value `v` along one axis: the centre plus
      `v` tick offsets, with the y axis inverted. */
  function Coord(axis: Axis, r: Rect, n: int, v: real): real
    requires n > 0
  {
    match axis
    case X => Centre(axis, r) + Offset(axis, r, n) * v
    case Y => Centre(axis, r) + Offset(axis, r, n) * (-v)
  }

  /** World zero is drawn at the centre; positive world values lie right of it
      on the x axis and above it (smaller screen y) on the y axis. */
  lemma CoordSign(axis: Axis, r: Rect, n: int, v: real)
    requires n > 0
    ensures v == 0.0 ==> Coord(axis, r, n, v) == Centre(axis, r)
    ensures Size(axis, r) > 0.0 && axis == X ==> (v > 0.0 <==> Coord(axis, r, n, v) > Centre(axis, r))
    ensures Size(axis, r) > 0.0 && axis == Y ==> (v > 0.0 <==> Coord(axis, r, n, v) < Centre(axis, r))
  {
    OffsetSpansHalf(axis, r, n);
  }

  /** Where `plot_point` draws world point `p`, given the current tick counts. */
  function PlotPoint(r: Rect, s: ViewState, p: Point): (q: Point)
    requires s.ticksX > 0 && s.ticksY > 0
    ensures p == Point(0.0, 0.0) ==> q == Mid(r)
    ensures r.width > 0.0 ==> (p.x > 0.0 <==> q.x > Mid(r).x)
    ensures r.height > 0.0 ==> (p.y > 0.0 <==> q.y < Mid(r).y)
  {
    CoordSign(X, r, s.ticksX, p.x);
    CoordSign(Y, r, s.ticksY, p.y);
    Point(Coord(X, r, s.ticksX, p.x), Coord(Y, r, s.ticksY, p.y))
  }

  /** The world value drawn at screen coordinate `c` along one axis. */
  function WorldValue(axis: Axis, r: Rect, n: int, c: real): real
    requires n > 0 && Size(axis, r) > 0.0
  {
    match axis
    case X => (c - Centre(axis, r)) / Offset(axis, r, n)
    case Y => (Centre(axis, r) - c) / Offset(axis, r, n)
  }

  lemma {:induction false} CoordRoundTrip(axis: Axis, r: Rect, n: int, v: real, c: real)
    requires n > 0 && Size(axis, r) > 0.0
    ensures WorldValue(axis, r, n, Coord(axis, r, n, v)) == v
    ensures Coord(axis, r, n, WorldValue(axis, r, n, c)) == c
  {
    var d := Offset(axis, r, n);
    OffsetSpansHalf(axis, r, n);
    match axis
    case X =>
      assert (d * v) / d == v;
      assert d * ((c - Centre(axis, r)) / d) == c - Centre(axis, r);
    case Y =>
      assert (d * v) / d == v;
      assert d * (-((Centre(axis, r) - c) / d)) == c - Centre(axis, r);
  }

  /** The inverse of `PlotPoint` on a non-degenerate rectangle. */
  function ScreenToWorld(r: Rect, s: ViewState, q: Point): Point
    requires s.ticksX > 0 && s.ticksY > 0 && r.width > 0.0 && r.height > 0.0
  {
    Point(WorldValue(X, r, s.ticksX, q.x), WorldValue(Y, r, s.ticksY, q.y))
  }

  /** Mapping to the screen and back recovers the world point, and the other
      way round. */
  lemma PlotPointRoundTrip(r: Rect, s: ViewState, p: Point, q: Point)
    requires s.ticksX > 0 && s.ticksY > 0 && r.width > 0.0 && r.height > 0.0
    ensures ScreenToWorld(r, s, PlotPoint(r, s, p)) == p
    ensures PlotPoint(r, s, ScreenToWorld(r, s, q)) == q
  {
    CoordRoundTrip(X, r, s.ticksX, p.x, q.x);
    CoordRoundTrip(Y, r, s.ticksY, p.y, q.y);
  }

  /** Along one axis the visible world range is exactly [-n, n]: a world value
      lands inside the rectangle's extent iff it is within `n` ticks of the
      origin, and strictly inside iff strictly within. */
  lemma {:induction false} CoordVisible(axis: Axis, r: Rect, n: int, v: real)
    requires n > 0 && Size(axis, r) > 0.0
    ensures var c := Coord(axis, r, n, v);
      (Start(axis, r) <= c <= Start(axis, r) + Size(axis, r)) <==> -(n as real) <= v <= n as real
    ensures var c := Coord(axis, r, n, v);
      (Start(axis, r) < c < Start(axis, r) + Size(axis, r)) <==> -(n as real) < v < n as real
  {
    var d := Offset(axis, r, n);
    var half := Size(axis, r) / 2.0;
    var nr := n as real;
    OffsetSpansHalf(axis, r, n);
    assert Centre(axis, r) == Start(axis, r) + half;
    // Multiplying by the positive offset preserves the order of world values.
    ScaleSign(d, v - nr);
    ScaleSign(d, v + nr);
    assert d * (v - nr) == d * v - half;
    assert d * (v + nr) == d * v + half;
    var w := match axis case X => v case Y => -v;
    assert Coord(axis, r, n, v) == Start(axis, r) + half + d * w;
  }

  /** A positive factor keeps the sign of what it multiplies. */
  lemma ScaleSign(d: real, x: real)
    requires d > 0.0
    ensures d * x <= 0.0 <==> x <= 0.0
    ensures d * x >= 0.0 <==> x >= 0.0
  {
  }

  /** The plotted positions of a sequence of points, in input order. */
  method PlotPoints(r: Rect, s: ViewState, points: seq<Point>) returns (marks: seq<Point>)
    requires s.ticksX > 0 && s.ticksY > 0
    ensures |marks| == |points|
    ensures forall k :: 0 <= k < |points| ==> marks[k] == PlotPoint(r, s, points[k])
  {
    marks := [];
    var k := 0;
    while k < |points|
      invariant 0 <= k <= |points|
      invariant |marks| == k
      invariant forall j :: 0 <= j < k ==> marks[j] == PlotPoint(r, s, points[j])
    {
      marks := marks + [PlotPoint(r, s, points[k])];
      k := k + 1;
    }
  }
}
