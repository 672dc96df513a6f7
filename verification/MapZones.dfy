/** The mask in map coordinates: what a free or a blocked byte says about the keep-out zones as
    they were drawn, wherever the grid lies and however it is turned. */
module MapZones {
  import opened Wire
  import opened CollisionMask
  import opened CollisionRaster
  import opened EvenOdd
  import GridProbe

  /** A grid of square cells, turned and not sheared. */
  predicate Rigid(f: Frame) {
    0.0 < f.resolution && f.cosine * f.cosine + f.sine * f.sine == 1.0
  }

  /** Where on the map a grid point lies: turned, scaled, and put at the origin. */
  function Place(f: Frame, g: Point): Point {
    Point(f.originX + (f.cosine * g.x - f.sine * g.y) * f.resolution,
          f.originY + (f.sine * g.x + f.cosine * g.y) * f.resolution)
  }

  // ----- the transform and the placement ----------------------------------------------------

  lemma ScaledTurn(c: real, s: real, dx: real, dy: real, r: real)
    ensures c * (dx * r) + s * (dy * r) == (c * dx + s * dy) * r
    ensures -s * (dx * r) + c * (dy * r) == (-s * dx + c * dy) * r
  {}

  lemma GridOf(f: Frame, v: Point, dx: real, dy: real)
    requires f.resolution != 0.0 && v.x == f.originX + dx && v.y == f.originY + dy
    ensures ToGrid(f, v) == Point((f.cosine * dx + f.sine * dy) / f.resolution,
                                  (-f.sine * dx + f.cosine * dy) / f.resolution)
  {
    assert v.x - f.originX == dx && v.y - f.originY == dy;
  }

  lemma Undone(c: real, s: real, r: real, x: real, y: real, dx: real, dy: real)
    requires 0.0 < r && c * c + s * s == 1.0 && dx == c * x - s * y && dy == s * x + c * y
    ensures (c * (dx * r) + s * (dy * r)) / r == x && (-s * (dx * r) + c * (dy * r)) / r == y
  {
    GridProbe.TurnBack(c, s, x, y, dx, dy);
    ScaledTurn(c, s, dx, dy, r);
    GridProbe.DivideBack(x, r, c * (dx * r) + s * (dy * r));
    GridProbe.DivideBack(y, r, -s * (dx * r) + c * (dy * r));
  }

  /** The grid transform undoes the placement. */
  lemma ToGridUndoesPlace(f: Frame, g: Point)
    requires Rigid(f)
    ensures ToGrid(f, Place(f, g)) == g
  {
    var dx, dy := f.cosine * g.x - f.sine * g.y, f.sine * g.x + f.cosine * g.y;
    Undone(f.cosine, f.sine, f.resolution, g.x, g.y, dx, dy);
    GridOf(f, Place(f, g), dx * f.resolution, dy * f.resolution);
  }

  lemma Redone(c: real, s: real, r: real, x: real, y: real, gx: real, gy: real)
    requires 0.0 < r && c * c + s * s == 1.0 && gx == (c * x + s * y) / r && gy == (-s * x + c * y) / r
    ensures (c * gx - s * gy) * r == x && (s * gx + c * gy) * r == y
  {
    assert gx * r == c * x + s * y && gy * r == -s * x + c * y;
    GridProbe.TurnBack(c, -s, x, y, gx * r, gy * r);
    assert (c * gx - s * gy) * r == c * (gx * r) - s * (gy * r);
    assert (s * gx + c * gy) * r == s * (gx * r) + c * (gy * r);
  }

  /** And the placement undoes the grid transform. */
  lemma PlaceUndoesToGrid(f: Frame, v: Point)
    requires Rigid(f)
    ensures Place(f, ToGrid(f, v)) == v
  {
    var dx, dy := v.x - f.originX, v.y - f.originY;
    GridOf(f, v, dx, dy);
    Redone(f.cosine, f.sine, f.resolution, dx, dy, ToGrid(f, v).x, ToGrid(f, v).y);
  }

  lemma Shared(r: real, a: real, b: real, t: real, v: real)
    requires 0.0 < r && v == a + t * (b - a)
    ensures v / r == a / r + t * (b / r - a / r)
  {
    var p, q := a / r, b / r;
    assert p * r == a && q * r == b;
    assert (p + t * (q - p)) * r == v;
    GridProbe.DivideBack(p + t * (q - p), r, v);
  }

  lemma SumShared(c: real, s: real, ax: real, ay: real, bx: real, ey: real, t: real)
    ensures c * (ax + t * (bx - ax)) + s * (ay + t * (ey - ay))
            == (c * ax + s * ay) + t * ((c * bx + s * ey) - (c * ax + s * ay))
  {}

  lemma OffsetShared(o: real, a: real, b: real, t: real)
    ensures a + t * (b - a) == o + ((a - o) + t * ((b - o) - (a - o)))
  {}

  lemma AxisToGrid(c: real, s: real, r: real, ax: real, ay: real, bx: real, ey: real, t: real, p: real, q: real)
    requires 0.0 < r && p == c * ax + s * ay && q == c * bx + s * ey
    ensures (c * (ax + t * (bx - ax)) + s * (ay + t * (ey - ay))) / r == p / r + t * (q / r - p / r)
  {
    SumShared(c, s, ax, ay, bx, ey, t);
    Shared(r, p, q, t, p + t * (q - p));
  }

  lemma AlongIs(a: Point, b: Point, m: Point, t: real)
    requires m.x == a.x + t * (b.x - a.x) && m.y == a.y + t * (b.y - a.y)
    ensures m == Along(a, b, t)
  {}

  lemma AxisMiddle(c: real, s: real, r: real, a: Point, b: Point, d: Point, t: real, m: real, p: real, q: real)
    requires 0.0 < r && d == Along(a, b, t)
    requires m == (c * d.x + s * d.y) / r && p == (c * a.x + s * a.y) / r && q == (c * b.x + s * b.y) / r
    ensures m == p + t * (q - p)
  {
    AxisToGrid(c, s, r, a.x, a.y, b.x, b.y, t, c * a.x + s * a.y, c * b.x + s * b.y);
  }

  function TurnedAxis(c: real, s: real, r: real, d: Point): real
    requires r != 0.0
  {
    (c * d.x + s * d.y) / r
  }

  /** What the transform makes of an offset from the origin. */
  function Turned(f: Frame, d: Point): Point
    requires f.resolution != 0.0
  {
    Point(TurnedAxis(f.cosine, f.sine, f.resolution, d), TurnedAxis(-f.sine, f.cosine, f.resolution, d))
  }

  function FromOrigin(f: Frame, v: Point): Point {
    Point(v.x - f.originX, v.y - f.originY)
  }

  lemma GridIsTurned(f: Frame, v: Point, d: Point)
    requires f.resolution != 0.0 && d == FromOrigin(f, v)
    ensures ToGrid(f, v) == Turned(f, d)
  {
    GridOf(f, v, d.x, d.y);
  }

  lemma AxisAlong(c: real, s: real, r: real, a: Point, b: Point, t: real, p: real, q: real)
    requires 0.0 < r && p == TurnedAxis(c, s, r, a) && q == TurnedAxis(c, s, r, b)
    ensures TurnedAxis(c, s, r, Along(a, b, t)) == p + t * (q - p)
  {
    AxisMiddle(c, s, r, a, b, Along(a, b, t), t, TurnedAxis(c, s, r, Along(a, b, t)), p, q);
  }

  lemma TurnedAlong(f: Frame, a: Point, b: Point, t: real, ga: Point, gb: Point, gm: Point)
    requires 0.0 < f.resolution
    requires ga == Turned(f, a) && gb == Turned(f, b) && gm == Turned(f, Along(a, b, t))
    ensures gm == Along(ga, gb, t)
  {
    AxisAlong(f.cosine, f.sine, f.resolution, a, b, t, ga.x, gb.x);
    AxisAlong(-f.sine, f.cosine, f.resolution, a, b, t, ga.y, gb.y);
    AlongIs(ga, gb, gm, t);
  }

  lemma AlongFromOrigin(f: Frame, a: Point, b: Point, t: real)
    ensures FromOrigin(f, Along(a, b, t)) == Along(FromOrigin(f, a), FromOrigin(f, b), t)
  {
    OffsetShared(f.originX, a.x, b.x, t);
    OffsetShared(f.originY, a.y, b.y, t);
  }

  lemma SegmentOf(f: Frame, a: Point, b: Point, t: real, u: Point, v: Point, ga: Point, gb: Point, gm: Point)
    requires 0.0 < f.resolution && u == FromOrigin(f, a) && v == FromOrigin(f, b)
    requires ga == ToGrid(f, a) && gb == ToGrid(f, b) && gm == ToGrid(f, Along(a, b, t))
    ensures ga == Turned(f, u) && gb == Turned(f, v) && gm == Turned(f, Along(u, v, t))
  {
    AlongFromOrigin(f, a, b, t);
    GridIsTurned(f, a, u);
    GridIsTurned(f, b, v);
    GridIsTurned(f, Along(a, b, t), Along(u, v, t));
  }

  /** It takes a segment of the map to the segment of the grid, point by point. */
  lemma SegmentToGrid(f: Frame, a: Point, b: Point, t: real)
    requires 0.0 < f.resolution
    ensures ToGrid(f, Along(a, b, t)) == Along(ToGrid(f, a), ToGrid(f, b), t)
  {
    var u, v := FromOrigin(f, a), FromOrigin(f, b);
    SegmentOf(f, a, b, t, u, v, ToGrid(f, a), ToGrid(f, b), ToGrid(f, Along(a, b, t)));
    TurnedAlong(f, u, v, t, ToGrid(f, a), ToGrid(f, b), ToGrid(f, Along(a, b, t)));
  }

  // ----- the even-odd rule under the transform ------------------------------------------------

  /** The map direction of the grid's first axis. */
  function FirstAxis(f: Frame): Point {
    Point(f.cosine, f.sine)
  }

  lemma DivideDifference(a: real, b: real, r: real)
    requires 0.0 < r
    ensures a / r - b / r == (a - b) / r
  {
    var p, q := a / r, b / r;
    assert p * r == a && q * r == b;
    GridProbe.DivideBack(p - q, r, a - b);
  }

  lemma DifferenceTurns(c: real, s: real, ax: real, ay: real, px: real, py: real)
    ensures (c * ax + s * ay) - (c * px + s * py) == c * (ax - px) + s * (ay - py)
  {}

  lemma AxisOffset(c: real, s: real, r: real, ax: real, ay: real, px: real, py: real, d: real, e: real)
    requires 0.0 < r && d == ax - px && e == ay - py
    ensures (c * ax + s * ay) / r - (c * px + s * py) / r == (c * d + s * e) / r
  {
    DivideDifference(c * ax + s * ay, c * px + s * py, r);
    DifferenceTurns(c, s, ax, ay, px, py);
  }

  lemma OffsetToGrid(f: Frame, p: Point, a: Point, d: Point)
    requires 0.0 < f.resolution && d == Offset(p, a)
    ensures Offset(ToGrid(f, p), ToGrid(f, a)) == Point((f.cosine * d.x + f.sine * d.y) / f.resolution,
                                                       (-f.sine * d.x + f.cosine * d.y) / f.resolution)
  {
    var c, s, r := f.cosine, f.sine, f.resolution;
    var ax, ay, px, py := a.x - f.originX, a.y - f.originY, p.x - f.originX, p.y - f.originY;
    GridOf(f, a, ax, ay);
    GridOf(f, p, px, py);
    AxisOffset(c, s, r, ax, ay, px, py, d.x, d.y);
    AxisOffset(-s, c, r, ax, ay, px, py, d.x, d.y);
  }

  lemma SameSign(a: real, r: real)
    requires 0.0 < r
    ensures a / r > 0.0 <==> a > 0.0
    ensures a / r < 0.0 <==> a < 0.0
  {
    QuotientSign(a, r);
    var q := a / r;
    assert q * r == a;
    if q < 0.0 { Positive(-q, r); } else { NotNegative(q, r); }
  }

  lemma CrossTurns(c: real, s: real, ax: real, ay: real, bx: real, ey: real, p: real, q: real, m: real, n: real)
    requires c * c + s * s == 1.0 && p == c * ax + s * ay && q == -s * ax + c * ay
    requires m == c * bx + s * ey && n == -s * bx + c * ey
    ensures p * n - q * m == ax * ey - ay * bx
  {
    assert p * n - q * m == (c * c + s * s) * (ax * ey - ay * bx);
  }

  lemma CrossScales(r: real, p: real, q: real, m: real, n: real)
    requires 0.0 < r
    ensures (p / r) * (n / r) - (q / r) * (m / r) == (p * n - q * m) / r / r
  {
    var a, b, d, e := p / r, q / r, m / r, n / r;
    assert a * r == p && b * r == q && d * r == m && e * r == n;
    var turn := a * e - b * d;
    assert (turn * r) * r == p * n - q * m;
    GridProbe.DivideBack(turn * r, r, p * n - q * m);
    GridProbe.DivideBack(turn, r, turn * r);
  }

  /** One edge passes the eastward ray in the grid exactly when it passes the first axis's ray on
      the map. */
  lemma PassesOnTheMap(c: real, s: real, r: real, a: Point, b: Point, ga: Point, gb: Point)
    requires 0.0 < r && c * c + s * s == 1.0
    requires ga == Point((c * a.x + s * a.y) / r, (-s * a.x + c * a.y) / r)
    requires gb == Point((c * b.x + s * b.y) / r, (-s * b.x + c * b.y) / r)
    ensures Passes(EAST, ga, gb) <==> Passes(Point(c, s), a, b)
  {
    SideOnTheMap(c, s, r, a, ga);
    SideOnTheMap(c, s, r, b, gb);
    var p, q, m, n := c * a.x + s * a.y, -s * a.x + c * a.y, c * b.x + s * b.y, -s * b.x + c * b.y;
    CrossTurns(c, s, a.x, a.y, b.x, b.y, p, q, m, n);
    CrossOnTheMap(r, p, q, m, n, ga, gb, Cross(a, b));
  }

  lemma CrossOnTheMap(r: real, p: real, q: real, m: real, n: real, ga: Point, gb: Point, turn: real)
    requires 0.0 < r && ga == Point(p / r, q / r) && gb == Point(m / r, n / r) && turn == p * n - q * m
    ensures Cross(ga, gb) > 0.0 <==> turn > 0.0
    ensures Cross(ga, gb) < 0.0 <==> turn < 0.0
  {
    CrossScales(r, p, q, m, n);
    SameSign(turn / r, r);
    SameSign(turn, r);
  }

  lemma SideOnTheMap(c: real, s: real, r: real, a: Point, ga: Point)
    requires 0.0 < r && ga.y == (-s * a.x + c * a.y) / r
    ensures Left(EAST, ga) <==> Left(Point(c, s), a)
  {
    assert Cross(EAST, ga) == ga.y;
    assert Cross(Point(c, s), a) == -s * a.x + c * a.y;
    SameSign(-s * a.x + c * a.y, r);
  }

  lemma {:induction false} CountsOnTheMap(f: Frame, z: Zone, p: Point, n: nat)
    requires Rigid(f) && n <= |z.vertices|
    ensures Passings(GridVertices(f, z), ToGrid(f, p), EAST, n) == Passings(z.vertices, p, FirstAxis(f), n)
  {
    if n > 0 {
      CountsOnTheMap(f, z, p, n - 1);
      var a, b := z.vertices[n - 1], Next(z.vertices, n - 1);
      EdgeOnTheMap(f, p, a, b);
    }
  }

  lemma EdgeOnTheMap(f: Frame, p: Point, a: Point, b: Point)
    requires Rigid(f)
    ensures Passes(EAST, Offset(ToGrid(f, p), ToGrid(f, a)), Offset(ToGrid(f, p), ToGrid(f, b)))
            <==> Passes(FirstAxis(f), Offset(p, a), Offset(p, b))
  {
    OffsetToGrid(f, p, a, Offset(p, a));
    OffsetToGrid(f, p, b, Offset(p, b));
    PassesOnTheMap(f.cosine, f.sine, f.resolution, Offset(p, a), Offset(p, b),
                   Offset(ToGrid(f, p), ToGrid(f, a)), Offset(ToGrid(f, p), ToGrid(f, b)));
  }

  /** A point on no edge is inside the drawn polygon exactly when its grid point is inside the
      transformed one. */
  lemma InsideOnTheMap(f: Frame, z: Zone, p: Point)
    requires Rigid(f) && OffEdges(z.vertices, p)
    ensures Inside(GridVertices(f, z), ToGrid(f, p)) <==> Inside(z.vertices, p)
  {
    EastDecides(GridVertices(f, z), ToGrid(f, p));
    CountsOnTheMap(f, z, p, |z.vertices|);
    AnyDirectionDecides(z.vertices, p, FirstAxis(f));
  }

  // ----- the mask on the map --------------------------------------------------------------------

  /** The map point lies in the cell's square on the map, grown by `margin` cells. */
  ghost predicate InMapCell(f: Frame, x: int, y: int, margin: real, p: Point) {
    exists g: Point :: InCell(g, x, y, margin) && p == Place(f, g)
  }

  /** Some point of the zone's drawn outline lies in the cell's square on the map. */
  ghost predicate OutlineMeets(f: Frame, z: Zone, x: int, y: int, margin: real) {
    exists i: nat, t: real ::
      i < |z.vertices| && 0.0 <= t <= 1.0 && InMapCell(f, x, y, margin, Along(z.vertices[i], Next(z.vertices, i), t))
  }

  lemma OutlineToGrid(f: Frame, z: Zone, x: int, y: int, margin: real)
    requires Rigid(f) && OutlineMeets(f, z, x, y, margin)
    ensures AnyEdgeMeets(GridVertices(f, z), x, y, margin)
  {
    var i: nat, t: real :| i < |z.vertices| && 0.0 <= t <= 1.0
                           && InMapCell(f, x, y, margin, Along(z.vertices[i], Next(z.vertices, i), t));
    var a, b := z.vertices[i], Next(z.vertices, i);
    var g :| InCell(g, x, y, margin) && Along(a, b, t) == Place(f, g);
    ToGridUndoesPlace(f, g);
    SegmentToGrid(f, a, b, t);
    assert EdgeMeets(GridVertices(f, z), i, x, y, margin);
  }

  lemma OutlineFromGrid(f: Frame, z: Zone, x: int, y: int, margin: real)
    requires Rigid(f) && AnyEdgeMeets(GridVertices(f, z), x, y, margin)
    ensures OutlineMeets(f, z, x, y, margin)
  {
    var vs := GridVertices(f, z);
    var i: nat :| EdgeMeets(vs, i, x, y, margin);
    var t: real :| 0.0 <= t <= 1.0 && InCell(Along(vs[i], Next(vs, i), t), x, y, margin);
    var a, b := z.vertices[i], Next(z.vertices, i);
    SegmentToGrid(f, a, b, t);
    PlaceUndoesToGrid(f, Along(a, b, t));
    assert InMapCell(f, x, y, margin, Along(a, b, t));
  }

  function PlacedAxis(o: real, c: real, s: real, r: real, g: Point): real {
    o + (c * g.x + s * g.y) * r
  }

  function PlacedByAxes(f: Frame, g: Point): Point {
    Point(PlacedAxis(f.originX, f.cosine, -f.sine, f.resolution, g),
          PlacedAxis(f.originY, f.sine, f.cosine, f.resolution, g))
  }

  lemma PlacedAxes(f: Frame, g: Point)
    ensures Place(f, g) == PlacedByAxes(f, g)
  {}

  lemma AxisPlaces(o: real, c: real, s: real, r: real, a: Point, b: Point, t: real, p: real, q: real)
    requires p == PlacedAxis(o, c, s, r, a) && q == PlacedAxis(o, c, s, r, b)
    ensures PlacedAxis(o, c, s, r, Along(a, b, t)) == p + t * (q - p)
  {
    SumShared(c, s, a.x, a.y, b.x, b.y, t);
    ScaledShare(c * a.x + s * a.y, c * b.x + s * b.y, r, t);
  }

  lemma AxesPlaceSegments(f: Frame, a: Point, b: Point, s: real, p: Point, q: Point)
    requires p == PlacedByAxes(f, a) && q == PlacedByAxes(f, b)
    ensures PlacedByAxes(f, Along(a, b, s)) == Along(p, q, s)
  {
    AxisPlaces(f.originX, f.cosine, -f.sine, f.resolution, a, b, s, p.x, q.x);
    AxisPlaces(f.originY, f.sine, f.cosine, f.resolution, a, b, s, p.y, q.y);
    AlongIs(p, q, PlacedByAxes(f, Along(a, b, s)), s);
  }

  /** The placement takes segments to segments. */
  lemma PlacesSegments(f: Frame, a: Point, b: Point, s: real)
    ensures Place(f, Along(a, b, s)) == Along(Place(f, a), Place(f, b), s)
  {
    PlacedAxes(f, a);
    PlacedAxes(f, b);
    PlacedAxes(f, Along(a, b, s));
    AxesPlaceSegments(f, a, b, s, Place(f, a), Place(f, b));
  }

  lemma ScaledShare(p: real, q: real, r: real, t: real)
    ensures (p + t * (q - p)) * r == p * r + t * (q * r - p * r)
  {}

  lemma CellHolds(g: Point, h: Point, x: int, y: int, s: real)
    requires InCell(g, x, y, 0.0) && InCell(h, x, y, 0.0) && 0.0 <= s <= 1.0
    ensures InCell(Along(g, h, s), x, y, 0.0)
  {
    Between(g.x, h.x, s, x as real, x as real + 1.0);
    Between(g.y, h.y, s, y as real, y as real + 1.0);
  }

  lemma Between(a: real, b: real, s: real, low: real, high: real)
    requires low <= a <= high && low <= b <= high && 0.0 <= s <= 1.0
    ensures low <= a + s * (b - a) <= high
  {
    NotNegative(s, b - low);
    NotNegative(1.0 - s, a - low);
    NotNegative(s, high - b);
    NotNegative(1.0 - s, high - a);
    assert a + s * (b - a) - low == s * (b - low) + (1.0 - s) * (a - low);
    assert high - (a + s * (b - a)) == s * (high - b) + (1.0 - s) * (high - a);
  }

  /** With no point of the outline in the square, the square lies on one side of it. */
  lemma SquareOnOneSide(f: Frame, z: Zone, x: int, y: int, g: Point, h: Point)
    requires !OutlineMeets(f, z, x, y, 0.0) && InCell(g, x, y, 0.0) && InCell(h, x, y, 0.0)
    ensures Inside(z.vertices, Place(f, g)) == Inside(z.vertices, Place(f, h))
  {
    forall i: nat, t: real, s: real | i < |z.vertices| && 0.0 <= t <= 1.0 && 0.0 <= s <= 1.0
      ensures Along(z.vertices[i], Next(z.vertices, i), t) != Along(Place(f, g), Place(f, h), s)
    {
      CellHolds(g, h, x, y, s);
      PlacesSegments(f, g, h, s);
      assert !InMapCell(f, x, y, 0.0, Along(z.vertices[i], Next(z.vertices, i), t));
    }
    UnseparatedAgree(z.vertices, Place(f, g), Place(f, h));
  }

  lemma CentreOffTheOutline(f: Frame, z: Zone, x: int, y: int)
    requires Rigid(f) && !OutlineMeets(f, z, x, y, 0.0)
    ensures OffEdges(z.vertices, Place(f, Middle(x, y)))
  {
    assert InCell(Middle(x, y), x, y, 0.0);
    forall i: nat, t: real | i < |z.vertices| && 0.0 <= t <= 1.0
      ensures Along(z.vertices[i], Next(z.vertices, i), t) != Place(f, Middle(x, y))
    {
      assert !InMapCell(f, x, y, 0.0, Along(z.vertices[i], Next(z.vertices, i), t));
    }
  }

  lemma CentreOnTheMap(f: Frame, z: Zone, x: int, y: int)
    requires Rigid(f) && !OutlineMeets(f, z, x, y, 0.0)
    ensures Inside(GridVertices(f, z), Middle(x, y)) <==> Inside(z.vertices, Place(f, Middle(x, y)))
  {
    CentreOffTheOutline(f, z, x, y);
    InsideOnTheMap(f, z, Place(f, Middle(x, y)));
    ToGridUndoesPlace(f, Middle(x, y));
  }

  /** A free byte can be driven over: the source cell is free, and no keep-out zone, as drawn on
      the map, has a point of its outline in the cell's square, grown by any margin short of
      epsilon, or contains any point of the square. */
  lemma FreeIsClearOnTheMap(f: Frame, source: seq<int>, zones: seq<Zone>, epsilon: real, mask: seq<int>,
                            x: int, y: int, k: nat, margin: real)
    requires Rigid(f) && IsMask(f, source, zones, epsilon, mask) && InGrid(f, x, y)
    requires 0 <= Index(f, x, y) < |mask| && mask[Index(f, x, y)] == 0
    requires k < |zones| && zones[k].kind.KeepOut? && 0.0 <= margin < epsilon
    ensures source[Index(f, x, y)] == 0
    ensures !OutlineMeets(f, zones[k], x, y, margin)
    ensures forall p: Point :: InMapCell(f, x, y, 0.0, p) ==> !Inside(zones[k].vertices, p)
  {
    FreeMeansClear(f, source, zones, epsilon, mask, x, y, k, margin);
    FreeMeansClear(f, source, zones, epsilon, mask, x, y, k, 0.0);
    if OutlineMeets(f, zones[k], x, y, margin) {
      OutlineToGrid(f, zones[k], x, y, margin);
    }
    if OutlineMeets(f, zones[k], x, y, 0.0) {
      OutlineToGrid(f, zones[k], x, y, 0.0);
    }
    CentreOnTheMap(f, zones[k], x, y);
    forall p: Point | InMapCell(f, x, y, 0.0, p) ensures !Inside(zones[k].vertices, p) {
      var g :| InCell(g, x, y, 0.0) && p == Place(f, g);
      SquareOnOneSide(f, zones[k], x, y, Middle(x, y), g);
    }
  }

  /** A blocked byte is blocked for a reason on the map: the source was not free, or some
      keep-out zone's drawn outline comes within epsilon of the cell's square, or the zone
      contains the whole square. */
  lemma BlockedHasAReasonOnTheMap(f: Frame, source: seq<int>, zones: seq<Zone>, epsilon: real, mask: seq<int>,
                                  x: int, y: int) returns (k: nat)
    requires Rigid(f) && IsMask(f, source, zones, epsilon, mask) && InGrid(f, x, y)
    requires 0 <= Index(f, x, y) < |mask| && mask[Index(f, x, y)] == 100
    ensures source[Index(f, x, y)] != 0 ||
            (k < |zones| && zones[k].kind.KeepOut? &&
             (OutlineMeets(f, zones[k], x, y, epsilon)
              || forall p: Point :: InMapCell(f, x, y, 0.0, p) ==> Inside(zones[k].vertices, p)))
  {
    k := BlockedHasAReason(f, source, zones, epsilon, mask, x, y);
    if source[Index(f, x, y)] == 0 {
      if AnyEdgeMeets(GridVertices(f, zones[k]), x, y, epsilon) {
        OutlineFromGrid(f, zones[k], x, y, epsilon);
      } else {
        if OutlineMeets(f, zones[k], x, y, 0.0) {
          OutlineToGrid(f, zones[k], x, y, 0.0);
          MarginGrows(GridVertices(f, zones[k]), x, y, 0.0, epsilon);
        }
        CentreOnTheMap(f, zones[k], x, y);
        forall p: Point | InMapCell(f, x, y, 0.0, p) ensures Inside(zones[k].vertices, p) {
          var g :| InCell(g, x, y, 0.0) && p == Place(f, g);
          SquareOnOneSide(f, zones[k], x, y, Middle(x, y), g);
        }
      }
    }
  }
}
