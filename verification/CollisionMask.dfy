/** The collision mask: which grid cells a keep-out polygon blocks, and why pruning the
    raster to each polygon's bounding box never frees a cell it touches. */
module CollisionMask {
  import opened Wire

  const MAX_CELLS := 1_048_576
  const MAX_RASTER_WORK := 2_000_000

  /** A point in grid units: cell `(x, y)` is the unit square with that lower corner. */
  datatype Point = Point(x: real, y: real)

  datatype Axis = Horizontal | Vertical

  function At(p: Point, axis: Axis): real {
    if axis.Horizontal? then p.x else p.y
  }

  // ----- reference geometry -----------------------------------------------------------

  /** The point of segment `ab` at parameter `t`. */
  function Along(a: Point, b: Point, t: real): Point {
    Point(a.x + t * (b.x - a.x), a.y + t * (b.y - a.y))
  }

  predicate InSlab(p: Point, axis: Axis, cell: int, margin: real) {
    cell as real - margin <= At(p, axis) <= cell as real + 1.0 + margin
  }

  /** The closed cell, grown by `margin` on every side. */
  predicate InCell(p: Point, x: int, y: int, margin: real) {
    InSlab(p, Horizontal, x, margin) && InSlab(p, Vertical, y, margin)
  }

  /** Some point of the segment lies in the grown cell. */
  ghost predicate Meets(a: Point, b: Point, x: int, y: int, margin: real) {
    exists t: real :: 0.0 <= t <= 1.0 && InCell(Along(a, b, t), x, y, margin)
  }

  function Next(vs: seq<Point>, i: nat): Point
    requires i < |vs|
  {
    vs[if i + 1 < |vs| then i + 1 else 0]
  }

  ghost predicate EdgeMeets(vs: seq<Point>, i: nat, x: int, y: int, margin: real) {
    i < |vs| && Meets(vs[i], Next(vs, i), x, y, margin)
  }

  ghost predicate AnyEdgeMeets(vs: seq<Point>, x: int, y: int, margin: real) {
    exists i: nat :: EdgeMeets(vs, i, x, y, margin)
  }

  predicate Straddles(a: Point, b: Point, py: real) {
    (a.y > py) != (b.y > py)
  }

  /** Where the line through a sloping edge reaches height `py`. */
  function MeetingX(a: Point, b: Point, py: real): real
    requires a.y != b.y
  {
    var rise, run, height := b.y - a.y, b.x - a.x, py - a.y;
    a.x + height * run / rise
  }

  predicate Crosses(a: Point, b: Point, p: Point) {
    Straddles(a, b, p.y) && p.x < MeetingX(a, b, p.y)
  }

  /** How many of the first `n` edges a ray from `p` to the right crosses. */
  function Crossings(vs: seq<Point>, p: Point, n: nat): nat
    requires n <= |vs|
  {
    if n == 0 then 0
    else Crossings(vs, p, n - 1) + if Crosses(vs[n - 1], Next(vs, n - 1), p) then 1 else 0
  }

  /** The even-odd rule. */
  predicate Inside(vs: seq<Point>, p: Point) {
    Crossings(vs, p, |vs|) % 2 == 1
  }

  function Middle(x: int, y: int): Point {
    Point(x as real + 0.5, y as real + 0.5)
  }

  // ----- clipping one axis ------------------------------------------------------------

  /** Where `start + t * delta` passes `bound`. */
  function Reach(start: real, delta: real, bound: real): (t: real)
    requires delta != 0.0
    ensures start + t * delta == bound
  {
    (bound - start) / delta
  }

  lemma SlabRising(start: real, delta: real, bound: real, t: real)
    requires delta > 0.0
    ensures start + t * delta <= bound <==> t <= Reach(start, delta, bound)
    ensures bound <= start + t * delta <==> Reach(start, delta, bound) <= t
  {
    var r := Reach(start, delta, bound);
    assert (t - r) * delta == (start + t * delta) - bound;
    if t > r { assert (t - r) * delta > 0.0; }
    if t < r { assert (r - t) * delta > 0.0; }
  }

  lemma SlabFalling(start: real, delta: real, bound: real, t: real)
    requires delta < 0.0
    ensures start + t * delta <= bound <==> Reach(start, delta, bound) <= t
    ensures bound <= start + t * delta <==> t <= Reach(start, delta, bound)
  {
    var r := Reach(start, delta, bound);
    assert (t - r) * delta == (start + t * delta) - bound;
    if t > r { assert (t - r) * (-delta) > 0.0; }
    if t < r { assert (r - t) * (-delta) > 0.0; }
  }

  /** The parameters of a slanted segment that lie in a slab form exactly one interval. */
  lemma SlabIsAnInterval(start: real, delta: real, lower: real, upper: real, t: real)
    requires delta != 0.0 && lower <= upper
    ensures var first, last := Reach(start, delta, lower), Reach(start, delta, upper);
            lower <= start + t * delta <= upper <==> Min(first, last) <= t <= Max(first, last)
  {
    if delta > 0.0 {
      SlabRising(start, delta, lower, t);
      SlabRising(start, delta, upper, t);
      SlabRising(start, delta, lower, Reach(start, delta, upper));
    } else {
      SlabFalling(start, delta, lower, t);
      SlabFalling(start, delta, upper, t);
      SlabFalling(start, delta, lower, Reach(start, delta, upper));
    }
  }

  /** The parameters still admitted after the first `done` axes. */
  ghost predicate Admitted(a: Point, b: Point, x: int, y: int, margin: real, done: nat, t: real) {
    && 0.0 <= t <= 1.0
    && (done >= 1 ==> InSlab(Along(a, b, t), Horizontal, x, margin))
    && (done >= 2 ==> InSlab(Along(a, b, t), Vertical, y, margin))
  }

  /** The clipping decision for one axis: a flat segment is in the slab throughout or never,
      a slanted one between the parameters where it passes the slab's sides. */
  predicate Clips(start: real, delta: real, lower: real, upper: real, t: real) {
    if delta == 0.0 then lower <= start <= upper
    else Min(Reach(start, delta, lower), Reach(start, delta, upper)) <= t <=
         Max(Reach(start, delta, lower), Reach(start, delta, upper))
  }

  lemma ClipsMeans(start: real, delta: real, lower: real, upper: real, t: real, v: real)
    requires lower <= upper && v == start + t * delta
    ensures lower <= v <= upper <==> Clips(start, delta, lower, upper, t)
  {
    if delta == 0.0 {
      assert t * delta == 0.0;
    } else {
      SlabIsAnInterval(start, delta, lower, upper, t);
    }
  }

  /** One axis of the cell test, for a point of the segment. */
  lemma SlabTest(a: Point, b: Point, axis: Axis, cell: int, margin: real, t: real)
    requires 0.0 <= margin
    ensures InSlab(Along(a, b, t), axis, cell, margin) <==>
              Clips(At(a, axis), At(b, axis) - At(a, axis), cell as real - margin, cell as real + 1.0 + margin, t)
  {
    AlongAt(a, b, axis, t);
    ClipsMeans(At(a, axis), At(b, axis) - At(a, axis), cell as real - margin, cell as real + 1.0 + margin, t,
               At(Along(a, b, t), axis));
  }

  lemma AlongAt(a: Point, b: Point, axis: Axis, t: real)
    ensures At(Along(a, b, t), axis) == At(a, axis) + t * (At(b, axis) - At(a, axis))
  {
  }

  lemma AxisTest(a: Point, b: Point, x: int, y: int, margin: real, k: nat, t: real)
    requires k < 2
    ensures Admitted(a, b, x, y, margin, k + 1, t) <==>
              Admitted(a, b, x, y, margin, k, t) &&
              InSlab(Along(a, b, t), if k == 0 then Horizontal else Vertical, if k == 0 then x else y, margin)
  {}

  /** What the loop keeps: the parameters left are exactly those of the interval. */
  ghost predicate Exactly(a: Point, b: Point, x: int, y: int, margin: real, k: nat, low: real, high: real) {
    forall t: real :: Admitted(a, b, x, y, margin, k, t) <==> low <= t <= high
  }

  lemma Narrowed(a: Point, b: Point, x: int, y: int, margin: real, k: nat, low: real, high: real)
    requires k < 2 && 0.0 <= margin && Exactly(a, b, x, y, margin, k, low, high)
    ensures var axis, cell := if k == 0 then Horizontal else Vertical, if k == 0 then x else y;
            var delta := At(b, axis) - At(a, axis);
            var lower, upper := cell as real - margin, cell as real + 1.0 + margin;
            if delta != 0.0 then
              var first, last := Reach(At(a, axis), delta, lower), Reach(At(a, axis), delta, upper);
              Exactly(a, b, x, y, margin, k + 1, Max(low, Min(first, last)), Min(high, Max(first, last)))
            else if lower <= At(a, axis) <= upper then Exactly(a, b, x, y, margin, k + 1, low, high)
            else Exactly(a, b, x, y, margin, k + 1, 1.0, 0.0)
  {
    var axis, cell := if k == 0 then Horizontal else Vertical, if k == 0 then x else y;
    var delta := At(b, axis) - At(a, axis);
    var lower, upper := cell as real - margin, cell as real + 1.0 + margin;
    var first, last, next := 0.0, 1.0, k + 1;
    if delta != 0.0 {
      first, last := Reach(At(a, axis), delta, lower), Reach(At(a, axis), delta, upper);
    }
    forall t: real
      ensures Admitted(a, b, x, y, margin, next, t) <==>
                low <= t <= high &&
                if delta == 0.0 then lower <= At(a, axis) <= upper
                else Min(first, last) <= t <= Max(first, last)
    {
      AxisTest(a, b, x, y, margin, k, t);
      SlabTest(a, b, axis, cell, margin, t);
      assert Admitted(a, b, x, y, margin, k, t) <==> low <= t <= high;
    }
  }

  lemma MeetsIsAdmitted(a: Point, b: Point, x: int, y: int, margin: real, t: real)
    ensures Admitted(a, b, x, y, margin, 2, t) <==> 0.0 <= t <= 1.0 && InCell(Along(a, b, t), x, y, margin)
  {}

  lemma IntervalDecides(a: Point, b: Point, x: int, y: int, margin: real, low: real, high: real)
    requires Exactly(a, b, x, y, margin, 2, low, high)
    ensures Meets(a, b, x, y, margin) <==> low <= high
  {
    if low <= high {
      assert Admitted(a, b, x, y, margin, 2, low);
      MeetsIsAdmitted(a, b, x, y, margin, low);
    }
    if Meets(a, b, x, y, margin) {
      var t: real :| 0.0 <= t <= 1.0 && InCell(Along(a, b, t), x, y, margin);
      MeetsIsAdmitted(a, b, x, y, margin, t);
    }
  }

  /** Once the interval is empty no later axis refills it. */
  lemma EmptyStaysEmpty(a: Point, b: Point, x: int, y: int, margin: real, k: nat, low: real, high: real)
    requires k <= 2 && Exactly(a, b, x, y, margin, k, low, high) && low > high
    ensures !Meets(a, b, x, y, margin)
  {
    if Meets(a, b, x, y, margin) {
      var t: real :| 0.0 <= t <= 1.0 && InCell(Along(a, b, t), x, y, margin);
      assert Admitted(a, b, x, y, margin, k, t);
    }
  }

  method SegmentTouchesCell(a: Point, b: Point, x: int, y: int, epsilon: real) returns (r: bool)
    requires 0.0 <= epsilon
    ensures r <==> Meets(a, b, x, y, epsilon)
  {
    var low, high := 0.0, 1.0;
    var k := 0;
    while k < 2
      invariant 0 <= k <= 2 && low <= high
      invariant Exactly(a, b, x, y, epsilon, k, low, high)
    {
      var axis, cell := if k == 0 then Horizontal else Vertical, if k == 0 then x else y;
      var delta := At(b, axis) - At(a, axis);
      var lower, upper := cell as real - epsilon, cell as real + 1.0 + epsilon;
      Narrowed(a, b, x, y, epsilon, k, low, high);
      if delta == 0.0 {
        if !(lower <= At(a, axis) <= upper) {
          EmptyStaysEmpty(a, b, x, y, epsilon, k + 1, 1.0, 0.0);
          return false;
        }
      } else {
        var first, last := Reach(At(a, axis), delta, lower), Reach(At(a, axis), delta, upper);
        low, high := Max(low, Min(first, last)), Min(high, Max(first, last));
        if low > high {
          EmptyStaysEmpty(a, b, x, y, epsilon, k + 1, low, high);
          return false;
        }
      }
      k := k + 1;
    }
    IntervalDecides(a, b, x, y, epsilon, low, high);
    return true;
  }

  // ----- one cell against one polygon -------------------------------------------------

  /** None of the first `n` edges meets the grown cell. */
  ghost predicate NoEdgeMeets(vs: seq<Point>, n: nat, x: int, y: int, margin: real) {
    forall j: nat :: j < n ==> !EdgeMeets(vs, j, x, y, margin)
  }

  lemma NoEdgeAtAll(vs: seq<Point>, x: int, y: int, margin: real)
    ensures NoEdgeMeets(vs, |vs|, x, y, margin) <==> !AnyEdgeMeets(vs, x, y, margin)
  {
    forall j: nat ensures j >= |vs| ==> !EdgeMeets(vs, j, x, y, margin) {}
  }

  method RayCrosses(a: Point, b: Point, p: Point) returns (r: bool)
    ensures r <==> Crosses(a, b, p)
  {
    r := false;
    if (a.y > p.y) != (b.y > p.y) {
      r := p.x < MeetingX(a, b, p.y);
    }
  }

  method CellIntersects(vs: seq<Point>, x: int, y: int, epsilon: real) returns (r: bool)
    requires 0.0 <= epsilon
    ensures r <==> AnyEdgeMeets(vs, x, y, epsilon) || Inside(vs, Middle(x, y))
  {
    var inside := false;
    var p := Middle(x, y);
    var i := 0;
    while i < |vs|
      invariant 0 <= i <= |vs|
      invariant NoEdgeMeets(vs, i, x, y, epsilon)
      invariant inside <==> Crossings(vs, p, i) % 2 == 1
    {
      var a, b := vs[i], Next(vs, i);
      var touches := SegmentTouchesCell(a, b, x, y, epsilon);
      if touches {
        assert EdgeMeets(vs, i, x, y, epsilon);
        return true;
      }
      var crosses := RayCrosses(a, b, p);
      if crosses {
        inside := !inside;
      }
      i := i + 1;
    }
    NoEdgeAtAll(vs, x, y, epsilon);
    return inside;
  }

  // ----- the crossing test is the geometric one -----------------------------------------

  lemma Quotient(n: real, d: real, m: real)
    requires d != 0.0
    ensures n * m / d == (n / d) * m
  {
    var q := n / d;
    assert q * d == n;
    assert n * m == (q * m) * d;
  }

  /** Two parameters at the same height of a sloping edge are the same parameter. */
  lemma SameHeight(start: real, delta: real, s: real, t: real)
    requires delta != 0.0 && start + s * delta == start + t * delta
    ensures s == t
  {
    assert (s - t) * delta == 0.0;
  }

  lemma MeetingIsAlong(a: Point, b: Point, py: real, t: real)
    requires a.y != b.y && t == Reach(a.y, b.y - a.y, py)
    ensures MeetingX(a, b, py) == Along(a, b, t).x
  {
    var rise, run, height := b.y - a.y, b.x - a.x, py - a.y;
    Quotient(height, rise, run);
    assert MeetingX(a, b, py) == a.x + height * run / rise;
    assert Along(a, b, t).x == a.x + t * run;
  }

  /** A straddling edge meets the horizontal line through `p`, and the abscissa there is what the
      crossing test computes. */
  lemma CrossingPoint(a: Point, b: Point, p: Point) returns (t: real)
    requires Straddles(a, b, p.y)
    ensures 0.0 <= t <= 1.0 && Along(a, b, t).y == p.y
    ensures Along(a, b, t).x == MeetingX(a, b, p.y)
    ensures p.y == a.y + t * (b.y - a.y)
  {
    t := Reach(a.y, b.y - a.y, p.y);
    MeetingIsAlong(a, b, p.y, t);
    if b.y > a.y {
      SlabRising(a.y, b.y - a.y, p.y, 0.0);
      SlabRising(a.y, b.y - a.y, p.y, 1.0);
    } else {
      SlabFalling(a.y, b.y - a.y, p.y, 0.0);
      SlabFalling(a.y, b.y - a.y, p.y, 1.0);
    }
  }

  /** An edge counts exactly when it passes from one side of the ray's line to the other at
      a point strictly to the right of `p`. */
  lemma CrossesMeans(a: Point, b: Point, p: Point)
    ensures Crosses(a, b, p) <==>
              (a.y > p.y) != (b.y > p.y) &&
              exists t: real :: 0.0 <= t <= 1.0 && Along(a, b, t).y == p.y && p.x < Along(a, b, t).x
  {
    if Straddles(a, b, p.y) {
      var t := CrossingPoint(a, b, p);
      assert 0.0 <= t <= 1.0 && Along(a, b, t).y == p.y;
      forall s: real | Along(a, b, s).y == p.y ensures s == t {
        SameHeight(a.y, b.y - a.y, s, t);
      }
    }
  }

  // ----- the bounding box ---------------------------------------------------------------

  datatype Box = Box(x0: int, x1: int, y0: int, y1: int)

  predicate InBox(b: Box, x: int, y: int) {
    b.x0 <= x <= b.x1 && b.y0 <= y <= b.y1
  }

  function Lowest(vs: seq<Point>, axis: Axis): (r: real)
    requires |vs| > 0
    ensures forall i :: 0 <= i < |vs| ==> r <= At(vs[i], axis)
    ensures exists i :: 0 <= i < |vs| && r == At(vs[i], axis)
  {
    if |vs| == 1 then At(vs[0], axis)
    else Min(Lowest(vs[..|vs| - 1], axis), At(vs[|vs| - 1], axis))
  }

  function Highest(vs: seq<Point>, axis: Axis): (r: real)
    requires |vs| > 0
    ensures forall i :: 0 <= i < |vs| ==> r >= At(vs[i], axis)
    ensures exists i :: 0 <= i < |vs| && r == At(vs[i], axis)
  {
    if |vs| == 1 then At(vs[0], axis)
    else Max(Highest(vs[..|vs| - 1], axis), At(vs[|vs| - 1], axis))
  }

  function First(low: real, epsilon: real): int {
    if (low - epsilon).Floor < 0 then 0 else (low - epsilon).Floor
  }

  function Last(high: real, epsilon: real, size: int): int {
    if (high + epsilon).Floor > size - 1 then size - 1 else (high + epsilon).Floor
  }

  function BoxOf(vs: seq<Point>, width: int, height: int, epsilon: real): Box
    requires |vs| > 0
  {
    Box(First(Lowest(vs, Horizontal), epsilon), Last(Highest(vs, Horizontal), epsilon, width),
        First(Lowest(vs, Vertical), epsilon), Last(Highest(vs, Vertical), epsilon, height))
  }

  lemma Product(u: real, v: real)
    requires 0.0 <= u && 0.0 <= v
    ensures 0.0 <= u * v
  {}

  /** A point between two values is bounded by whatever bounds both. */
  lemma Between(a: real, b: real, t: real, low: real, high: real)
    requires 0.0 <= t <= 1.0 && low <= a <= high && low <= b <= high
    ensures low <= a + t * (b - a) <= high
  {
    if b >= a {
      Product(t, b - a);
      Product(1.0 - t, b - a);
    } else {
      Product(t, a - b);
      Product(1.0 - t, a - b);
    }
  }

  lemma SegmentInRange(a: Point, b: Point, t: real, axis: Axis, low: real, high: real)
    requires 0.0 <= t <= 1.0 && low <= At(a, axis) <= high && low <= At(b, axis) <= high
    ensures low <= At(Along(a, b, t), axis) <= high
  {
    if axis.Horizontal? {
      Between(a.x, b.x, t, low, high);
    } else {
      Between(a.y, b.y, t, low, high);
    }
  }

  /** Every point of every edge lies in the polygon's range on each axis. */
  lemma EdgeInRange(vs: seq<Point>, i: nat, t: real, axis: Axis)
    requires i < |vs| && 0.0 <= t <= 1.0
    ensures Lowest(vs, axis) <= At(Along(vs[i], Next(vs, i), t), axis) <= Highest(vs, axis)
  {
    SegmentInRange(vs[i], Next(vs, i), t, axis, Lowest(vs, axis), Highest(vs, axis));
  }

  /** Off the box, the closed cell lies strictly beyond the polygon's range on some axis. */
  predicate Beyond(vs: seq<Point>, axis: Axis, cell: int, margin: real)
    requires |vs| > 0
  {
    cell as real + 1.0 + margin < Lowest(vs, axis) || Highest(vs, axis) < cell as real - margin
  }

  lemma OffTheBox(vs: seq<Point>, x: int, y: int, width: int, height: int, epsilon: real, margin: real)
    requires |vs| > 0 && 0 <= x < width && 0 <= y < height && 0.0 <= margin < epsilon
    requires !InBox(BoxOf(vs, width, height, epsilon), x, y)
    ensures Beyond(vs, Horizontal, x, margin) || Beyond(vs, Vertical, y, margin)
  {}

  lemma BeyondMeetsNothing(vs: seq<Point>, x: int, y: int, margin: real)
    requires |vs| > 0
    requires Beyond(vs, Horizontal, x, margin) || Beyond(vs, Vertical, y, margin)
    ensures !AnyEdgeMeets(vs, x, y, margin)
  {
    forall i: nat | EdgeMeets(vs, i, x, y, margin) ensures false {
      var t: real :| 0.0 <= t <= 1.0 && InCell(Along(vs[i], Next(vs, i), t), x, y, margin);
      EdgeInRange(vs, i, t, Horizontal);
      EdgeInRange(vs, i, t, Vertical);
    }
  }

  // ----- parity: a point beyond the range is outside -----------------------------------------

  function Corner(vs: seq<Point>, n: nat): Point
    requires n <= |vs| && |vs| > 0
  {
    vs[if n < |vs| then n else 0]
  }

  /** A straddling edge is crossed when it lies wholly to the right, and not when wholly to
      the left. */
  lemma CrossingOnOneSide(a: Point, b: Point, p: Point)
    requires Straddles(a, b, p.y)
    ensures p.x < a.x && p.x < b.x ==> Crosses(a, b, p)
    ensures a.x < p.x && b.x < p.x ==> !Crosses(a, b, p)
  {
    var t := CrossingPoint(a, b, p);
    var low, high := Min(a.x, b.x), Max(a.x, b.x);
    Between(a.x, b.x, t, low, high);
    assert low <= MeetingX(a, b, p.y) <= high;
  }

  lemma CrossingInRange(vs: seq<Point>, i: nat, p: Point)
    requires i < |vs| && Straddles(vs[i], Next(vs, i), p.y)
    ensures p.x < Lowest(vs, Horizontal) ==> Crosses(vs[i], Next(vs, i), p)
    ensures Highest(vs, Horizontal) < p.x ==> !Crosses(vs[i], Next(vs, i), p)
  {
    var a, b := vs[i], Next(vs, i);
    assert At(a, Horizontal) == a.x && At(b, Horizontal) == b.x;
    CrossingOnOneSide(a, b, p);
  }

  /** Right of, above or below the polygon the ray crosses nothing. */
  lemma {:induction false} NoCrossings(vs: seq<Point>, p: Point, n: nat)
    requires |vs| > 0 && n <= |vs|
    requires Highest(vs, Horizontal) < p.x || Highest(vs, Vertical) < p.y || p.y < Lowest(vs, Vertical)
    ensures Crossings(vs, p, n) == 0
  {
    if n > 0 {
      NoCrossings(vs, p, n - 1);
      assert At(vs[n - 1], Vertical) == vs[n - 1].y && At(Next(vs, n - 1), Vertical) == Next(vs, n - 1).y;
      if Straddles(vs[n - 1], Next(vs, n - 1), p.y) {
        CrossingInRange(vs, n - 1, p);
      }
    }
  }

  function Straddlings(vs: seq<Point>, py: real, n: nat): nat
    requires n <= |vs|
  {
    if n == 0 then 0
    else Straddlings(vs, py, n - 1) + if Straddles(vs[n - 1], Next(vs, n - 1), py) then 1 else 0
  }

  /** Left of the polygon the ray crosses every straddling edge. */
  lemma {:induction false} LeftCrossings(vs: seq<Point>, p: Point, n: nat)
    requires |vs| > 0 && n <= |vs| && p.x < Lowest(vs, Horizontal)
    ensures Crossings(vs, p, n) == Straddlings(vs, p.y, n)
  {
    if n > 0 {
      LeftCrossings(vs, p, n - 1);
      if Straddles(vs[n - 1], Next(vs, n - 1), p.y) {
        CrossingInRange(vs, n - 1, p);
      }
    }
  }

  /** Going round a closed chain one changes sides an even number of times. */
  lemma {:induction false} SidesAlternate(vs: seq<Point>, py: real, n: nat)
    requires |vs| > 0 && n <= |vs|
    ensures Straddlings(vs, py, n) % 2 == 1 <==> (vs[0].y > py) != (Corner(vs, n).y > py)
  {
    if n > 0 {
      SidesAlternate(vs, py, n - 1);
      assert Corner(vs, n) == Next(vs, n - 1) && Corner(vs, n - 1) == vs[n - 1];
    }
  }

  lemma BeyondIsOutside(vs: seq<Point>, x: int, y: int)
    requires |vs| > 0
    requires Beyond(vs, Horizontal, x, 0.0) || Beyond(vs, Vertical, y, 0.0)
    ensures !Inside(vs, Middle(x, y))
  {
    var p := Middle(x, y);
    if p.x < Lowest(vs, Horizontal) {
      LeftCrossings(vs, p, |vs|);
      SidesAlternate(vs, p.y, |vs|);
    } else {
      NoCrossings(vs, p, |vs|);
    }
  }

  // ----- what the pruning can and cannot lose --------------------------------------------------

  predicate Legal(vs: seq<Point>, x: int, y: int, width: int, height: int, epsilon: real) {
    |vs| > 0 && 0 <= x < width && 0 <= y < height && 0.0 < epsilon
  }

  /** A cell outside the box is met by no edge at any margin short of epsilon, in particular
      the closed cell itself is not, and its centre is outside the polygon. */
  lemma PrunedCellsAreClear(vs: seq<Point>, x: int, y: int, width: int, height: int,
                            epsilon: real, margin: real)
    requires Legal(vs, x, y, width, height, epsilon) && 0.0 <= margin < epsilon
    requires !InBox(BoxOf(vs, width, height, epsilon), x, y)
    ensures !AnyEdgeMeets(vs, x, y, margin)
    ensures !Inside(vs, Middle(x, y))
  {
    OffTheBox(vs, x, y, width, height, epsilon, margin);
    BeyondMeetsNothing(vs, x, y, margin);
    OffTheBox(vs, x, y, width, height, epsilon, 0.0);
    BeyondIsOutside(vs, x, y);
  }

  /** At the full margin pruning does lose cells: exactly those whose upper grown side the
      polygon's lowest coordinate touches. */
  lemma PrunedThoughTouched(vs: seq<Point>, x: int, y: int, width: int, height: int, epsilon: real)
    requires Legal(vs, x, y, width, height, epsilon) && AnyEdgeMeets(vs, x, y, epsilon)
    ensures !InBox(BoxOf(vs, width, height, epsilon), x, y) <==>
              Lowest(vs, Horizontal) == x as real + 1.0 + epsilon ||
              Lowest(vs, Vertical) == y as real + 1.0 + epsilon
  {
    var i: nat :| EdgeMeets(vs, i, x, y, epsilon);
    var t: real :| 0.0 <= t <= 1.0 && InCell(Along(vs[i], Next(vs, i), t), x, y, epsilon);
    EdgeInRange(vs, i, t, Horizontal);
    EdgeInRange(vs, i, t, Vertical);
    if Lowest(vs, Horizontal) == x as real + 1.0 + epsilon {
      assert Lowest(vs, Horizontal) - epsilon == (x + 1) as real;
      assert First(Lowest(vs, Horizontal), epsilon) == x + 1;
    }
    if Lowest(vs, Vertical) == y as real + 1.0 + epsilon {
      assert Lowest(vs, Vertical) - epsilon == (y + 1) as real;
      assert First(Lowest(vs, Vertical), epsilon) == y + 1;
    }
  }

  /** One such cell at the margin the program computes for an 8 by 8 grid of ordinary
      coordinates: cell (0, 0) beside a square whose left side is that margin past x = 1. */
  lemma PruningIsNotExact()
    ensures exists vs: seq<Point> :: |vs| == 4 && AnyEdgeMeets(vs, 0, 0, 0.000000001) &&
                                     !InBox(BoxOf(vs, 8, 8, 0.000000001), 0, 0)
  {
    var epsilon, left := 0.000000001, 1.000000001;
    var vs := [Point(left, 0.0), Point(3.0, 0.0), Point(3.0, 2.0), Point(left, 2.0)];
    assert Along(vs[0], Next(vs, 0), 0.0) == Point(left, 0.0);
    assert InCell(Along(vs[0], Next(vs, 0), 0.0), 0, 0, epsilon);
    assert EdgeMeets(vs, 0, 0, 0, epsilon);
    assert AnyEdgeMeets(vs, 0, 0, epsilon);
    forall i | 0 <= i < 4 ensures At(vs[i], Horizontal) >= left {}
    assert At(vs[0], Horizontal) == left;
    PrunedThoughTouched(vs, 0, 0, 8, 8, epsilon);
  }
}
