/** The even-odd rule does not depend on the direction of its ray: for a point on no edge of a
    closed polygon, rays in any two directions cross the polygon equally often, up to parity. */
module EvenOdd {
  import opened Wire
  import opened CollisionMask

  const ORIGIN := Point(0.0, 0.0)
  const EAST := Point(1.0, 0.0)
  const NORTH := Point(0.0, 1.0)
  const WEST := Point(-1.0, 0.0)

  function Cross(u: Point, v: Point): real {
    u.x * v.y - u.y * v.x
  }

  /** The vector from `p` to `v`. */
  function Offset(p: Point, v: Point): Point {
    Point(v.x - p.x, v.y - p.y)
  }

  /** The vector lies strictly to the left of the direction. */
  predicate Left(u: Point, v: Point) {
    Cross(u, v) > 0.0
  }

  /** Edge `ab` passes the ray from the origin along `u`: from its right to its left turning left
      about the origin, or from its left to its right turning right. */
  predicate Passes(u: Point, a: Point, b: Point) {
    || (!Left(u, a) && Left(u, b) && Cross(a, b) > 0.0)
    || (Left(u, a) && !Left(u, b) && Cross(a, b) < 0.0)
  }

  /** How many of the first `n` edges pass the ray from `p` along `u`. */
  function Passings(vs: seq<Point>, p: Point, u: Point, n: nat): nat
    requires n <= |vs|
  {
    if n == 0 then 0
    else Passings(vs, p, u, n - 1)
         + if Passes(u, Offset(p, vs[n - 1]), Offset(p, Next(vs, n - 1))) then 1 else 0
  }

  predicate InsideAlong(vs: seq<Point>, p: Point, u: Point) {
    Passings(vs, p, u, |vs|) % 2 == 1
  }

  // ----- the ray to the east is the mask's --------------------------------------------------

  lemma QuotientSign(n: real, d: real)
    requires d != 0.0
    ensures n / d > 0.0 <==> (d > 0.0 && n > 0.0) || (d < 0.0 && n < 0.0)
  {
    var q := n / d;
    assert q * d == n;
    if q > 0.0 {
      if d > 0.0 { Positive(q, d); } else { Positive(q, -d); }
    } else {
      if d > 0.0 { NotNegative(-q, d); } else { NotNegative(-q, -d); }
    }
  }

  lemma Positive(a: real, b: real)
    requires a > 0.0 && b > 0.0
    ensures a * b > 0.0
  {}

  lemma NotNegative(a: real, b: real)
    requires a >= 0.0 && b >= 0.0
    ensures a * b >= 0.0
  {}

  lemma MeetingIsAhead(ax: real, ay: real, ex: real, ey: real)
    requires ay != ey
    ensures 0.0 < ax + -ay * (ex - ax) / (ey - ay) <==>
              (ey > ay && ax * ey - ay * ex > 0.0) || (ey < ay && ax * ey - ay * ex < 0.0)
  {
    var rise, turn := ey - ay, ax * ey - ay * ex;
    var q := -ay * (ex - ax) / rise;
    assert q * rise == -ay * (ex - ax);
    assert (ax + q) * rise == turn;
    assert turn / rise == ax + q;
    QuotientSign(turn, rise);
  }

  lemma EastIsTheMasks(a: Point, b: Point, p: Point)
    ensures Crosses(a, b, p) <==> Passes(EAST, Offset(p, a), Offset(p, b))
  {
    var d, e := Offset(p, a), Offset(p, b);
    assert Cross(EAST, d) == d.y && Cross(EAST, e) == e.y;
    if a.y != b.y {
      MeetingIsAhead(d.x, d.y, e.x, e.y);
      assert MeetingX(a, b, p.y) == a.x + -d.y * (e.x - d.x) / (e.y - d.y);
    }
  }

  lemma {:induction false} EastCounts(vs: seq<Point>, p: Point, n: nat)
    requires n <= |vs|
    ensures Crossings(vs, p, n) == Passings(vs, p, EAST, n)
  {
    if n > 0 {
      EastCounts(vs, p, n - 1);
      EastIsTheMasks(vs[n - 1], Next(vs, n - 1), p);
    }
  }

  // ----- turning the ray --------------------------------------------------------------------

  /** The directions from `u`, exclusive, round to the left up to `w`, inclusive. */
  predicate Wedge(u: Point, w: Point, v: Point) {
    Left(u, v) && !Left(w, v)
  }

  /** The origin lies on the segment. */
  ghost predicate Through(a: Point, b: Point) {
    exists t: real :: 0.0 <= t <= 1.0 && Along(a, b, t) == ORIGIN
  }

  lemma Expanded(u: Point, w: Point, a: Point, b: Point)
    ensures Cross(u, w) * Cross(a, b) == Cross(u, a) * Cross(w, b) - Cross(w, a) * Cross(u, b)
  {}

  /** Collinear with the origin but not across it: one is a positive multiple of the other. */
  lemma SameWay(a: Point, b: Point) returns (m: real)
    requires Cross(a, b) == 0.0 && !Through(a, b)
    ensures m > 0.0 && b.x == m * a.x && b.y == m * a.y
  {
    assert a != ORIGIN by {
      assert Along(a, b, 0.0) == a;
    }
    if a.x != 0.0 {
      m := b.x / a.x;
      assert m * a.x == b.x;
      Multiple(a.x, a.y, b.x, b.y, m);
    } else {
      m := b.y / a.y;
      assert m * a.y == b.y;
      Multiple(a.y, a.x, b.y, b.x, m);
    }
    if m <= 0.0 {
      Across(a, b, m);
    }
  }

  lemma Multiple(ax: real, ay: real, ex: real, ey: real, m: real)
    requires ax != 0.0 && ex == m * ax && ax * ey == ay * ex
    ensures ey == m * ay
  {
    assert ax * (ey - m * ay) == 0.0 by {
      assert ay * ex == ay * (m * ax);
    }
  }

  lemma Across(a: Point, b: Point, m: real)
    requires m <= 0.0 && b.x == m * a.x && b.y == m * a.y
    ensures Through(a, b)
  {
    var t := 1.0 / (1.0 - m);
    assert t * (1.0 - m) == 1.0;
    Share(m, t);
    Balance(a.x, m, t);
    Balance(a.y, m, t);
    assert Along(a, b, t) == ORIGIN;
  }

  lemma Share(m: real, t: real)
    requires m <= 0.0 && t * (1.0 - m) == 1.0
    ensures 0.0 <= t <= 1.0
  {
    if t < 0.0 { Positive(-t, 1.0 - m); }
    if t > 1.0 { Positive(t - 1.0, 1.0 - m); }
  }

  lemma Balance(x: real, m: real, t: real)
    requires t * (1.0 - m) == 1.0
    ensures x + t * (m * x - x) == 0.0
  {
    assert x + t * (m * x - x) == x * (1.0 - t * (1.0 - m));
  }

  lemma ScaledSides(u: Point, a: Point, b: Point, m: real)
    requires m > 0.0 && b.x == m * a.x && b.y == m * a.y
    ensures Left(u, a) == Left(u, b)
  {
    assert Cross(u, b) == m * Cross(u, a);
    if Cross(u, a) > 0.0 { Positive(m, Cross(u, a)); } else { NotNegative(m, -Cross(u, a)); }
  }

  /** The signs of the four sides and of the turn, for an edge not collinear with the origin. */
  lemma Signs(k: real, turn: real, au: real, aw: real, bu: real, bw: real)
    requires k > 0.0 && turn != 0.0 && k * turn == au * bw - aw * bu
    ensures au <= 0.0 && bu > 0.0 && bw <= 0.0 && aw <= 0.0 ==> turn > 0.0
    ensures au > 0.0 && aw > 0.0 && bu > 0.0 && bw <= 0.0 ==> turn < 0.0
    ensures au <= 0.0 && aw <= 0.0 && bu <= 0.0 && bw > 0.0 ==> turn < 0.0
    ensures au > 0.0 && aw > 0.0 && bu <= 0.0 && bw > 0.0 ==> turn > 0.0
  {
    if turn > 0.0 { Positive(k, turn); } else { Positive(k, -turn); }
    var p, q := au * bw, aw * bu;
    if au <= 0.0 && aw <= 0.0 && bu > 0.0 && bw <= 0.0 {
      NotNegative(-au, -bw);
      NotNegative(-aw, bu);
    }
    if au > 0.0 && aw > 0.0 && bu > 0.0 && bw <= 0.0 {
      NotNegative(au, -bw);
      NotNegative(aw, bu);
    }
    if au <= 0.0 && aw <= 0.0 && bu <= 0.0 && bw > 0.0 {
      NotNegative(-au, bw);
      NotNegative(-aw, -bu);
    }
    if au > 0.0 && aw > 0.0 && bu <= 0.0 && bw > 0.0 {
      NotNegative(au, bw);
      NotNegative(aw, -bu);
    }
  }

  /** Turning the ray left past an edge's end changes whether the edge passes it. */
  lemma TurnPastEdge(u: Point, w: Point, a: Point, b: Point)
    requires Cross(u, w) > 0.0 && !Through(a, b)
    ensures (Passes(u, a, b) != Passes(w, a, b)) <==> (Wedge(u, w, a) != Wedge(u, w, b))
  {
    if Cross(a, b) == 0.0 {
      var m := SameWay(a, b);
      ScaledSides(u, a, b, m);
      ScaledSides(w, a, b, m);
    } else {
      Expanded(u, w, a, b);
      Expanded(u, w, b, a);
      assert Cross(b, a) == -Cross(a, b);
      Signs(Cross(u, w), Cross(a, b), Cross(u, a), Cross(w, a), Cross(u, b), Cross(w, b));
      Signs(Cross(u, w), Cross(b, a), Cross(u, b), Cross(w, b), Cross(u, a), Cross(w, a));
      DecideTurn(u, w, a, b);
    }
  }

  lemma DecideTurn(u: Point, w: Point, a: Point, b: Point)
    requires Cross(a, b) != 0.0
    requires !Left(u, a) && !Left(w, a) && Left(u, b) && !Left(w, b) ==> Cross(a, b) > 0.0
    requires Left(u, a) && Left(w, a) && Left(u, b) && !Left(w, b) ==> Cross(a, b) < 0.0
    requires !Left(u, a) && !Left(w, a) && !Left(u, b) && Left(w, b) ==> Cross(a, b) < 0.0
    requires Left(u, a) && Left(w, a) && !Left(u, b) && Left(w, b) ==> Cross(a, b) > 0.0
    requires !Left(u, b) && !Left(w, b) && Left(u, a) && !Left(w, a) ==> Cross(a, b) < 0.0
    requires Left(u, b) && Left(w, b) && Left(u, a) && !Left(w, a) ==> Cross(a, b) > 0.0
    requires !Left(u, b) && !Left(w, b) && !Left(u, a) && Left(w, a) ==> Cross(a, b) > 0.0
    requires Left(u, b) && Left(w, b) && !Left(u, a) && Left(w, a) ==> Cross(a, b) < 0.0
    ensures (Passes(u, a, b) != Passes(w, a, b)) <==> (Wedge(u, w, a) != Wedge(u, w, b))
  {}

  // ----- round the polygon ------------------------------------------------------------------

  /** The point lies on no edge. */
  ghost predicate OffEdges(vs: seq<Point>, p: Point) {
    forall i: nat, t: real :: i < |vs| && 0.0 <= t <= 1.0 ==> Along(vs[i], Next(vs, i), t) != p
  }

  lemma OffEdge(vs: seq<Point>, p: Point, i: nat)
    requires OffEdges(vs, p) && i < |vs|
    ensures !Through(Offset(p, vs[i]), Offset(p, Next(vs, i)))
  {
    var a, b := vs[i], Next(vs, i);
    if t: real :| 0.0 <= t <= 1.0 && Along(Offset(p, a), Offset(p, b), t) == ORIGIN {
      assert Along(a, b, t) == p by {
        assert (b.x - p.x) - (a.x - p.x) == b.x - a.x && (b.y - p.y) - (a.y - p.y) == b.y - a.y;
      }
      assert false;
    }
  }

  lemma {:induction false} TurnsAlternate(vs: seq<Point>, p: Point, u: Point, w: Point, n: nat)
    requires Cross(u, w) > 0.0 && OffEdges(vs, p) && |vs| > 0 && n <= |vs|
    ensures (Passings(vs, p, u, n) + Passings(vs, p, w, n)) % 2 == 1 <==>
              Wedge(u, w, Offset(p, vs[0])) != Wedge(u, w, Offset(p, Corner(vs, n)))
  {
    if n > 0 {
      TurnsAlternate(vs, p, u, w, n - 1);
      OffEdge(vs, p, n - 1);
      TurnPastEdge(u, w, Offset(p, vs[n - 1]), Offset(p, Next(vs, n - 1)));
      assert Corner(vs, n) == Next(vs, n - 1) && Corner(vs, n - 1) == vs[n - 1];
    }
  }

  lemma TurnLeft(vs: seq<Point>, p: Point, u: Point, w: Point)
    requires Cross(u, w) > 0.0 && OffEdges(vs, p)
    ensures InsideAlong(vs, p, u) == InsideAlong(vs, p, w)
  {
    if |vs| > 0 {
      TurnsAlternate(vs, p, u, w, |vs|);
      assert Corner(vs, |vs|) == vs[0];
      SameParity(Passings(vs, p, u, |vs|), Passings(vs, p, w, |vs|));
    }
  }

  lemma SameParity(m: nat, n: nat)
    requires (m + n) % 2 != 1
    ensures m % 2 == n % 2
  {}

  lemma FromEast(u: Point)
    ensures Cross(EAST, u) == u.y && Cross(u, EAST) == -u.y
  {}

  lemma UnitOnAxis(u: Point)
    requires u.x * u.x + u.y * u.y == 1.0 && u.y == 0.0
    ensures u == EAST || u == WEST
  {
    UnitSquare(u.x, u.x * u.x);
  }

  lemma Cancel(a: real, b: real, product: real)
    requires product == a * b && product == 0.0 && a != 0.0
    ensures b == 0.0
  {
    assert b == product / a;
  }

  lemma UnitSquare(x: real, square: real)
    requires square == x * x && square == 1.0
    ensures x == 1.0 || x == -1.0
  {
    if x != 1.0 {
      var a, b := x - 1.0, x + 1.0;
      assert a * b == x * x - 1.0;
      Cancel(a, b, a * b);
    }
  }

  lemma TurnTwice(vs: seq<Point>, p: Point, u: Point, v: Point, w: Point)
    requires Cross(u, v) > 0.0 && Cross(v, w) > 0.0 && OffEdges(vs, p)
    ensures InsideAlong(vs, p, u) == InsideAlong(vs, p, w)
  {
    TurnLeft(vs, p, u, v);
    TurnLeft(vs, p, v, w);
  }

  lemma TurnFrom(vs: seq<Point>, p: Point, u: Point, w: Point)
    requires Cross(u, w) != 0.0 && OffEdges(vs, p)
    ensures InsideAlong(vs, p, u) == InsideAlong(vs, p, w)
  {
    if Cross(u, w) > 0.0 {
      TurnLeft(vs, p, u, w);
    } else {
      Reversed(u, w);
      TurnLeft(vs, p, w, u);
    }
  }

  lemma Reversed(u: Point, w: Point)
    ensures Cross(w, u) == -Cross(u, w)
  {}

  lemma EastDecides(vs: seq<Point>, p: Point)
    ensures Inside(vs, p) == InsideAlong(vs, p, EAST)
  {
    EastCounts(vs, p, |vs|);
  }

  lemma Quarters()
    ensures Cross(EAST, NORTH) > 0.0 && Cross(NORTH, WEST) > 0.0
  {}

  lemma EastIsAny(vs: seq<Point>, p: Point, u: Point)
    requires OffEdges(vs, p) && (u.y != 0.0 || u == EAST || u == WEST)
    ensures InsideAlong(vs, p, EAST) == InsideAlong(vs, p, u)
  {
    if u.y != 0.0 {
      FromEast(u);
      TurnFrom(vs, p, EAST, u);
    } else if u == WEST {
      Quarters();
      TurnTwice(vs, p, EAST, NORTH, WEST);
    }
  }

  /** Off its edges a polygon contains a point by rays to the east exactly when it does by rays
      along any other unit direction. */
  lemma AnyDirectionDecides(vs: seq<Point>, p: Point, u: Point)
    requires OffEdges(vs, p) && u.x * u.x + u.y * u.y == 1.0
    ensures Inside(vs, p) == InsideAlong(vs, p, u)
  {
    EastDecides(vs, p);
    if u.y == 0.0 {
      UnitOnAxis(u);
    }
    EastIsAny(vs, p, u);
  }

  // ----- points that no edge separates --------------------------------------------------------

  lemma ScaledSide(u: Point, w: Point, v: Point, k: real)
    requires k > 0.0 && w.x == k * u.x && w.y == k * u.y
    ensures Left(w, v) == Left(u, v)
  {
    assert Cross(w, v) == k * Cross(u, v);
    if Cross(u, v) > 0.0 { Positive(k, Cross(u, v)); } else { NotNegative(k, -Cross(u, v)); }
  }

  lemma {:induction false} ScaledRay(vs: seq<Point>, p: Point, u: Point, w: Point, k: real, n: nat)
    requires k > 0.0 && w.x == k * u.x && w.y == k * u.y && n <= |vs|
    ensures Passings(vs, p, w, n) == Passings(vs, p, u, n)
  {
    if n > 0 {
      ScaledRay(vs, p, u, w, k, n - 1);
      ScaledSide(u, w, Offset(p, vs[n - 1]), k);
      ScaledSide(u, w, Offset(p, Next(vs, n - 1)), k);
    }
  }

  lemma NonzeroDecides(vs: seq<Point>, p: Point, u: Point)
    requires OffEdges(vs, p) && u != ORIGIN
    ensures Inside(vs, p) == InsideAlong(vs, p, u)
  {
    EastDecides(vs, p);
    if u.y != 0.0 {
      EastIsAny(vs, p, u);
    } else if u.x > 0.0 {
      ScaledRay(vs, p, EAST, u, u.x, |vs|);
    } else {
      EastIsAny(vs, p, WEST);
      ScaledRay(vs, p, WEST, u, -u.x, |vs|);
    }
  }

  /** Some point of the edge lies on the way from the origin to `u`. */
  ghost predicate Meets(a: Point, b: Point, u: Point) {
    exists t: real, s: real ::
      0.0 <= t <= 1.0 && 0.0 <= s <= 1.0 && Along(a, b, t) == Along(ORIGIN, u, s)
  }

  lemma ShiftedCross(u: Point, a: Point, b: Point)
    ensures Cross(u, Offset(u, a)) == Cross(u, a)
    ensures Cross(Offset(u, a), Offset(u, b)) == Cross(a, b) - (Cross(u, b) - Cross(u, a))
  {}

  /** A share of a whole, as a number between 0 and 1. */
  lemma PartOf(part: real, whole: real) returns (t: real)
    requires (0.0 <= part <= whole && 0.0 < whole) || (whole <= part <= 0.0 && whole < 0.0)
    ensures 0.0 <= t <= 1.0 && t * whole == part
  {
    t := part / whole;
    assert t * whole == part;
    if t < 0.0 {
      if whole > 0.0 { Positive(-t, whole); } else { Positive(-t, -whole); }
    }
    if t > 1.0 {
      if whole > 0.0 { Positive(t - 1.0, whole); } else { Positive(t - 1.0, -whole); }
    }
  }

  lemma Coordinates(u: Point, a: Point, b: Point)
    ensures a.x * (Cross(u, b) - Cross(u, a)) - Cross(u, a) * (b.x - a.x) == u.x * Cross(a, b)
    ensures a.y * (Cross(u, b) - Cross(u, a)) - Cross(u, a) * (b.y - a.y) == u.y * Cross(a, b)
  {}

  lemma OneCoordinate(a: real, b: real, u: real, whole: real, side: real, turn: real, t: real, s: real)
    requires whole != 0.0 && a * whole - side * (b - a) == u * turn && t * whole == -side && s * whole == turn
    ensures a + t * (b - a) == s * u
  {
    assert (a + t * (b - a) - s * u) * whole == 0.0 by {
      assert (t * whole) * (b - a) == -side * (b - a);
      assert (s * whole) * u == turn * u;
    }
    Cancel(whole, a + t * (b - a) - s * u, (a + t * (b - a) - s * u) * whole);
  }

  /** An edge whose ends lie on either side of the line and whose turn lies between nothing and the
      whole meets the way. */
  lemma MeetsBetween(u: Point, a: Point, b: Point)
    requires var whole := Cross(u, b) - Cross(u, a);
             || (whole > 0.0 && Cross(u, a) <= 0.0 <= Cross(u, b) && 0.0 <= Cross(a, b) <= whole)
             || (whole < 0.0 && Cross(u, b) <= 0.0 <= Cross(u, a) && whole <= Cross(a, b) <= 0.0)
    ensures Meets(a, b, u)
  {
    var whole := Cross(u, b) - Cross(u, a);
    var t := PartOf(-Cross(u, a), whole);
    var s := PartOf(Cross(a, b), whole);
    Coordinates(u, a, b);
    OneCoordinate(a.x, b.x, u.x, whole, Cross(u, a), Cross(a, b), t, s);
    OneCoordinate(a.y, b.y, u.y, whole, Cross(u, a), Cross(a, b), t, s);
    assert Along(a, b, t) == Along(ORIGIN, u, s);
  }

  /** Moving along the ray over no point of an edge does not change whether the edge passes it. */
  lemma PassesOn(u: Point, a: Point, b: Point)
    requires !Meets(a, b, u)
    ensures Passes(u, a, b) == Passes(u, Offset(u, a), Offset(u, b))
  {
    ShiftedCross(u, a, b);
    ShiftedCross(u, b, a);
    if Passes(u, a, b) != Passes(u, Offset(u, a), Offset(u, b)) {
      MeetsBetween(u, a, b);
    }
  }

  /** No point of the outline lies on the segment. */
  ghost predicate Apart(vs: seq<Point>, p: Point, q: Point) {
    forall i: nat, t: real, s: real :: i < |vs| && 0.0 <= t <= 1.0 && 0.0 <= s <= 1.0 ==>
      Along(vs[i], Next(vs, i), t) != Along(p, q, s)
  }

  lemma MeetingIsOnTheOutline(vs: seq<Point>, p: Point, q: Point, i: nat)
    requires i < |vs| && Meets(Offset(p, vs[i]), Offset(p, Next(vs, i)), Offset(p, q))
    ensures !Apart(vs, p, q)
  {
    var a, b, u := vs[i], Next(vs, i), Offset(p, q);
    var t: real, s: real :| 0.0 <= t <= 1.0 && 0.0 <= s <= 1.0
                            && Along(Offset(p, a), Offset(p, b), t) == Along(ORIGIN, u, s);
    OffsetAlong(p, a, b, t);
    OnTheWay(p, q, Along(a, b, t), s);
  }

  lemma OnTheWay(p: Point, q: Point, m: Point, s: real)
    requires Offset(p, m) == Along(ORIGIN, Offset(p, q), s)
    ensures m == Along(p, q, s)
  {
    assert m.x - p.x == s * (q.x - p.x) && m.y - p.y == s * (q.y - p.y);
  }

  lemma OffsetAlong(p: Point, a: Point, b: Point, t: real)
    ensures Along(Offset(p, a), Offset(p, b), t) == Offset(p, Along(a, b, t))
  {
    assert (b.x - p.x) - (a.x - p.x) == b.x - a.x && (b.y - p.y) - (a.y - p.y) == b.y - a.y;
  }

  lemma {:induction false} PassingsOn(vs: seq<Point>, p: Point, q: Point, n: nat)
    requires Apart(vs, p, q) && n <= |vs|
    ensures Passings(vs, p, Offset(p, q), n) == Passings(vs, q, Offset(p, q), n)
  {
    if n > 0 {
      PassingsOn(vs, p, q, n - 1);
      var a, b, u := vs[n - 1], Next(vs, n - 1), Offset(p, q);
      if Meets(Offset(p, a), Offset(p, b), u) {
        MeetingIsOnTheOutline(vs, p, q, n - 1);
      }
      PassesOn(u, Offset(p, a), Offset(p, b));
      assert Offset(u, Offset(p, a)) == Offset(q, a) && Offset(u, Offset(p, b)) == Offset(q, b);
    }
  }

  lemma ApartIsOff(vs: seq<Point>, p: Point, q: Point)
    requires Apart(vs, p, q)
    ensures OffEdges(vs, p) && OffEdges(vs, q)
  {
    assert Along(p, q, 0.0) == p && Along(p, q, 1.0) == q;
  }

  /** Two points with no point of the outline between them lie on the same side of it. */
  lemma UnseparatedAgree(vs: seq<Point>, p: Point, q: Point)
    requires Apart(vs, p, q)
    ensures Inside(vs, p) == Inside(vs, q)
  {
    if p != q {
      ApartIsOff(vs, p, q);
      NonzeroDecides(vs, p, Offset(p, q));
      NonzeroDecides(vs, q, Offset(p, q));
      PassingsOn(vs, p, q, |vs|);
    }
  }
}
