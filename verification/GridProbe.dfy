/** The offline connectivity probe: grid geometry, and a unit-cost search that fixes each
    distance at first discovery yet returns a shortest chain. */
module GridProbe {
  import opened Wire

  const MAX_CELLS := 100_000

  // ----- geometry ---------------------------------------------------------------------

  datatype Cell = Cell(x: int, y: int)
  datatype Point = Point(x: real, y: real)

  /** A map snapshot: `free` says whether a cell's centre is known free with the robot's
      clearance, and the origin's yaw is given by its cosine and sine. */
  datatype Grid = Grid(width: int, height: int, resolution: real, originX: real, originY: real,
                       cosine: real, sine: real, free: Cell -> bool)

  ghost predicate Proper(g: Grid) {
    0.0 < g.resolution && g.cosine * g.cosine + g.sine * g.sine == 1.0
  }

  predicate InGrid(g: Grid, c: Cell) {
    0 <= c.x < g.width && 0 <= c.y < g.height
  }

  function Index(local: real, resolution: real): int
    requires resolution != 0.0
  {
    (local / resolution).Floor
  }

  /** A point in the map's own axes. */
  function Local(g: Grid, p: Point): Point {
    var dx, dy := p.x - g.originX, p.y - g.originY;
    Point(g.cosine * dx + g.sine * dy, -g.sine * dx + g.cosine * dy)
  }

  function CellOf(g: Grid, p: Point): (c: Option<Cell>)
    requires g.resolution != 0.0
    ensures c.Some? ==> InGrid(g, c.value)
  {
    var local := Local(g, p);
    var cell := Cell(Index(local.x, g.resolution), Index(local.y, g.resolution));
    if InGrid(g, cell) then Some(cell) else None
  }

  function Center(g: Grid, c: Cell): Point {
    var localX := (c.x as real + 0.5) * g.resolution;
    var localY := (c.y as real + 0.5) * g.resolution;
    Point(g.originX + g.cosine * localX - g.sine * localY,
          g.originY + g.sine * localX + g.cosine * localY)
  }

  /** Turning a vector and turning it back. */
  lemma TurnBack(c: real, s: real, x: real, y: real, dx: real, dy: real)
    requires c * c + s * s == 1.0 && dx == c * x - s * y && dy == s * x + c * y
    ensures c * dx + s * dy == x && -s * dx + c * dy == y
  {
    assert c * dx + s * dy == (c * c + s * s) * x;
    assert -s * dx + c * dy == (c * c + s * s) * y;
  }

  lemma Cancel(a: real, b: real, r: real)
    requires 0.0 < r && a * r == b * r
    ensures a == b
  {
    assert (a - b) * r == 0.0;
  }

  lemma DivideBack(a: real, r: real, b: real)
    requires 0.0 < r && b == a * r
    ensures b / r == a
  {
    var q := b / r;
    assert q * r == b;
    Cancel(q, a, r);
  }

  lemma LocalOfOffset(g: Grid, p: Point, dx: real, dy: real)
    requires p.x == g.originX + dx && p.y == g.originY + dy
    ensures Local(g, p) == Point(g.cosine * dx + g.sine * dy, -g.sine * dx + g.cosine * dy)
  {
    assert p.x - g.originX == dx && p.y - g.originY == dy;
  }

  /** Where on the map the fraction `u`, `v` of a cell's square lies. */
  function PointIn(g: Grid, c: Cell, u: real, v: real): Point {
    var localX, localY := (c.x as real + u) * g.resolution, (c.y as real + v) * g.resolution;
    Point(g.originX + g.cosine * localX - g.sine * localY,
          g.originY + g.sine * localX + g.cosine * localY)
  }

  predicate IsFraction(u: real) { 0.0 <= u < 1.0 }

  lemma PointTurnsBack(g: Grid, c: Cell, u: real, v: real, lx: real, ly: real)
    requires Proper(g) && lx == (c.x as real + u) * g.resolution && ly == (c.y as real + v) * g.resolution
    ensures Local(g, PointIn(g, c, u, v)) == Point(lx, ly)
  {
    var p := PointIn(g, c, u, v);
    var dx, dy := g.cosine * lx - g.sine * ly, g.sine * lx + g.cosine * ly;
    assert p.x == g.originX + dx && p.y == g.originY + dy;
    LocalOfOffset(g, p, dx, dy);
    TurnBack(g.cosine, g.sine, lx, ly, dx, dy);
  }

  lemma IndexOfFraction(n: int, u: real, local: real, r: real)
    requires 0.0 < r && IsFraction(u) && local == (n as real + u) * r
    ensures Index(local, r) == n
  {
    DivideBack(n as real + u, r, local);
  }

  /** Every point of a cell's square is found in that cell, and in none when it is off the grid. */
  lemma PointsLieInTheirCell(g: Grid, c: Cell, u: real, v: real)
    requires Proper(g) && IsFraction(u) && IsFraction(v)
    ensures CellOf(g, PointIn(g, c, u, v)) == if 0 <= c.x < g.width && 0 <= c.y < g.height then Some(c) else None
  {
    var lx, ly := (c.x as real + u) * g.resolution, (c.y as real + v) * g.resolution;
    PointTurnsBack(g, c, u, v, lx, ly);
    IndexOfFraction(c.x, u, lx, g.resolution);
    IndexOfFraction(c.y, v, ly, g.resolution);
    assert Cell(c.x, c.y) == c;
  }

  /** The centre of a cell lies in that cell, whatever the origin and its rotation. */
  lemma CenterLiesInCell(g: Grid, c: Cell)
    requires Proper(g) && InGrid(g, c)
    ensures CellOf(g, Center(g, c)) == Some(c)
  {
    assert Center(g, c) == PointIn(g, c, 0.5, 0.5);
    PointsLieInTheirCell(g, c, 0.5, 0.5);
  }

  lemma FractionOf(local: real, r: real) returns (n: int, u: real)
    requires 0.0 < r
    ensures IsFraction(u) && local == (n as real + u) * r
  {
    n := (local / r).Floor;
    u := local / r - n as real;
    assert local == (local / r) * r;
  }

  /** Turning a vector back and then forth. */
  lemma TurnForth(c: real, s: real, dx: real, dy: real, x: real, y: real)
    requires c * c + s * s == 1.0 && x == c * dx + s * dy && y == -s * dx + c * dy
    ensures c * x - s * y == dx && s * x + c * y == dy
  {
    assert c * x - s * y == (c * c + s * s) * dx;
    assert s * x + c * y == (c * c + s * s) * dy;
  }

  /** Every point of the map lies in the square of some cell, on the grid or off it. */
  lemma EveryPointHasACell(g: Grid, p: Point) returns (c: Cell, u: real, v: real)
    requires Proper(g)
    ensures IsFraction(u) && IsFraction(v) && p == PointIn(g, c, u, v)
  {
    var dx, dy := p.x - g.originX, p.y - g.originY;
    var local := Local(g, p);
    var x, y;
    x, u := FractionOf(local.x, g.resolution);
    y, v := FractionOf(local.y, g.resolution);
    c := Cell(x, y);
    TurnForth(g.cosine, g.sine, dx, dy, local.x, local.y);
  }

  // ----- chains -----------------------------------------------------------------------

  function Neighbours(c: Cell): seq<Cell> {
    [Cell(c.x + 1, c.y), Cell(c.x, c.y + 1), Cell(c.x - 1, c.y), Cell(c.x, c.y - 1)]
  }

  /** The neighbours of a cell are the four that share an edge with it. */
  lemma NeighboursShareAnEdge(a: Cell, b: Cell)
    ensures b in Neighbours(a) <==>
              (a.x == b.x && (b.y - a.y == 1 || b.y - a.y == -1)) || (a.y == b.y && (b.x - a.x == 1 || b.x - a.x == -1))
  {
    var n := Neighbours(a);
    assert b in n <==> b == n[0] || b == n[1] || b == n[2] || b == n[3];
  }

  predicate Passable(g: Grid, c: Cell) {
    InGrid(g, c) && g.free(c)
  }

  predicate Link(g: Grid, path: seq<Cell>, i: nat)
    requires 0 < i < |path|
  {
    path[i] in Neighbours(path[i - 1]) && Passable(g, path[i])
  }

  /** A 4-connected chain whose cells after the first lie in the grid with known-free centres. */
  predicate Chain(g: Grid, first: Cell, path: seq<Cell>) {
    path != [] && path[0] == first && forall i | 0 < i < |path| :: Link(g, path, i)
  }

  predicate Joins(g: Grid, first: Cell, last: Cell, path: seq<Cell>) {
    Chain(g, first, path) && path[|path| - 1] == last
  }

  // ----- the queue --------------------------------------------------------------------

  datatype Item = Item(cost: nat, cell: Cell)

  /** Tuple order: by cost, then by the cell's coordinates. */
  predicate AtMost(a: Item, b: Item) {
    a.cost < b.cost
    || (a.cost == b.cost && (a.cell.x < b.cell.x || (a.cell.x == b.cell.x && a.cell.y <= b.cell.y)))
  }

  ghost predicate IsLeast(queue: multiset<Item>, item: Item) {
    item in queue && forall other | other in queue :: AtMost(item, other)
  }

  lemma {:induction false} LeastExists(queue: multiset<Item>) returns (least: Item)
    requires queue != multiset{}
    ensures IsLeast(queue, least)
    decreases |queue|
  {
    var some :| some in queue;
    var rest := queue - multiset{some};
    assert forall item | item in queue :: item == some || item in rest;
    if rest == multiset{} {
      least := some;
    } else {
      var other := LeastExists(rest);
      least := if AtMost(some, other) then some else other;
      assert other in queue;
      forall item | item in queue ensures AtMost(least, item) {
        assert item == some || AtMost(other, item);
      }
    }
  }

  method PopLeast(queue: multiset<Item>) returns (item: Item, rest: multiset<Item>)
    requires queue != multiset{}
    ensures IsLeast(queue, item) && rest == queue - multiset{item}
  {
    ghost var least := LeastExists(queue);
    item :| item in queue && forall other | other in queue :: AtMost(item, other);
    rest := queue - multiset{item};
  }

  // ----- the search -------------------------------------------------------------------

  /** Discovered cells with their distances and predecessors; `done` are those expanded. */
  ghost predicate Tree(g: Grid, first: Cell, distance: map<Cell, nat>, previous: map<Cell, Cell>, done: set<Cell>) {
    && first in distance && distance[first] == 0
    && done <= distance.Keys && previous.Keys == distance.Keys - {first}
    && (forall c | c in distance :: InGrid(g, c))
    && (forall c | c in previous ::
          previous[c] in done && c in Neighbours(previous[c]) && Passable(g, c)
          && distance[c] == distance[previous[c]] + 1)
  }

  /** The queue holds exactly the discovered cells not yet expanded, each once. */
  ghost predicate Frontier(distance: map<Cell, nat>, queue: multiset<Item>, done: set<Cell>) {
    forall item ::
      queue[item] == if item.cell in distance && item.cell !in done && item.cost == distance[item.cell] then 1 else 0
  }

  /** Expanded cells are no further than open ones, and open ones within one step of each other. */
  ghost predicate Layered(distance: map<Cell, nat>, done: set<Cell>) {
    && (forall c, d | c in done && c in distance && d in distance && d !in done :: distance[c] <= distance[d])
    && (forall c, d | c in distance && c !in done && d in distance && d !in done :: distance[c] <= distance[d] + 1)
  }

  ghost predicate Reached(distance: map<Cell, nat>, c: Cell, bound: nat) {
    c in distance && distance[c] <= bound
  }

  ghost predicate ExpandedCell(g: Grid, distance: map<Cell, nat>, c: Cell)
    requires c in distance
  {
    forall n | n in Neighbours(c) && Passable(g, n) :: Reached(distance, n, distance[c] + 1)
  }

  ghost predicate Expanded(g: Grid, distance: map<Cell, nat>, done: set<Cell>) {
    forall c | c in done && c in distance :: ExpandedCell(g, distance, c)
  }

  ghost predicate Searching(g: Grid, first: Cell, distance: map<Cell, nat>, previous: map<Cell, Cell>,
                            queue: multiset<Item>, done: set<Cell>) {
    && Tree(g, first, distance, previous, done) && Frontier(distance, queue, done)
    && Layered(distance, done) && Expanded(g, distance, done)
  }

  /** Every chain is accounted for: its end is discovered at no more than its length, or some
      open cell is nearer than its length. */
  lemma {:induction false} ChainIsCovered(g: Grid, first: Cell, distance: map<Cell, nat>, previous: map<Cell, Cell>,
                                          queue: multiset<Item>, done: set<Cell>, path: seq<Cell>)
    requires Searching(g, first, distance, previous, queue, done) && Chain(g, first, path)
    ensures Reached(distance, path[|path| - 1], |path| - 1)
            || exists item :: item in queue && item.cost < |path| - 1
  {
    var n := |path| - 1;
    if n > 0 {
      var front := path[..n];
      assert forall i | 0 < i < n :: Link(g, front, i) == Link(g, path, i);
      assert Link(g, path, n);
      ChainIsCovered(g, first, distance, previous, queue, done, front);
      var u := path[n - 1];
      assert front[|front| - 1] == u;
      if Reached(distance, u, n - 1) {
        if u in done {
          assert ExpandedCell(g, distance, u);
        } else {
          assert queue[Item(distance[u], u)] == 1;
        }
      }
    }
  }

  /** Looks at the four neighbours of a popped cell; `cost` is its distance, the least open one. */
  method Expand(g: Grid, first: Cell, cell: Cell, cost: nat, distance0: map<Cell, nat>, previous0: map<Cell, Cell>,
                queue0: multiset<Item>, ghost done: set<Cell>)
    returns (distance: map<Cell, nat>, previous: map<Cell, Cell>, queue: multiset<Item>)
    requires Tree(g, first, distance0, previous0, done) && Frontier(distance0, queue0, done)
    requires Expanded(g, distance0, done - {cell}) && cell in done && distance0[cell] == cost
    requires forall c | c in distance0 :: if c in done then distance0[c] <= cost else cost <= distance0[c] <= cost + 1
    ensures Searching(g, first, distance, previous, queue, done)
  {
    distance, previous, queue := distance0, previous0, queue0;
    for k := 0 to 4
      invariant Tree(g, first, distance, previous, done) && Frontier(distance, queue, done)
      invariant Expanded(g, distance, done - {cell}) && distance[cell] == cost
      invariant forall c | c in distance :: if c in done then distance[c] <= cost else cost <= distance[c] <= cost + 1
      invariant forall j | 0 <= j < k ::
                  Passable(g, Neighbours(cell)[j]) ==> Reached(distance, Neighbours(cell)[j], cost + 1)
    {
      var neighbour := Neighbours(cell)[k];
      if neighbour !in distance && InGrid(g, neighbour) {
        if g.free(neighbour) {
          Discover(g, first, distance, previous, queue, done, cell, neighbour);
          distance := distance[neighbour := cost + 1];
          previous := previous[neighbour := cell];
          queue := queue + multiset{Item(cost + 1, neighbour)};
        }
      }
    }
    assert forall n | n in Neighbours(cell) :: exists j :: 0 <= j < 4 && Neighbours(cell)[j] == n;
  }

  lemma Discover(g: Grid, first: Cell, distance: map<Cell, nat>, previous: map<Cell, Cell>, queue: multiset<Item>,
                 done: set<Cell>, cell: Cell, neighbour: Cell)
    requires Tree(g, first, distance, previous, done) && Frontier(distance, queue, done)
    requires Expanded(g, distance, done - {cell}) && cell in done
    requires neighbour !in distance && neighbour in Neighbours(cell) && Passable(g, neighbour)
    ensures var cost := distance[cell] + 1;
            && Tree(g, first, distance[neighbour := cost], previous[neighbour := cell], done)
            && Frontier(distance[neighbour := cost], queue + multiset{Item(cost, neighbour)}, done)
            && Expanded(g, distance[neighbour := cost], done - {cell})
  {
    var cost := distance[cell] + 1;
    var grown := distance[neighbour := cost];
    forall c | c in done - {cell} && c in grown ensures ExpandedCell(g, grown, c) {
      assert ExpandedCell(g, distance, c);
      forall n | n in Neighbours(c) && Passable(g, n) ensures Reached(grown, n, grown[c] + 1) {
        assert Reached(distance, n, distance[c] + 1);
      }
    }
  }

  datatype Found = NoConnection | Path(cells: seq<Cell>)

  /** The search itself: a shortest chain if there is one, and `NoConnection` only if none. */
  method Search(g: Grid, first: Cell, last: Cell) returns (found: Found)
    requires InGrid(g, first)
    ensures found.Path? ==> Joins(g, first, last, found.cells)
                            && forall other | Joins(g, first, last, other) :: |found.cells| <= |other|
    ensures found.NoConnection? ==> forall other :: !Joins(g, first, last, other)
  {
    var queue := multiset{Item(0, first)};
    var distance: map<Cell, nat> := map[first := 0];
    var previous: map<Cell, Cell> := map[];
    ghost var done: set<Cell> := {};
    ghost var all := set x, y | 0 <= x < g.width && 0 <= y < g.height :: Cell(x, y);
    while queue != multiset{}
      invariant Searching(g, first, distance, previous, queue, done)
      invariant last !in done && done <= all
      decreases all - done
    {
      var item, rest := PopLeast(queue);
      // The program skips an entry whose cost is out of date; no entry ever is.
      Popped(g, first, distance, previous, queue, done, item);
      assert item.cost == distance[item.cell];
      if item.cell == last {
        NearestIsShortest(g, first, last, distance, previous, queue, done);
        var path := Rebuild(g, first, item.cell, distance, previous, done);
        return Path(path);
      }
      assert item.cell in all;
      done := done + {item.cell};
      distance, previous, queue := Expand(g, first, item.cell, item.cost, distance, previous, rest, done);
    }
    NothingLeft(g, first, last, distance, previous, queue, done);
    return NoConnection;
  }

  /** Once nothing is open, every chain's end has been expanded. */
  lemma NothingLeft(g: Grid, first: Cell, last: Cell, distance: map<Cell, nat>, previous: map<Cell, Cell>,
                    queue: multiset<Item>, done: set<Cell>)
    requires Searching(g, first, distance, previous, queue, done) && queue == multiset{} && last !in done
    ensures forall path :: !Joins(g, first, last, path)
  {
    forall c | c in distance ensures c in done {
      assert queue[Item(distance[c], c)] == 0;
    }
    forall path ensures !Joins(g, first, last, path) {
      if Joins(g, first, last, path) {
        ChainIsCovered(g, first, distance, previous, queue, done, path);
      }
    }
  }

  /** When the least open cell is the goal, no chain to it is shorter than its distance. */
  lemma NearestIsShortest(g: Grid, first: Cell, last: Cell, distance: map<Cell, nat>, previous: map<Cell, Cell>,
                          queue: multiset<Item>, done: set<Cell>)
    requires Searching(g, first, distance, previous, queue, done)
    requires last in distance && IsLeast(queue, Item(distance[last], last))
    ensures forall path | Joins(g, first, last, path) :: distance[last] + 1 <= |path|
  {
    forall path | Joins(g, first, last, path) ensures distance[last] + 1 <= |path| {
      ChainIsCovered(g, first, distance, previous, queue, done, path);
    }
  }

  lemma Popped(g: Grid, first: Cell, distance: map<Cell, nat>, previous: map<Cell, Cell>,
               queue: multiset<Item>, done: set<Cell>, item: Item)
    requires Searching(g, first, distance, previous, queue, done) && IsLeast(queue, item)
    ensures item.cell in distance && item.cell !in done && distance[item.cell] == item.cost && InGrid(g, item.cell)
    ensures Tree(g, first, distance, previous, done + {item.cell})
    ensures Frontier(distance, queue - multiset{item}, done + {item.cell})
    ensures Expanded(g, distance, done + {item.cell} - {item.cell})
    ensures forall c | c in distance ::
              if c in done + {item.cell} then distance[c] <= item.cost else item.cost <= distance[c] <= item.cost + 1
  {
    assert queue[item] == 1;
    assert done + {item.cell} - {item.cell} == done;
    forall c | c in distance && c !in done ensures item.cost <= distance[c] {
      assert queue[Item(distance[c], c)] == 1;
    }
  }

  function Reversed(s: seq<Cell>): (r: seq<Cell>)
    ensures |r| == |s| && forall i | 0 <= i < |s| :: r[i] == s[|s| - 1 - i]
  {
    if s == [] then [] else Reversed(s[1..]) + [s[0]]
  }

  predicate BackLink(g: Grid, back: seq<Cell>, i: nat)
    requires 0 < i < |back|
  {
    back[i - 1] in Neighbours(back[i]) && Passable(g, back[i - 1])
  }

  /** Follows the predecessors back to the start: as many cells as the distance, and one. */
  method Rebuild(g: Grid, first: Cell, cell: Cell, ghost distance: map<Cell, nat>, previous: map<Cell, Cell>,
                 ghost done: set<Cell>) returns (path: seq<Cell>)
    requires Tree(g, first, distance, previous, done) && cell in distance
    ensures Joins(g, first, cell, path) && |path| == distance[cell] + 1
  {
    var back := [cell];
    while back[|back| - 1] != first
      invariant back != [] && back[0] == cell && back[|back| - 1] in distance
      invariant distance[back[|back| - 1]] + |back| == distance[cell] + 1
      invariant forall i | 0 < i < |back| :: BackLink(g, back, i)
      decreases distance[back[|back| - 1]]
    {
      back := Extend(g, back, previous[back[|back| - 1]]);
    }
    path := Reversed(back);
    forall i | 0 < i < |path| ensures Link(g, path, i) {
      assert BackLink(g, back, |back| - i);
    }
  }

  method Extend(g: Grid, back: seq<Cell>, next: Cell) returns (longer: seq<Cell>)
    requires back != [] && (forall i | 0 < i < |back| :: BackLink(g, back, i))
    requires back[|back| - 1] in Neighbours(next) && Passable(g, back[|back| - 1])
    ensures longer == back + [next] && forall i | 0 < i < |longer| :: BackLink(g, longer, i)
  {
    longer := back + [next];
    forall i | 0 < i < |longer| ensures BackLink(g, longer, i) {
      assert i < |back| ==> BackLink(g, back, i);
    }
  }

  // ----- the whole probe --------------------------------------------------------------

  datatype RouteCheck = RouteValid | RouteRejected | RouteFailed

  /** The caller's inputs. The pins, the annotation revision and the transform authorities are
      given by whether they match; the two known-free answers are those at the exact points; `None`
      is a number that is missing or not finite. */
  datatype Inputs = Inputs(
    lineageMatches: bool, annotationsMatch: bool, authoritiesMatch: bool,
    poseAge: Option<real>, maxPoseAge: Option<real>, robotRadius: Option<real>,
    start: seq<Option<real>>, goal: seq<Option<real>>, startFree: bool, goalFree: bool)

  /** Two finite coordinates. */
  function PointOf(p: seq<Option<real>>): Option<Point> {
    if |p| == 2 && p[0].Some? && p[1].Some? then Some(Point(p[0].value, p[1].value)) else None
  }

  datatype Reason =
    | MapTooLarge | MapLineageMismatch | AnnotationMismatch | TransformsConflicting
    | PoseMissingOrStale | InvalidFootprint
    | StartInvalid | StartOutsideMap | StartNotKnownFree | GoalInvalid | GoalOutsideMap | GoalNotKnownFree
    | RouteValidationFailed | RouteConstraintRejected | NoKnownFreeConnection | Connected

  datatype ProbeResult = ProbeResult(reachable: bool, reason: Reason, path: seq<Cell>)

  /** The first check that fails, in the order they are made. */
  function Refusal(g: Grid, i: Inputs): Option<Reason>
    requires g.resolution != 0.0
  {
    if g.width * g.height > MAX_CELLS then Some(MapTooLarge)
    else if !i.lineageMatches then Some(MapLineageMismatch)
    else if !i.annotationsMatch then Some(AnnotationMismatch)
    else if !i.authoritiesMatch then Some(TransformsConflicting)
    else if i.poseAge.None? || i.poseAge.value < 0.0 || i.maxPoseAge.None? || i.maxPoseAge.value <= 0.0
            || i.poseAge.value > i.maxPoseAge.value then
      Some(PoseMissingOrStale)
    else if i.robotRadius.None? || i.robotRadius.value <= 0.0 then Some(InvalidFootprint)
    else if PointOf(i.start).None? then Some(StartInvalid)
    else if CellOf(g, PointOf(i.start).value).None? then Some(StartOutsideMap)
    else if !i.startFree then Some(StartNotKnownFree)
    else if PointOf(i.goal).None? then Some(GoalInvalid)
    else if CellOf(g, PointOf(i.goal).value).None? then Some(GoalOutsideMap)
    else if !i.goalFree then Some(GoalNotKnownFree)
    else None
  }

  // ----- the checks in their order ------------------------------------------------------

  lemma PointIsExact(p: seq<Option<real>>, q: Point)
    ensures PointOf(p) == Some(q) <==> p == [Some(q.x), Some(q.y)]
  {
    if |p| == 2 { assert p == [p[0], p[1]]; }
  }

  /** The point lies in the square of some cell of the grid. */
  ghost predicate OnMap(g: Grid, q: Point) {
    exists c: Cell, u: real, v: real :: InGrid(g, c) && IsFraction(u) && IsFraction(v) && q == PointIn(g, c, u, v)
  }

  lemma OnMapExactly(g: Grid, q: Point)
    requires Proper(g)
    ensures CellOf(g, q).Some? <==> OnMap(g, q)
  {
    var c, u, v := EveryPointHasACell(g, q);
    PointsLieInTheirCell(g, c, u, v);
    if OnMap(g, q) {
      var d: Cell, s: real, t: real :| InGrid(g, d) && IsFraction(s) && IsFraction(t) && q == PointIn(g, d, s, t);
      PointsLieInTheirCell(g, d, s, t);
    }
  }

  datatype Demand = Demand(met: bool, reason: Reason)

  /** What is asked before the search, in order. */
  ghost function Demands(g: Grid, i: Inputs): seq<Demand> {
    [Demand(g.width * g.height <= 100_000, MapTooLarge),
     Demand(i.lineageMatches, MapLineageMismatch),
     Demand(i.annotationsMatch, AnnotationMismatch),
     Demand(i.authoritiesMatch, TransformsConflicting),
     Demand(i.poseAge.Some? && i.maxPoseAge.Some? && 0.0 < i.maxPoseAge.value
            && 0.0 <= i.poseAge.value <= i.maxPoseAge.value, PoseMissingOrStale),
     Demand(i.robotRadius.Some? && i.robotRadius.value > 0.0, InvalidFootprint),
     Demand(PointOf(i.start).Some?, StartInvalid),
     Demand(PointOf(i.start).Some? && OnMap(g, PointOf(i.start).value), StartOutsideMap),
     Demand(i.startFree, StartNotKnownFree),
     Demand(PointOf(i.goal).Some?, GoalInvalid),
     Demand(PointOf(i.goal).Some? && OnMap(g, PointOf(i.goal).value), GoalOutsideMap),
     Demand(i.goalFree, GoalNotKnownFree)]
  }

  predicate MetBefore(demands: seq<Demand>, n: nat)
    requires n <= |demands|
  {
    forall k :: 0 <= k < n ==> demands[k].met
  }

  lemma EachMet(demands: seq<Demand>, n: nat)
    requires |demands| == 12
    ensures n <= 12 && MetBefore(demands, n) ==>
              && (0 < n ==> demands[0].met) && (1 < n ==> demands[1].met) && (2 < n ==> demands[2].met)
              && (3 < n ==> demands[3].met) && (4 < n ==> demands[4].met) && (5 < n ==> demands[5].met)
              && (6 < n ==> demands[6].met) && (7 < n ==> demands[7].met) && (8 < n ==> demands[8].met)
              && (9 < n ==> demands[9].met) && (10 < n ==> demands[10].met) && (11 < n ==> demands[11].met)
  {}

  /** The first demand that is not met is the reason of the refusal; with none left there is none. */
  lemma FirstUnmetRefuses(g: Grid, i: Inputs, n: nat)
    requires Proper(g)
    ensures n < |Demands(g, i)| && MetBefore(Demands(g, i), n) && !Demands(g, i)[n].met ==>
              Refusal(g, i) == Some(Demands(g, i)[n].reason)
    ensures MetBefore(Demands(g, i), |Demands(g, i)|) ==> Refusal(g, i).None?
  {
    if PointOf(i.start).Some? { OnMapExactly(g, PointOf(i.start).value); }
    if PointOf(i.goal).Some? { OnMapExactly(g, PointOf(i.goal).value); }
    EachMet(Demands(g, i), n);
    EachMet(Demands(g, i), 12);
  }

  function Reject(reason: Reason): ProbeResult { ProbeResult(false, reason, []) }

  /** The answer is exact: connected with a shortest chain that passes the route check,
      refused by that check, or proof that no chain exists. */
  method ProbeConnectivity(g: Grid, i: Inputs, validate: seq<Cell> -> RouteCheck) returns (r: ProbeResult)
    requires Proper(g)
    ensures Refusal(g, i).Some? ==> r == ProbeResult(false, Refusal(g, i).value, [])
    ensures Refusal(g, i).None? ==>
              var first, last := CellOf(g, PointOf(i.start).value).value, CellOf(g, PointOf(i.goal).value).value;
              if exists path :: Joins(g, first, last, path) then
                exists path :: Joins(g, first, last, path)
                  && (forall other | Joins(g, first, last, other) :: |path| <= |other|)
                  && r == match validate(path)
                          case RouteValid => ProbeResult(true, Connected, path)
                          case RouteRejected => ProbeResult(false, RouteConstraintRejected, [])
                          case RouteFailed => ProbeResult(false, RouteValidationFailed, [])
              else r == ProbeResult(false, NoKnownFreeConnection, [])
  {
    var refusal := Refusal(g, i);
    if refusal.Some? {
      return Reject(refusal.value);
    }
    var first, last := CellOf(g, PointOf(i.start).value).value, CellOf(g, PointOf(i.goal).value).value;
    var found := Search(g, first, last);
    if found.NoConnection? {
      return Reject(NoKnownFreeConnection);
    }
    match validate(found.cells) {
      case RouteFailed => return Reject(RouteValidationFailed);
      case RouteRejected => return Reject(RouteConstraintRejected);
      case RouteValid => return ProbeResult(true, Connected, found.cells);
    }
  }
}
