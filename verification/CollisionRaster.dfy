/** Building the mask artifact: admission of the keep-out polygons, the pruned raster, and
    the image rows a map server reads back. */
module CollisionRaster {
  import opened Wire
  import opened CollisionMask

  datatype ZoneKind = KeepOut | SlowZone | WaitZone

  /** An annotated polygon in map coordinates. `finite` says that its transform to the grid did
      not overflow, `simple` is the verdict of the polygon checks (area, repeated vertices,
      self-intersection). */
  datatype Zone = Zone(kind: ZoneKind, vertices: seq<Point>, finite: bool, simple: bool)

  /** What the checks of the pins and of the annotation document found. */
  datatype Papers = Papers(familyMatches: bool, frameValid: bool, revisionGiven: bool,
                           annotationsParse: bool, revisionMatches: bool)

  /** The occupancy grid's geometry; yaw is given by its cosine and sine. */
  datatype Frame = Frame(width: int, height: int, resolution: real, originX: real, originY: real,
                         cosine: real, sine: real)

  datatype MaskError =
    | FamilyMismatch | TooManyCells | InvalidFrame | RevisionMissing | InvalidAnnotations | RevisionMismatch
    | IllConditioned | NonFiniteTransform | NotSimple | TooMuchWork

  datatype Raster = Raster(vertices: seq<Point>, box: Box)

  datatype Artifact = Artifact(mask: seq<int>, rows: seq<int>)

  predicate InGrid(f: Frame, x: int, y: int) {
    0 <= x < f.width && 0 <= y < f.height
  }

  predicate Proper(f: Frame, zones: seq<Zone>) {
    && 1 <= f.width && 1 <= f.height && 0.0 < f.resolution
    && forall k :: 0 <= k < |zones| ==> |zones[k].vertices| >= 3
  }

  // ----- admission ----------------------------------------------------------------------

  function ToGrid(f: Frame, v: Point): Point
    requires f.resolution != 0.0
  {
    var dx, dy := v.x - f.originX, v.y - f.originY;
    Point((f.cosine * dx + f.sine * dy) / f.resolution, (-f.sine * dx + f.cosine * dy) / f.resolution)
  }

  function GridVertices(f: Frame, z: Zone): (vs: seq<Point>)
    requires f.resolution != 0.0
    ensures |vs| == |z.vertices|
  {
    seq(|z.vertices|, i requires 0 <= i < |z.vertices| => ToGrid(f, z.vertices[i]))
  }

  function RasterOf(f: Frame, z: Zone, epsilon: real): Raster
    requires f.resolution != 0.0 && |z.vertices| > 0
  {
    var vs := GridVertices(f, z);
    Raster(vs, BoxOf(vs, f.width, f.height, epsilon))
  }

  function Cost(r: Raster): int {
    (r.box.x1 - r.box.x0 + 1) * (r.box.y1 - r.box.y0 + 1) * |r.vertices|
  }

  /** The keep-out polygons among the first `k` zones, in order. */
  function KeepOuts(f: Frame, zones: seq<Zone>, epsilon: real, k: nat): seq<Raster>
    requires k <= |zones| && Proper(f, zones)
  {
    if k == 0 then []
    else if zones[k - 1].kind.KeepOut? then
      KeepOuts(f, zones, epsilon, k - 1) + [RasterOf(f, zones[k - 1], epsilon)]
    else KeepOuts(f, zones, epsilon, k - 1)
  }

  function TotalCost(rs: seq<Raster>): int {
    if rs == [] then 0 else TotalCost(rs[..|rs| - 1]) + Cost(rs[|rs| - 1])
  }

  /** The first complaint against the first `k` zones. */
  function Complaint(f: Frame, zones: seq<Zone>, epsilon: real, k: nat): Option<MaskError>
    requires k <= |zones| && Proper(f, zones)
  {
    if k == 0 then None
    else
      var earlier := Complaint(f, zones, epsilon, k - 1);
      if earlier.Some? then earlier
      else if !zones[k - 1].kind.KeepOut? then None
      else if !zones[k - 1].finite then Some(NonFiniteTransform)
      else if !zones[k - 1].simple then Some(NotSimple)
      else if TotalCost(KeepOuts(f, zones, epsilon, k)) > MAX_RASTER_WORK then Some(TooMuchWork)
      else None
  }

  /** The first check that fails, in the order they are made. */
  function Refusal(f: Frame, papers: Papers, zones: seq<Zone>, epsilon: real): Option<MaskError>
    requires Proper(f, zones)
  {
    if !papers.familyMatches then Some(FamilyMismatch)
    else if f.width * f.height > MAX_CELLS then Some(TooManyCells)
    else if !papers.frameValid then Some(InvalidFrame)
    else if !papers.revisionGiven then Some(RevisionMissing)
    else if !papers.annotationsParse then Some(InvalidAnnotations)
    else if !papers.revisionMatches then Some(RevisionMismatch)
    else if epsilon > 0.001 then Some(IllConditioned)
    else Complaint(f, zones, epsilon, |zones|)
  }

  // ----- the checks in their order -------------------------------------------------------

  datatype Demand = Demand(met: bool, error: MaskError)

  /** What is asked before the zones are looked at, in order. */
  function Demands(f: Frame, papers: Papers, epsilon: real): seq<Demand> {
    [Demand(papers.familyMatches, FamilyMismatch),
     Demand(f.width * f.height <= MAX_CELLS, TooManyCells),
     Demand(papers.frameValid, InvalidFrame),
     Demand(papers.revisionGiven, RevisionMissing),
     Demand(papers.annotationsParse, InvalidAnnotations),
     Demand(papers.revisionMatches, RevisionMismatch),
     Demand(epsilon <= 0.001, IllConditioned)]
  }

  predicate MetBefore(demands: seq<Demand>, n: nat)
    requires n <= |demands|
  {
    forall k :: 0 <= k < n ==> demands[k].met
  }

  lemma EachMet(demands: seq<Demand>, n: nat)
    requires |demands| == 7
    ensures n <= 7 && MetBefore(demands, n) ==>
              && (0 < n ==> demands[0].met) && (1 < n ==> demands[1].met) && (2 < n ==> demands[2].met)
              && (3 < n ==> demands[3].met) && (4 < n ==> demands[4].met) && (5 < n ==> demands[5].met)
              && (6 < n ==> demands[6].met)
  {}

  /** The first demand that is not met is the refusal; with all met the zones decide. */
  lemma FirstUnmetRefuses(f: Frame, papers: Papers, zones: seq<Zone>, epsilon: real, n: nat)
    requires Proper(f, zones)
    ensures var asked := Demands(f, papers, epsilon);
            && (n < |asked| && MetBefore(asked, n) && !asked[n].met ==>
                  Refusal(f, papers, zones, epsilon) == Some(asked[n].error))
            && (MetBefore(asked, |asked|) ==>
                  Refusal(f, papers, zones, epsilon) == Complaint(f, zones, epsilon, |zones|))
  {
    EachMet(Demands(f, papers, epsilon), n);
    EachMet(Demands(f, papers, epsilon), 7);
  }

  /** Nothing is wrong with a zone: it is no keep-out zone, or it is finite and simple and the work
      up to it, its own included, stays within the limit. */
  predicate Fine(f: Frame, zones: seq<Zone>, epsilon: real, i: nat)
    requires i < |zones| && Proper(f, zones)
  {
    zones[i].kind.KeepOut? ==>
      && zones[i].finite && zones[i].simple
      && TotalCost(KeepOuts(f, zones, epsilon, i + 1)) <= MAX_RASTER_WORK
  }

  function Objection(z: Zone): MaskError {
    if !z.finite then NonFiniteTransform else if !z.simple then NotSimple else TooMuchWork
  }

  /** The zones are refused for the first one something is wrong with, and for nothing else. */
  lemma {:induction false} FirstObjection(f: Frame, zones: seq<Zone>, epsilon: real, n: nat, i: nat)
    requires n <= |zones| && Proper(f, zones) && i <= n
    requires forall j: nat | j < i :: Fine(f, zones, epsilon, j)
    ensures i == n ==> Complaint(f, zones, epsilon, n).None?
    ensures i < n && !Fine(f, zones, epsilon, i) ==> Complaint(f, zones, epsilon, n) == Some(Objection(zones[i]))
  {
    if n > 0 {
      FirstObjection(f, zones, epsilon, n - 1, if i < n then i else n - 1);
      if i == n {
        assert Fine(f, zones, epsilon, n - 1);
      }
    }
  }

  /** The edge tests of the first `columns` cells of a row, and of the first `rows` rows. */
  function RowTests(r: Raster, columns: nat): nat {
    if columns == 0 then 0 else RowTests(r, columns - 1) + |r.vertices|
  }

  function Tests(r: Raster, rows: nat, columns: nat): nat {
    if rows == 0 then 0 else Tests(r, rows - 1, columns) + RowTests(r, columns)
  }

  lemma {:induction false} RowTestsMultiply(r: Raster, columns: nat)
    ensures RowTests(r, columns) == columns * |r.vertices|
  {
    if columns > 0 {
      RowTestsMultiply(r, columns - 1);
    }
  }

  lemma {:induction false} TestsMultiply(r: Raster, rows: nat, columns: nat, row: nat)
    requires row == RowTests(r, columns)
    ensures Tests(r, rows, columns) == rows * row
  {
    if rows > 0 {
      TestsMultiply(r, rows - 1, columns, row);
    }
  }

  /** The cost is the number of edge tests the loops over the polygon's box make. */
  lemma CostCountsTests(r: Raster)
    requires r.box.x0 <= r.box.x1 + 1 && r.box.y0 <= r.box.y1 + 1
    ensures Cost(r) == Tests(r, r.box.y1 + 1 - r.box.y0, r.box.x1 + 1 - r.box.x0)
  {
    var rows, columns, n := r.box.y1 + 1 - r.box.y0, r.box.x1 + 1 - r.box.x0, |r.vertices|;
    RowTestsMultiply(r, columns);
    TestsMultiply(r, rows, columns, RowTests(r, columns));
    assert rows * (columns * n) == (columns * rows) * n;
  }

  ghost predicate ComesFrom(f: Frame, z: Zone, epsilon: real, r: Raster) {
    f.resolution != 0.0 && |z.vertices| > 0 && z.kind.KeepOut? && r == RasterOf(f, z, epsilon)
  }

  lemma {:induction false} KeepOutHasAZone(f: Frame, zones: seq<Zone>, epsilon: real, k: nat, r: Raster)
    returns (i: nat)
    requires k <= |zones| && Proper(f, zones) && r in KeepOuts(f, zones, epsilon, k)
    ensures i < k && ComesFrom(f, zones[i], epsilon, r)
  {
    if r in KeepOuts(f, zones, epsilon, k - 1) {
      i := KeepOutHasAZone(f, zones, epsilon, k - 1, r);
    } else {
      i := k - 1;
    }
  }

  lemma {:induction false} ZoneIsKeptOut(f: Frame, zones: seq<Zone>, epsilon: real, k: nat, r: Raster, i: nat)
    requires i < k <= |zones| && Proper(f, zones) && ComesFrom(f, zones[i], epsilon, r)
    ensures r in KeepOuts(f, zones, epsilon, k)
  {
    if i < k - 1 {
      ZoneIsKeptOut(f, zones, epsilon, k - 1, r, i);
    }
  }

  /** The admitted polygons are those of the keep-out zones, all of them and no others. */
  lemma KeepOutsAreTheZones(f: Frame, zones: seq<Zone>, epsilon: real, k: nat, r: Raster)
    requires k <= |zones| && Proper(f, zones)
    ensures r in KeepOuts(f, zones, epsilon, k) <==>
              exists i :: 0 <= i < k && ComesFrom(f, zones[i], epsilon, r)
  {
    if r in KeepOuts(f, zones, epsilon, k) {
      var i := KeepOutHasAZone(f, zones, epsilon, k, r);
    }
    if i :| 0 <= i < k && ComesFrom(f, zones[i], epsilon, r) {
      ZoneIsKeptOut(f, zones, epsilon, k, r, i);
    }
  }

  lemma CostGrows(rs: seq<Raster>, r: Raster)
    ensures TotalCost(rs + [r]) == TotalCost(rs) + Cost(r)
  {
    assert (rs + [r])[..|rs|] == rs;
  }

  method AdmitZones(f: Frame, zones: seq<Zone>, epsilon: real) returns (r: Result<seq<Raster>, MaskError>)
    requires Proper(f, zones)
    ensures match Complaint(f, zones, epsilon, |zones|)
            case Some(e) => r == Err(e)
            case None => r == Ok(KeepOuts(f, zones, epsilon, |zones|))
  {
    var polygons: seq<Raster> := [];
    var work := 0;
    var k := 0;
    while k < |zones|
      invariant 0 <= k <= |zones|
      invariant Complaint(f, zones, epsilon, k).None?
      invariant polygons == KeepOuts(f, zones, epsilon, k)
      invariant work == TotalCost(polygons)
    {
      if zones[k].kind.KeepOut? {
        var error;
        error, polygons, work := AdmitZone(f, zones, epsilon, k, polygons, work);
        if error.Some? {
          ComplaintStays(f, zones, epsilon, k + 1, |zones|);
          return Err(error.value);
        }
      }
      k := k + 1;
    }
    return Ok(polygons);
  }

  /** One keep-out zone added to those before it, unless it is refused. */
  method AdmitZone(f: Frame, zones: seq<Zone>, epsilon: real, k: nat, before: seq<Raster>, spent: int)
    returns (error: Option<MaskError>, polygons: seq<Raster>, work: int)
    requires Proper(f, zones) && k < |zones| && zones[k].kind.KeepOut? && Complaint(f, zones, epsilon, k).None?
    requires before == KeepOuts(f, zones, epsilon, k) && spent == TotalCost(before)
    ensures error == Complaint(f, zones, epsilon, k + 1)
    ensures error.None? ==> polygons == KeepOuts(f, zones, epsilon, k + 1) && work == TotalCost(polygons)
  {
    var polygon := RasterOf(f, zones[k], epsilon);
    polygons, work := before + [polygon], spent + Cost(polygon);
    CostGrows(before, polygon);
    if !zones[k].finite {
      return Some(NonFiniteTransform), polygons, work;
    }
    if !zones[k].simple {
      return Some(NotSimple), polygons, work;
    }
    if work > MAX_RASTER_WORK {
      return Some(TooMuchWork), polygons, work;
    }
    return None, polygons, work;
  }

  lemma {:induction false} ComplaintStays(f: Frame, zones: seq<Zone>, epsilon: real, k: nat, n: nat)
    requires k <= n <= |zones| && Proper(f, zones) && Complaint(f, zones, epsilon, k).Some?
    ensures Complaint(f, zones, epsilon, n) == Complaint(f, zones, epsilon, k)
  {
    if k < n {
      ComplaintStays(f, zones, epsilon, k, n - 1);
    }
  }

  // ----- which cells are blocked ------------------------------------------------------------

  ghost predicate Hits(r: Raster, x: int, y: int, epsilon: real) {
    AnyEdgeMeets(r.vertices, x, y, epsilon) || Inside(r.vertices, Middle(x, y))
  }

  /** What the raster marks for one polygon: cells of its box that it hits. */
  ghost predicate Marks(r: Raster, x: int, y: int, epsilon: real) {
    InBox(r.box, x, y) && Hits(r, x, y, epsilon)
  }

  ghost predicate Marked(rs: seq<Raster>, n: nat, x: int, y: int, epsilon: real)
    requires n <= |rs|
  {
    exists k :: 0 <= k < n && Marks(rs[k], x, y, epsilon)
  }

  // ----- cell numbering -----------------------------------------------------------------------

  function Index(f: Frame, x: int, y: int): int {
    y * f.width + x
  }

  lemma Multiple(u: int, w: int)
    requires 0 <= u && 0 <= w
    ensures 0 <= u * w
  {}

  lemma Expand(a: int, b: int, w: int)
    ensures (a - b) * w == a * w - b * w
  {}

  lemma RowsFit(width: int, height: int, x: int, y: int)
    requires 0 <= x < width && 0 <= y < height
    ensures 0 <= y * width + x < width * height
  {
    Multiple(y, width);
    Multiple(height - (y + 1), width);
    Expand(height, y + 1, width);
    Expand(y + 1, y, width);
  }

  lemma IndexInRange(f: Frame, x: int, y: int)
    requires InGrid(f, x, y)
    ensures 0 <= Index(f, x, y) < f.width * f.height
  {
    RowsFit(f.width, f.height, x, y);
  }

  /** Quotient and remainder are determined by their value. */
  lemma SameSplit(w: int, q: int, m: int, y: int, x: int)
    requires 0 <= m < w && 0 <= x < w && q * w + m == y * w + x
    ensures q == y && m == x
  {
    if q > y {
      Multiple(q - (y + 1), w);
      Expand(q, y + 1, w);
      Expand(y + 1, y, w);
    } else if q < y {
      Multiple(y - (q + 1), w);
      Expand(y, q + 1, w);
      Expand(q + 1, q, w);
    }
  }

  lemma RowAndColumn(width: int, x: int, y: int)
    requires 0 <= x < width && 0 <= y
    ensures (y * width + x) / width == y && (y * width + x) % width == x
  {
    var i := y * width + x;
    SameSplit(width, i / width, i % width, y, x);
  }

  lemma IndexSplits(f: Frame, x: int, y: int)
    requires InGrid(f, x, y)
    ensures Index(f, x, y) / f.width == y && Index(f, x, y) % f.width == x
  {
    RowAndColumn(f.width, x, y);
  }

  lemma QuotientInRange(w: int, h: int, q: int, m: int)
    requires 0 <= m < w && 0 <= q * w + m < w * h
    ensures 0 <= q < h
  {
    if q < 0 {
      Multiple(-1 - q, w);
      Expand(-1, q, w);
    } else if q >= h {
      Multiple(q - h, w);
      Expand(q, h, w);
    }
  }

  /** Every index is some cell's. */
  lemma IndexCovers(f: Frame, i: int)
    requires 1 <= f.width && 0 <= i < f.width * f.height
    ensures InGrid(f, i % f.width, i / f.width) && Index(f, i % f.width, i / f.width) == i
  {
    QuotientInRange(f.width, f.height, i / f.width, i % f.width);
  }

  // ----- the raster ------------------------------------------------------------------------------

  /** Cells the loops have passed when they stand at row `y`, column `x` of a box. */
  predicate Passed(b: Box, cx: int, cy: int, x: int, y: int) {
    InBox(b, cx, cy) && (cy < y || (cy == y && cx < x))
  }

  ghost predicate Dark(rs: seq<Raster>, n: nat, source: seq<int>, f: Frame, cx: int, cy: int, epsilon: real)
    requires n <= |rs| && |source| == f.width * f.height && InGrid(f, cx, cy)
  {
    IndexInRange(f, cx, cy);
    source[Index(f, cx, cy)] != 0 || Marked(rs, n, cx, cy, epsilon)
  }

  function Shade(blocked: bool): int {
    if blocked then 100 else 0
  }

  /** The mask once the polygons before `n` are done and polygon `n` is done up to row `y`,
      column `x`. */
  ghost predicate Painted(mask: seq<int>, source: seq<int>, f: Frame, rs: seq<Raster>, n: nat,
                          x: int, y: int, epsilon: real)
  {
    && n < |rs| && |mask| == |source| == f.width * f.height
    && (forall cx, cy :: InGrid(f, cx, cy) ==> 0 <= Index(f, cx, cy) < |mask|)
    && forall cx, cy :: InGrid(f, cx, cy) ==>
         (mask[Index(f, cx, cy)] ==
          Shade(Dark(rs, n, source, f, cx, cy, epsilon) ||
                (Passed(rs[n].box, cx, cy, x, y) && Hits(rs[n], cx, cy, epsilon))))
  }

  ghost predicate Done(mask: seq<int>, source: seq<int>, f: Frame, rs: seq<Raster>, n: nat, epsilon: real) {
    && n <= |rs| && |mask| == |source| == f.width * f.height
    && (forall cx, cy :: InGrid(f, cx, cy) ==> 0 <= Index(f, cx, cy) < |mask|)
    && forall cx, cy :: InGrid(f, cx, cy) ==>
         (mask[Index(f, cx, cy)] == Shade(Dark(rs, n, source, f, cx, cy, epsilon)))
  }

  predicate BoxInGrid(f: Frame, b: Box) {
    0 <= b.x0 && b.x1 < f.width && 0 <= b.y0 && b.y1 < f.height
  }

  method PaintPolygon(mask: array<int>, ghost source: seq<int>, f: Frame, ghost rs: seq<Raster>,
                      ghost n: nat, polygon: Raster, epsilon: real)
    requires n < |rs| && polygon == rs[n] && BoxInGrid(f, polygon.box) && 0.0 <= epsilon
    requires Done(mask[..], source, f, rs, n, epsilon)
    modifies mask
    ensures Done(mask[..], source, f, rs, n + 1, epsilon)
  {
    var b := polygon.box;
    var y := b.y0;
    while y <= b.y1
      invariant b.y0 <= y
      invariant y <= b.y1 + 1 || y == b.y0
      invariant Painted(mask[..], source, f, rs, n, b.x0, y, epsilon)
    {
      var x := b.x0;
      while x <= b.x1
        invariant b.x0 <= x
        invariant Painted(mask[..], source, f, rs, n, x, y, epsilon)
      {
        var hit := CellIntersects(polygon.vertices, x, y, epsilon);
        ghost var before := mask[..];
        IndexInRange(f, x, y);
        if hit {
          mask[Index(f, x, y)] := 100;
        }
        PaintedStep(before, mask[..], source, f, rs, n, x, y, epsilon);
        x := x + 1;
      }
      PaintedRow(mask[..], source, f, rs, n, x, y, epsilon);
      y := y + 1;
    }
    PaintedAll(mask[..], source, f, rs, n, y, epsilon);
  }

  lemma PaintedStep(before: seq<int>, after: seq<int>, source: seq<int>, f: Frame, rs: seq<Raster>,
                    n: nat, x: int, y: int, epsilon: real)
    requires Painted(before, source, f, rs, n, x, y, epsilon) && InGrid(f, x, y)
    requires InBox(rs[n].box, x, y) && 0 <= Index(f, x, y) < |before|
    requires after == if Hits(rs[n], x, y, epsilon) then before[Index(f, x, y) := 100] else before
    ensures Painted(after, source, f, rs, n, x + 1, y, epsilon)
  {
    forall cx, cy | InGrid(f, cx, cy)
      ensures Index(f, cx, cy) == Index(f, x, y) ==> cx == x && cy == y
    {
      IndexSplits(f, cx, cy);
      IndexSplits(f, x, y);
    }
  }

  lemma PaintedRow(mask: seq<int>, source: seq<int>, f: Frame, rs: seq<Raster>,
                   n: nat, x: int, y: int, epsilon: real)
    requires n < |rs| && Painted(mask, source, f, rs, n, x, y, epsilon) && x > rs[n].box.x1
    ensures Painted(mask, source, f, rs, n, rs[n].box.x0, y + 1, epsilon)
  {}

  lemma PaintedAll(mask: seq<int>, source: seq<int>, f: Frame, rs: seq<Raster>,
                   n: nat, y: int, epsilon: real)
    requires n < |rs| && Painted(mask, source, f, rs, n, rs[n].box.x0, y, epsilon) && y > rs[n].box.y1
    ensures Done(mask, source, f, rs, n + 1, epsilon)
  {
    forall cx, cy | InGrid(f, cx, cy)
      ensures Marked(rs, n + 1, cx, cy, epsilon) <==>
                Marked(rs, n, cx, cy, epsilon) || Marks(rs[n], cx, cy, epsilon)
    {}
  }

  lemma {:induction false} BoxesFit(f: Frame, zones: seq<Zone>, epsilon: real, k: nat)
    requires k <= |zones| && Proper(f, zones)
    ensures forall r :: r in KeepOuts(f, zones, epsilon, k) ==> BoxInGrid(f, r.box)
  {
    if k > 0 {
      BoxesFit(f, zones, epsilon, k - 1);
    }
  }

  // ----- the image -------------------------------------------------------------------------------

  /** The image body: rows from the top of the map down, white where the mask is free. */
  function Rows(f: Frame, mask: seq<int>): seq<int>
    requires 1 <= f.width && 1 <= f.height && |mask| == f.width * f.height
  {
    seq(|mask|, i requires 0 <= i < |mask| => Pixel(f, mask, i))
  }

  function Flip(f: Frame, i: int): int
    requires f.width != 0
  {
    Index(f, i % f.width, f.height - 1 - i / f.width)
  }

  lemma FlipTwice(f: Frame, i: int)
    requires 1 <= f.width && 0 <= i < f.width * f.height
    ensures 0 <= Flip(f, i) < f.width * f.height && Flip(f, Flip(f, i)) == i
  {
    IndexCovers(f, i);
    var x, y := i % f.width, f.height - 1 - i / f.width;
    IndexInRange(f, x, y);
    IndexSplits(f, x, y);
  }

  function Pixel(f: Frame, mask: seq<int>, i: int): int
    requires 1 <= f.width && 1 <= f.height && |mask| == f.width * f.height && 0 <= i < |mask|
  {
    FlipTwice(f, i);
    if mask[Flip(f, i)] == 0 then 255 else 0
  }

  /** Trinary reading of a pixel with the artifact's thresholds 0.65 and 0.25, not negated. */
  function Trinary(pixel: int): int {
    var occupied := (255 - pixel) as real / 255.0;
    if occupied > 0.65 then 100 else if occupied < 0.25 then 0 else -1
  }

  /** What a map server makes of an image body: the first row is the top of the map. */
  function ReadCell(f: Frame, rows: seq<int>, x: int, y: int): int
    requires InGrid(f, x, y) && |rows| == f.width * f.height
  {
    RowsFit(f.width, f.height, x, f.height - 1 - y);
    Trinary(rows[(f.height - 1 - y) * f.width + x])
  }

  /** The image reads back as the mask, cell for cell. */
  lemma RowsReadBack(f: Frame, mask: seq<int>, x: int, y: int)
    requires |mask| == f.width * f.height && InGrid(f, x, y)
    requires forall i :: 0 <= i < |mask| ==> mask[i] == 0 || mask[i] == 100
    ensures 0 <= Index(f, x, y) < |mask|
    ensures ReadCell(f, Rows(f, mask), x, y) == mask[Index(f, x, y)]
  {
    IndexInRange(f, x, y);
    var row := f.height - 1 - y;
    IndexInRange(f, x, row);
    IndexSplits(f, x, row);
    assert Flip(f, Index(f, x, row)) == Index(f, x, y);
  }

  // ----- the whole build ---------------------------------------------------------------------------

  method BuildCollisionMask(f: Frame, papers: Papers, source: seq<int>, zones: seq<Zone>, epsilon: real)
    returns (r: Result<Artifact, MaskError>)
    requires Proper(f, zones) && |source| == f.width * f.height && 0.0 < epsilon
    ensures r.Err? <==> Refusal(f, papers, zones, epsilon).Some?
    ensures r.Err? ==> Refusal(f, papers, zones, epsilon) == Some(r.error)
    ensures r.Ok? ==>
              var rs := KeepOuts(f, zones, epsilon, |zones|);
              Done(r.value.mask, source, f, rs, |rs|, epsilon) && r.value.rows == Rows(f, r.value.mask)
  {
    if !papers.familyMatches {
      return Err(FamilyMismatch);
    }
    if f.width * f.height > MAX_CELLS {
      return Err(TooManyCells);
    }
    if !papers.frameValid {
      return Err(InvalidFrame);
    }
    if !papers.revisionGiven {
      return Err(RevisionMissing);
    }
    if !papers.annotationsParse {
      return Err(InvalidAnnotations);
    }
    if !papers.revisionMatches {
      return Err(RevisionMismatch);
    }
    if epsilon > 0.001 {
      return Err(IllConditioned);
    }
    var admitted := AdmitZones(f, zones, epsilon);
    if admitted.Err? {
      return Err(admitted.error);
    }
    var rs := admitted.value;
    BoxesFit(f, zones, epsilon, |zones|);
    var mask := new int[|source|](i requires 0 <= i < |source| => if source[i] == 0 then 0 else 100);
    forall cx, cy | InGrid(f, cx, cy) ensures 0 <= Index(f, cx, cy) < |source| {
      IndexInRange(f, cx, cy);
    }
    var n := 0;
    while n < |rs|
      invariant 0 <= n <= |rs|
      invariant Done(mask[..], source, f, rs, n, epsilon)
    {
      PaintPolygon(mask, source, f, rs, n, rs[n], epsilon);
      n := n + 1;
    }
    return Ok(Artifact(mask[..], Rows(f, mask[..])));
  }

  // ----- what the artifact guarantees --------------------------------------------------------------

  ghost predicate IsMask(f: Frame, source: seq<int>, zones: seq<Zone>, epsilon: real, mask: seq<int>) {
    && Proper(f, zones) && |source| == f.width * f.height && 0.0 < epsilon
    && var rs := KeepOuts(f, zones, epsilon, |zones|);
       Done(mask, source, f, rs, |rs|, epsilon)
  }

  lemma EveryByteIsACell(f: Frame, source: seq<int>, zones: seq<Zone>, epsilon: real, mask: seq<int>, i: int)
    requires IsMask(f, source, zones, epsilon, mask) && 0 <= i < |mask|
    ensures mask[i] == 0 || mask[i] == 100
  {
    IndexCovers(f, i);
    assert InGrid(f, i % f.width, i / f.width);
  }

  lemma MarginGrows(vs: seq<Point>, x: int, y: int, small: real, large: real)
    requires small <= large && AnyEdgeMeets(vs, x, y, small)
    ensures AnyEdgeMeets(vs, x, y, large)
  {
    var i: nat :| EdgeMeets(vs, i, x, y, small);
    var t: real :| 0.0 <= t <= 1.0 && InCell(Along(vs[i], Next(vs, i), t), x, y, small);
    assert InCell(Along(vs[i], Next(vs, i), t), x, y, large);
    assert EdgeMeets(vs, i, x, y, large);
  }

  lemma UnmarkedIsClear(vs: seq<Point>, width: int, height: int, x: int, y: int, epsilon: real, margin: real)
    requires Legal(vs, x, y, width, height, epsilon) && 0.0 <= margin < epsilon
    requires !Marks(Raster(vs, BoxOf(vs, width, height, epsilon)), x, y, epsilon)
    ensures !AnyEdgeMeets(vs, x, y, margin) && !Inside(vs, Middle(x, y))
  {
    if !InBox(BoxOf(vs, width, height, epsilon), x, y) {
      PrunedCellsAreClear(vs, x, y, width, height, epsilon, margin);
    } else if AnyEdgeMeets(vs, x, y, margin) {
      MarginGrows(vs, x, y, margin, epsilon);
    }
  }

  /** A free byte is trustworthy: the source cell is free, and for every keep-out zone no edge
      meets the cell at any margin short of epsilon (the closed cell is margin zero) and the
      cell's centre lies outside by the even-odd rule. */
  lemma FreeMeansClear(f: Frame, source: seq<int>, zones: seq<Zone>, epsilon: real, mask: seq<int>,
                       x: int, y: int, k: nat, margin: real)
    requires IsMask(f, source, zones, epsilon, mask) && InGrid(f, x, y)
    requires 0 <= Index(f, x, y) < |mask| && mask[Index(f, x, y)] == 0
    requires k < |zones| && zones[k].kind.KeepOut? && 0.0 <= margin < epsilon
    ensures source[Index(f, x, y)] == 0
    ensures !AnyEdgeMeets(GridVertices(f, zones[k]), x, y, margin)
    ensures !Inside(GridVertices(f, zones[k]), Middle(x, y))
  {
    var rs, r := KeepOuts(f, zones, epsilon, |zones|), RasterOf(f, zones[k], epsilon);
    assert ComesFrom(f, zones[k], epsilon, r);
    KeepOutsAreTheZones(f, zones, epsilon, |zones|, r);
    var n :| 0 <= n < |rs| && rs[n] == r;
    assert !Dark(rs, |rs|, source, f, x, y, epsilon);
    assert !Marks(rs[n], x, y, epsilon);
    UnmarkedIsClear(r.vertices, f.width, f.height, x, y, epsilon, margin);
  }

  /** A blocked byte is justified: the source was not free, or some keep-out zone contains the
      cell's centre or has an edge within epsilon of the cell. */
  lemma BlockedHasAReason(f: Frame, source: seq<int>, zones: seq<Zone>, epsilon: real, mask: seq<int>,
                          x: int, y: int) returns (k: nat)
    requires IsMask(f, source, zones, epsilon, mask) && InGrid(f, x, y)
    requires 0 <= Index(f, x, y) < |mask| && mask[Index(f, x, y)] == 100
    ensures source[Index(f, x, y)] != 0 ||
            (k < |zones| && zones[k].kind.KeepOut? &&
             (AnyEdgeMeets(GridVertices(f, zones[k]), x, y, epsilon) ||
              Inside(GridVertices(f, zones[k]), Middle(x, y))))
  {
    k := 0;
    var rs := KeepOuts(f, zones, epsilon, |zones|);
    assert Dark(rs, |rs|, source, f, x, y, epsilon);
    if source[Index(f, x, y)] == 0 {
      var n :| 0 <= n < |rs| && Marks(rs[n], x, y, epsilon);
      KeepOutsAreTheZones(f, zones, epsilon, |zones|, rs[n]);
      var i :| 0 <= i < |zones| && ComesFrom(f, zones[i], epsilon, rs[n]);
      k := i;
    }
  }
}
