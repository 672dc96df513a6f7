/** The bounded monitor of published requests, against a plain count over their history. */
module RequestEvidence {
  import opened Wire
  import opened SportApi
  import BC = BridgeCore

  const MAX_COUNT := 2_147_483_647

  // ----- what a request is ------------------------------------------------------------

  /** A JSON number; booleans, texts and non-finite values are not. */
  function AxisNumber(v: Value): Option<real> {
    match v
    case Int(i) => Some(i as real)
    case Float(f) => Some(f)
    case _ => None
  }

  function MoveAxes(p: Parameter): Option<Velocity> {
    match p
    case Axes(x, y, z) =>
      (match (AxisNumber(x), AxisNumber(y), AxisNumber(z))
       case (Some(a), Some(b), Some(c)) => Some(Velocity(a, b, c))
       case _ => None)
    case _ => None
  }

  predicate WithinHardLimits(v: Velocity) {
    && Abs(v.x) <= BC.HARD_MAX_LINEAR_X
    && Abs(v.y) <= BC.HARD_MAX_LINEAR_Y
    && Abs(v.z) <= BC.HARD_MAX_ANGULAR_Z
  }

  datatype Class = StopClass | ZeroMove | NonzeroMove | MalformedMove | ActionClass | OtherClass

  function Classify(r: SportRequest): Class {
    if r.apiId == API_STOP_MOVE then StopClass
    else if r.apiId == API_MOVE then
      var axes := MoveAxes(r.parameter);
      if axes.None? || !WithinHardLimits(axes.value) then MalformedMove
      else if axes.value != ZERO then NonzeroMove
      else ZeroMove
    else if IsActionId(r.apiId) then ActionClass
    else OtherClass
  }

  predicate Reads(v: Value, x: real) {
    v == Float(x) || (v.Int? && v.whole as real == x)
  }

  /** A movement with three numbers, none above the robot's hard limits. */
  predicate WellFormed(r: SportRequest, v: Velocity) {
    && r.apiId == 1008 && r.parameter.Axes?
    && Reads(r.parameter.x, v.x) && Reads(r.parameter.y, v.y) && Reads(r.parameter.z, v.z)
    && -1.0 <= v.x <= 1.0 && -0.20 <= v.y <= 0.20 && -0.50 <= v.z <= 0.50
  }

  lemma AllowListed(id: int)
    ensures IsActionId(id) <==> exists a: Action :: ApiId(a) == id
  {
    assert forall a: Action :: IsActionId(ApiId(a));
    assert ApiId(BalanceStand) == 1002 && ApiId(StandUp) == 1004 && ApiId(StandDown) == 1005;
    assert ApiId(RecoveryStand) == 1006 && ApiId(Sit) == 1009 && ApiId(RiseSit) == 1010 && ApiId(Hello) == 1016;
    assert ApiId(Stretch) == 1017 && ApiId(Content) == 1020 && ApiId(Scrape) == 1029 && ApiId(Heart) == 1036;
    assert ApiId(StaticWalk) == 1061 && ApiId(EconomicGait) == 1063 && ApiId(FreeWalk) == 2045;
  }

  lemma AxesAreRead(r: SportRequest, v: Velocity)
    ensures MoveAxes(r.parameter) == Some(v) <==>
              && r.parameter.Axes?
              && Reads(r.parameter.x, v.x) && Reads(r.parameter.y, v.y) && Reads(r.parameter.z, v.z)
  {}

  /** What each kind of request is: a stop, an allow-listed action, anything else that is no
      movement, or a movement: zero, nonzero, or not well formed. */
  lemma KindsAreExact(r: SportRequest, v: Velocity)
    ensures Classify(r).StopClass? <==> r.apiId == 1003
    ensures Classify(r).ActionClass? <==> exists a: Action :: ApiId(a) == r.apiId
    ensures IsMoveClass(Classify(r)) <==> r.apiId == 1008
    ensures WellFormed(r, v) ==> Classify(r) == if v == Velocity(0.0, 0.0, 0.0) then ZeroMove else NonzeroMove
    ensures r.apiId == 1008 && (forall w :: !WellFormed(r, w)) ==> Classify(r).MalformedMove?
  {
    AllowListed(r.apiId);
    AxesAreRead(r, v);
    if MoveAxes(r.parameter).Some? {
      AxesAreRead(r, MoveAxes(r.parameter).value);
      assert r.apiId == 1008 && WithinHardLimits(MoveAxes(r.parameter).value) ==>
               WellFormed(r, MoveAxes(r.parameter).value);
    }
  }

  predicate IsMoveClass(k: Class) { k.ZeroMove? || k.NonzeroMove? || k.MalformedMove? }

  /** Stops, actions and unknown requests end a motion run; no movement does. */
  predicate EndsRun(k: Class) { k.StopClass? || k.ActionClass? || k.OtherClass? }

  // ----- the reference: plain, unbounded folds over the history -----------------------

  function Count(history: seq<SportRequest>, k: Class): nat {
    if history == [] then 0
    else Count(history[..|history| - 1], k) + if Classify(history[|history| - 1]) == k then 1 else 0
  }

  function Moves(history: seq<SportRequest>): nat {
    Count(history, ZeroMove) + Count(history, NonzeroMove) + Count(history, MalformedMove)
  }

  /** The greatest magnitude of each axis over the well-formed movements. */
  function Peak(history: seq<SportRequest>): Velocity {
    if history == [] then ZERO
    else Raise(Peak(history[..|history| - 1]), history[|history| - 1])
  }

  function Raise(peak: Velocity, r: SportRequest): Velocity {
    if Classify(r).ZeroMove? || Classify(r).NonzeroMove? then
      var v := MoveAxes(r.parameter).value;
      Velocity(Max(peak.x, Abs(v.x)), Max(peak.y, Abs(v.y)), Max(peak.z, Abs(v.z)))
    else peak
  }

  predicate Covers(peak: Velocity, v: Velocity) {
    -peak.x <= v.x <= peak.x && -peak.y <= v.y <= peak.y && -peak.z <= v.z <= peak.z
  }

  lemma RaiseCovers(peak: Velocity, r: SportRequest, v: Velocity)
    ensures WellFormed(r, v) ==> Covers(Raise(peak, r), v)
    ensures Covers(peak, v) ==> Covers(Raise(peak, r), v)
  {
    KindsAreExact(r, v);
    AxesAreRead(r, v);
  }

  predicate AtMost(peak: Velocity, bound: Velocity) {
    peak.x <= bound.x && peak.y <= bound.y && peak.z <= bound.z
  }

  lemma RaiseIsLeast(peak: Velocity, r: SportRequest, bound: Velocity)
    requires AtMost(peak, bound) && forall v :: WellFormed(r, v) ==> Covers(bound, v)
    ensures AtMost(Raise(peak, r), bound)
  {
    if Classify(r).ZeroMove? || Classify(r).NonzeroMove? {
      var v := MoveAxes(r.parameter).value;
      AxesAreRead(r, v);
      assert WellFormed(r, v);
    }
  }

  /** The peak covers every well-formed movement of the history. */
  lemma {:induction false} PeakCovers(history: seq<SportRequest>, i: nat, v: Velocity)
    requires i < |history| && WellFormed(history[i], v)
    ensures Covers(Peak(history), v)
  {
    var n := |history| - 1;
    RaiseCovers(Peak(history[..n]), history[n], v);
    if i < n {
      PeakCovers(history[..n], i, v);
    }
  }

  /** And nothing smaller does. */
  lemma {:induction false} PeakIsLeast(history: seq<SportRequest>, bound: Velocity)
    requires AtMost(ZERO, bound)
    requires forall i, v :: 0 <= i < |history| && WellFormed(history[i], v) ==> Covers(bound, v)
    ensures AtMost(Peak(history), bound)
  {
    if history != [] {
      var n := |history| - 1;
      forall i, v | 0 <= i < n && WellFormed(history[..n][i], v) ensures Covers(bound, v) {
        assert WellFormed(history[i], v);
      }
      PeakIsLeast(history[..n], bound);
      RaiseIsLeast(Peak(history[..n]), history[n], bound);
    }
  }

  /** Where the last motion run starts: its first nonzero movement. */
  function RunStart(history: seq<SportRequest>): Option<nat> {
    if history == [] then None
    else
      var n := |history| - 1;
      if Classify(history[n]).NonzeroMove? && !RunOpen(history[..n]) then Some(n)
      else RunStart(history[..n])
  }

  /** A motion run is open: the last request that starts or ends one starts it. */
  function RunOpen(history: seq<SportRequest>): bool {
    if history == [] then false
    else
      var k := Classify(history[|history| - 1]);
      k.NonzeroMove? || (!EndsRun(k) && RunOpen(history[..|history| - 1]))
  }

  function RunsStarted(history: seq<SportRequest>): nat {
    if history == [] then 0
    else
      var n := |history| - 1;
      RunsStarted(history[..n]) + if Classify(history[n]).NonzeroMove? && !RunOpen(history[..n]) then 1 else 0
  }

  /** The first request at or after `from` that ends the run, or the end of the history. */
  function RunEnd(history: seq<SportRequest>, from: nat): (e: nat)
    requires from <= |history|
    ensures from <= e <= |history|
    ensures forall i | from <= i < e :: !EndsRun(Classify(history[i]))
    ensures e < |history| ==> EndsRun(Classify(history[e]))
    decreases |history| - from
  {
    if from == |history| || EndsRun(Classify(history[from])) then from else RunEnd(history, from + 1)
  }

  /** The last motion run: from its first nonzero movement up to the request that ended it. */
  function LastRun(history: seq<SportRequest>): seq<SportRequest> {
    var start := RunStart(history);
    if start.None? || start.value > |history| then []
    else history[start.value..RunEnd(history, start.value)]
  }

  function Saturate(n: nat): (bounded: nat)
    ensures bounded <= 2_147_483_647 && bounded <= n && (bounded == n || bounded == 2_147_483_647)
  {
    if n <= MAX_COUNT then n else MAX_COUNT
  }

  /** What the monitor reports, apart from the time of the last publication. */
  datatype Report = Report(
    published: nat, stops: nat, moves: nat, zeroMoves: nat, nonzeroMoves: nat, malformedMoves: nat,
    actions: nat, others: nat, lastApiId: Option<int>, peak: Velocity,
    runId: nat, runActive: bool, runMoves: nat, runPeak: Velocity)

  /** The reference report: the bounded form of each plain fold over the history. */
  function Reference(history: seq<SportRequest>): Report {
    Report(Saturate(|history|), Saturate(Count(history, StopClass)), Saturate(Moves(history)),
           Saturate(Count(history, ZeroMove)), Saturate(Count(history, NonzeroMove)),
           Saturate(Count(history, MalformedMove)), Saturate(Count(history, ActionClass)),
           Saturate(Count(history, OtherClass)),
           if history == [] then None else Some(history[|history| - 1].apiId),
           Peak(history),
           Saturate(RunsStarted(history)), RunOpen(history),
           Saturate(Count(LastRun(history), NonzeroMove)), Peak(LastRun(history)))
  }

  function Increment(n: nat): nat {
    if n + 1 <= MAX_COUNT then n + 1 else MAX_COUNT
  }

  function IncrementIf(n: nat, yes: bool): nat {
    if yes then Increment(n) else n
  }

  /** One request later. */
  function Advance(p: Report, r: SportRequest): Report {
    var k := Classify(r);
    var starts := k.NonzeroMove? && !p.runActive;
    var base := if starts then ZERO else p.runPeak;
    var active := k.NonzeroMove? || (!EndsRun(k) && p.runActive);
    Report(Increment(p.published), IncrementIf(p.stops, k.StopClass?), IncrementIf(p.moves, IsMoveClass(k)),
           IncrementIf(p.zeroMoves, k.ZeroMove?), IncrementIf(p.nonzeroMoves, k.NonzeroMove?),
           IncrementIf(p.malformedMoves, k.MalformedMove?), IncrementIf(p.actions, k.ActionClass?),
           IncrementIf(p.others, k.OtherClass?), Some(r.apiId), Raise(p.peak, r),
           IncrementIf(p.runId, starts), active,
           if starts then 1 else IncrementIf(p.runMoves, k.NonzeroMove?),
           if active then Raise(base, r) else base)
  }

  // ----- the monitor ------------------------------------------------------------------

  class SportRequestEvidence {
    var publishedCount: nat
    var stopCount: nat
    var moveCount: nat
    var zeroMoveCount: nat
    var nonzeroMoveCount: nat
    var malformedMoveCount: nat
    var actionCount: nat
    var otherCount: nat
    var lastApiId: Option<int>
    var lastPublish: Option<real>
    var maxAbsVelocity: Velocity
    var motionRunId: nat
    var motionRunActive: bool
    var motionRunMoves: nat
    var motionRunMax: Velocity
    ghost var history: seq<SportRequest>

    ghost function Fields(): Report
      reads this
    {
      Report(publishedCount, stopCount, moveCount, zeroMoveCount, nonzeroMoveCount, malformedMoveCount,
             actionCount, otherCount, lastApiId, maxAbsVelocity, motionRunId, motionRunActive,
             motionRunMoves, motionRunMax)
    }

    /** The incremental fields are exactly the reference report of everything published. */
    ghost predicate Valid()
      reads this
    {
      Fields() == Reference(history)
    }

    constructor ()
      ensures Valid() && history == []
    {
      publishedCount, stopCount, moveCount, zeroMoveCount := 0, 0, 0, 0;
      nonzeroMoveCount, malformedMoveCount, actionCount, otherCount := 0, 0, 0, 0;
      lastApiId, lastPublish := None, None;
      maxAbsVelocity, motionRunMax := ZERO, ZERO;
      motionRunId, motionRunMoves, motionRunActive := 0, 0, false;
      history := [];
    }

    /** Counts one already published request. */
    method Record(request: SportRequest, now: real)
      requires Valid()
      modifies this
      ensures Valid() && history == old(history) + [request] && lastPublish == Some(now)
    {
      Update(request);
      lastPublish := Some(now);
      history := history + [request];
      AdvanceIsExact(old(history), request);
    }

    method Update(request: SportRequest)
      modifies this
      ensures Fields() == Advance(old(Fields()), request)
      ensures history == old(history)
    {
      publishedCount := Increment(publishedCount);
      lastApiId := Some(request.apiId);
      if request.apiId == API_STOP_MOVE {
        stopCount := Increment(stopCount);
        motionRunActive := false;
      } else if request.apiId == API_MOVE {
        moveCount := Increment(moveCount);
        UpdateMove(request);
      } else {
        motionRunActive := false;
        if IsActionId(request.apiId) {
          actionCount := Increment(actionCount);
        } else {
          otherCount := Increment(otherCount);
        }
      }
    }

    method UpdateMove(request: SportRequest)
      requires request.apiId == API_MOVE
      modifies this`malformedMoveCount, this`zeroMoveCount, this`nonzeroMoveCount,
               this`motionRunId, this`motionRunMoves, this`motionRunMax, this`motionRunActive, this`maxAbsVelocity
      ensures var was, p := old(Fields()), Advance(old(Fields()), request);
              Fields() == p.(published := was.published, moves := was.moves, lastApiId := was.lastApiId)
    {
      var axes := MoveAxes(request.parameter);
      if axes.None? {
        malformedMoveCount := Increment(malformedMoveCount);
        return;
      }
      if !WithinHardLimits(axes.value) {
        malformedMoveCount := Increment(malformedMoveCount);
        return;
      }
      if axes.value != ZERO {
        UpdateRun();
      } else {
        zeroMoveCount := Increment(zeroMoveCount);
      }
      RaiseMaxima(request);
    }

    /** One nonzero movement: it opens a motion run unless one is open. */
    method UpdateRun()
      modifies this`nonzeroMoveCount, this`motionRunId, this`motionRunMoves, this`motionRunMax, this`motionRunActive
      ensures var was := old(Fields());
              Fields() == was.(nonzeroMoves := Increment(was.nonzeroMoves), runActive := true,
                               runId := IncrementIf(was.runId, !was.runActive),
                               runMoves := if was.runActive then Increment(was.runMoves) else 1,
                               runPeak := if was.runActive then was.runPeak else ZERO)
    {
      nonzeroMoveCount := Increment(nonzeroMoveCount);
      if !motionRunActive {
        motionRunId := Increment(motionRunId);
        motionRunMoves := 0;
        motionRunMax := ZERO;
        motionRunActive := true;
      }
      motionRunMoves := Increment(motionRunMoves);
    }

    method RaiseMaxima(request: SportRequest)
      requires Classify(request).ZeroMove? || Classify(request).NonzeroMove?
      modifies this`maxAbsVelocity, this`motionRunMax
      ensures var was := old(Fields());
              Fields() == was.(peak := Raise(was.peak, request),
                               runPeak := if was.runActive then Raise(was.runPeak, request) else was.runPeak)
    {
      var v := MoveAxes(request.parameter).value;
      maxAbsVelocity := Velocity(Max(maxAbsVelocity.x, Abs(v.x)), Max(maxAbsVelocity.y, Abs(v.y)),
                                 Max(maxAbsVelocity.z, Abs(v.z)));
      if motionRunActive {
        motionRunMax := Velocity(Max(motionRunMax.x, Abs(v.x)), Max(motionRunMax.y, Abs(v.y)),
                                 Max(motionRunMax.z, Abs(v.z)));
      }
    }
  }

  // ----- how the folds grow by one request --------------------------------------------

  lemma {:induction false} Partition(history: seq<SportRequest>)
    ensures |history| == Count(history, StopClass) + Moves(history)
                         + Count(history, ActionClass) + Count(history, OtherClass)
  {
    if history != [] {
      Partition(history[..|history| - 1]);
    }
  }

  /** A run is open exactly when one has started and nothing has ended it since. */
  lemma {:induction false} RunShape(history: seq<SportRequest>)
    ensures RunStart(history).Some? ==> RunStart(history).value < |history|
                                        && Classify(history[RunStart(history).value]).NonzeroMove?
    ensures RunOpen(history) <==>
              RunStart(history).Some? &&
              forall i | RunStart(history).value <= i < |history| :: !EndsRun(Classify(history[i]))
  {
    if history != [] {
      var n := |history| - 1;
      RunShape(history[..n]);
      if RunStart(history).Some? {
        assert forall i | 0 <= i < n :: history[..n][i] == history[i];
      }
    }
  }

  lemma {:induction false} RunEndIs(history: seq<SportRequest>, from: nat, e: nat)
    requires from <= e <= |history|
    requires forall i | from <= i < e :: !EndsRun(Classify(history[i]))
    requires e < |history| ==> EndsRun(Classify(history[e]))
    ensures RunEnd(history, from) == e
    decreases e - from
  {
    if from < e {
      RunEndIs(history, from + 1, e);
    }
  }

  /** Where the last run starts, after one more request. */
  lemma RunStartGrows(history: seq<SportRequest>, r: SportRequest)
    ensures RunStart(history + [r]) ==
            if Classify(r).NonzeroMove? && !RunOpen(history) then Some(|history|) else RunStart(history)
  {
    assert (history + [r])[..|history|] == history;
  }

  lemma FreshRun(history: seq<SportRequest>, r: SportRequest)
    requires Classify(r).NonzeroMove? && !RunOpen(history)
    ensures LastRun(history + [r]) == [r]
  {
    var grown := history + [r];
    RunStartGrows(history, r);
    RunEndIs(grown, |history|, |grown|);
  }

  lemma RunContinues(history: seq<SportRequest>, r: SportRequest)
    requires RunOpen(history) && !EndsRun(Classify(r))
    ensures LastRun(history + [r]) == LastRun(history) + [r]
  {
    var grown := history + [r];
    RunShape(history);
    RunStartGrows(history, r);
    var s := RunStart(history).value;
    RunEndIs(history, s, |history|);
    forall i | s <= i < |grown| ensures !EndsRun(Classify(grown[i])) {
      assert i < |history| ==> grown[i] == history[i];
    }
    RunEndIs(grown, s, |grown|);
    assert LastRun(grown) == grown[s..|grown|] && LastRun(history) == history[s..|history|];
    assert grown[s..] == history[s..] + [r];
  }

  lemma RunStaysEnded(history: seq<SportRequest>, r: SportRequest)
    requires !(Classify(r).NonzeroMove? && !RunOpen(history)) && !(RunOpen(history) && !EndsRun(Classify(r)))
    ensures LastRun(history + [r]) == LastRun(history)
  {
    var grown := history + [r];
    RunShape(history);
    RunStartGrows(history, r);
    if RunStart(history).Some? {
      var s := RunStart(history).value;
      var e := RunEnd(history, s);
      RunEndIs(grown, s, e);
      assert grown[s..e] == history[s..e];
    }
  }

  /** The last run after one more request. */
  lemma LastRunGrows(history: seq<SportRequest>, r: SportRequest)
    ensures LastRun(history + [r]) ==
            if Classify(r).NonzeroMove? && !RunOpen(history) then [r]
            else if RunOpen(history) && !EndsRun(Classify(r)) then LastRun(history) + [r]
            else LastRun(history)
  {
    if Classify(r).NonzeroMove? && !RunOpen(history) {
      FreshRun(history, r);
    } else if RunOpen(history) && !EndsRun(Classify(r)) {
      RunContinues(history, r);
    } else {
      RunStaysEnded(history, r);
    }
  }

  lemma Extend(history: seq<SportRequest>, r: SportRequest)
    ensures var grown, k := history + [r], Classify(r);
            && (forall c :: Count(grown, c) == Count(history, c) + if c == k then 1 else 0)
            && Peak(grown) == Raise(Peak(history), r)
            && RunOpen(grown) == (k.NonzeroMove? || (!EndsRun(k) && RunOpen(history)))
            && RunsStarted(grown) == RunsStarted(history) + (if k.NonzeroMove? && !RunOpen(history) then 1 else 0)
            && var run := LastRun(grown);
               && Count(run, NonzeroMove) ==
                  (if k.NonzeroMove? && !RunOpen(history) then 1
                   else Count(LastRun(history), NonzeroMove) + if k.NonzeroMove? then 1 else 0)
               && Peak(run) ==
                  (if k.NonzeroMove? && !RunOpen(history) then Raise(ZERO, r)
                   else if RunOpen(history) && !EndsRun(k) then Raise(Peak(LastRun(history)), r)
                   else Peak(LastRun(history)))
  {
    assert (history + [r])[..|history|] == history;
    LastRunGrows(history, r);
    var run := LastRun(history);
    assert (run + [r])[..|run|] == run;
    assert [r][..0] == [];
  }

  lemma CountersAreExact(history: seq<SportRequest>, r: SportRequest)
    ensures var p, q := Reference(history + [r]), Advance(Reference(history), r);
            && p.published == q.published && p.stops == q.stops && p.moves == q.moves
            && p.zeroMoves == q.zeroMoves && p.nonzeroMoves == q.nonzeroMoves && p.malformedMoves == q.malformedMoves
            && p.actions == q.actions && p.others == q.others
  {
    assert (history + [r])[..|history|] == history;
  }

  lemma RunIsExact(history: seq<SportRequest>, r: SportRequest)
    ensures var p, q := Reference(history + [r]), Advance(Reference(history), r);
            && p.lastApiId == q.lastApiId && p.peak == q.peak
            && p.runId == q.runId && p.runActive == q.runActive && p.runMoves == q.runMoves && p.runPeak == q.runPeak
  {
    Extend(history, r);
    assert (history + [r])[|history|] == r;
  }

  /** Updating the report request by request gives the report of the whole history. */
  lemma AdvanceIsExact(history: seq<SportRequest>, r: SportRequest)
    ensures Reference(history + [r]) == Advance(Reference(history), r)
  {
    CountersAreExact(history, r);
    RunIsExact(history, r);
  }

  /** Until a counter saturates, what is published splits into the four kinds and the movements
      into zero, nonzero and malformed. */
  lemma ReportSplits(history: seq<SportRequest>)
    requires |history| <= MAX_COUNT
    ensures var p := Reference(history);
            && p.published == p.stops + p.moves + p.actions + p.others
            && p.moves == p.zeroMoves + p.nonzeroMoves + p.malformedMoves
  {
    Partition(history);
  }
}
