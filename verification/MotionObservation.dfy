/** Relative-position evidence from the robot's state topic: each accepted sample must follow
    the one before it, and the first that does not ends the evidence for good. */
module MotionObservation {
  import opened Wire

  const MAX_ABS_POSITION_M := 1000000.0
  const MAX_LEAD_NS := 250_000_000
  const MAX_COUNT := 2_147_483_647
  const MAX_AGE_MS := 2_147_483_647
  const MAX_STAMP_NS := 0x7FFF_FFFF_FFFF_FFFF

  // ----- messages ---------------------------------------------------------------------

  datatype Point = Point(x: real, y: real, z: real)

  /** `position` is `None` when it is not an indexable fixed array. */
  datatype Message = Message(position: Option<seq<Value>>, sec: Value, nanosec: Value)

  datatype Sample = Sample(position: Point, stamp: int, at: real)

  function Coordinate(v: Value): Option<real> {
    match v
    case Int(i) => if Abs(i as real) <= MAX_ABS_POSITION_M then Some(i as real) else None
    case Float(f) => if Abs(f) <= MAX_ABS_POSITION_M then Some(f) else None
    case _ => None
  }

  function FixedVector(p: Option<seq<Value>>): Option<Point> {
    if p.None? || |p.value| != 3 then None
    else
      match (Coordinate(p.value[0]), Coordinate(p.value[1]), Coordinate(p.value[2]))
      case (Some(x), Some(y), Some(z)) => Some(Point(x, y, z))
      case _ => None
  }

  function SourceStamp(sec: Value, nanosec: Value): Option<int> {
    if !sec.Int? || !nanosec.Int? || sec.whole < 0 || !(0 <= nanosec.whole < 1_000_000_000) then None
    else
      var stamp := sec.whole * 1_000_000_000 + nanosec.whole;
      if 0 < stamp <= MAX_STAMP_NS then Some(stamp) else None
  }

  // ----- arithmetic -------------------------------------------------------------------

  function Ceil(x: real): (c: int)
    ensures x <= c as real < x + 1.0
  {
    -((-x).Floor)
  }

  /** To the nearest integer, a tie to the even one. */
  function Round(x: real): (r: int)
    ensures x - 0.5 <= r as real <= x + 0.5
    ensures r as real == x - 0.5 || r as real == x + 0.5 ==> r % 2 == 0
  {
    var f := x.Floor;
    var d := x - f as real;
    if d < 0.5 then f else if d > 0.5 then f + 1 else if f % 2 == 0 then f else f + 1
  }

  function MaxInt(a: int, b: int): (m: int)
    ensures m >= a && m >= b && (m == a || m == b)
  {
    if a >= b then a else b
  }

  function GapMs(earlier: real, now: real): nat {
    MaxInt(0, Ceil((now - earlier) * 1000.0))
  }

  function DeltaNs(earlier: real, now: real): nat {
    MaxInt(0, Round((now - earlier) * 1000000000.0))
  }

  function DistanceSquared(p: Point, q: Point): real {
    (p.x - q.x) * (p.x - q.x) + (p.y - q.y) * (p.y - q.y) + (p.z - q.z) * (p.z - q.z)
  }

  // ----- one sample against the one before it -----------------------------------------

  datatype Defect =
    | BadSample | StampRegressed | StampFutureProgress | PositionJump | EvidenceGap

  datatype Verdict = Fits | Duplicate | Refused(defect: Defect)

  function Judge(last: Option<Sample>, next: Sample, staleMs: nat): Verdict {
    if last.None? then Fits
    else
      var before := last.value;
      if next.stamp == before.stamp then Duplicate
      else if next.stamp < before.stamp then Refused(StampRegressed)
      else if next.stamp - before.stamp > DeltaNs(before.at, next.at) + MAX_LEAD_NS then Refused(StampFutureProgress)
      else if DistanceSquared(next.position, before.position) > 1.0 then Refused(PositionJump)
      else if GapMs(before.at, next.at) > staleMs then Refused(EvidenceGap)
      else Fits
  }

  /** What a whole message amounts to: after the first refusal everything is refused for it. */
  function Assess(invalid: Option<Defect>, last: Option<Sample>, message: Message, now: real, staleMs: nat): Verdict {
    if invalid.Some? then Refused(invalid.value)
    else
      match (FixedVector(message.position), SourceStamp(message.sec, message.nanosec))
      case (Some(position), Some(stamp)) => Judge(last, Sample(position, stamp, now), staleMs)
      case _ => Refused(BadSample)
  }

  /** The sample a well-formed message carries. */
  function Measured(message: Message, now: real): Sample
    requires FixedVector(message.position).Some? && SourceStamp(message.sec, message.nanosec).Some?
  {
    Sample(FixedVector(message.position).value, SourceStamp(message.sec, message.nanosec).value, now)
  }

  predicate Follows(before: Sample, next: Sample, staleMs: nat) {
    && before.stamp < next.stamp
    && next.stamp - before.stamp <= DeltaNs(before.at, next.at) + MAX_LEAD_NS
    && DistanceSquared(next.position, before.position) <= 1.0
    && GapMs(before.at, next.at) <= staleMs
  }

  predicate Chain(samples: seq<Sample>, staleMs: nat) {
    |samples| < 2
    || (var n := |samples| - 1;
        Chain(samples[..n], staleMs) && Follows(samples[n - 1], samples[n], staleMs))
  }

  function GapAt(samples: seq<Sample>, i: nat): nat
    requires 0 < i < |samples|
  {
    GapMs(samples[i - 1].at, samples[i].at)
  }

  /** The greatest callback gap between neighbours. */
  function MaxGap(samples: seq<Sample>): Option<nat> {
    if |samples| < 2 then None
    else
      var n := |samples| - 1;
      var gap := GapAt(samples, n);
      match MaxGap(samples[..n])
      case None => Some(gap)
      case Some(m) => Some(MaxInt(gap, m))
  }

  function Last(samples: seq<Sample>): Option<Sample> {
    if samples == [] then None else Some(samples[|samples| - 1])
  }

  function Saturate(n: nat): nat { if n <= MAX_COUNT then n else MAX_COUNT }

  function Increment(n: nat): nat { if n + 1 <= MAX_COUNT then n + 1 else MAX_COUNT }

  function IncrementIf(n: nat, yes: bool): nat { if yes then Increment(n) else n }

  // ----- the observation --------------------------------------------------------------

  datatype Quality = Ready | Stale | Waiting | Invalid

  class SportModeStateObservation {
    const staleMs: nat
    var receivedAt: Option<real>
    var lastGapMs: Option<nat>
    var maxGapMs: Option<nat>
    var position: Option<Point>
    var sourceStamp: Option<int>
    var sequence: nat
    var acceptedCount: nat
    var duplicateCount: nat
    var rejectedCount: nat
    var invalid: Option<Defect>
    var resetDetected: bool
    ghost var samples: seq<Sample>

    /** The fields report the chain of accepted samples and nothing else. */
    ghost predicate Valid()
      reads this
    {
      && Chain(samples, staleMs)
      && (if samples == [] then position.None? && sourceStamp.None? && receivedAt.None?
          else
            var last := samples[|samples| - 1];
            position == Some(last.position) && sourceStamp == Some(last.stamp) && receivedAt == Some(last.at))
      && sequence == acceptedCount == Saturate(|samples|)
      && maxGapMs == MaxGap(samples)
    }

    constructor (staleMs: nat)
      ensures Valid() && samples == [] && invalid.None? && this.staleMs == staleMs
    {
      this.staleMs := staleMs;
      receivedAt, lastGapMs, maxGapMs, position, sourceStamp, invalid := None, None, None, None, None, None;
      sequence, acceptedCount, duplicateCount, rejectedCount := 0, 0, 0, 0;
      resetDetected := false;
      samples := [];
    }

    method RejectMotion(defect: Defect, reset: bool)
      modifies this`rejectedCount, this`invalid, this`resetDetected
      ensures invalid == Some(defect) && rejectedCount == Increment(old(rejectedCount))
      ensures resetDetected == (old(resetDetected) || reset)
    {
      rejectedCount := Increment(rejectedCount);
      invalid := Some(defect);
      resetDetected := resetDetected || reset;
    }

    /** A sample against the one before it. */
    method Compare(next: Sample) returns (verdict: Verdict)
      requires Valid()
      ensures verdict == Judge(Last(samples), next, staleMs)
    {
      if sourceStamp.Some? {
        if next.stamp == sourceStamp.value {
          return Duplicate;
        }
        if next.stamp < sourceStamp.value {
          return Refused(StampRegressed);
        }
        if next.stamp - sourceStamp.value > DeltaNs(receivedAt.value, next.at) + MAX_LEAD_NS {
          return Refused(StampFutureProgress);
        }
      }
      if position.Some? && DistanceSquared(next.position, position.value) > 1.0 {
        return Refused(PositionJump);
      }
      if receivedAt.Some? && GapMs(receivedAt.value, next.at) > staleMs {
        return Refused(EvidenceGap);
      }
      return Fits;
    }

    method NoteGap(now: real)
      modifies this`lastGapMs, this`maxGapMs
      ensures lastGapMs == if receivedAt.Some? then Some(GapMs(receivedAt.value, now)) else old(lastGapMs)
      ensures maxGapMs == if receivedAt.None? then old(maxGapMs)
                          else Some(MaxInt(GapMs(receivedAt.value, now),
                                           if old(maxGapMs).Some? then old(maxGapMs).value else 0))
    {
      if receivedAt.Some? {
        var gap := GapMs(receivedAt.value, now);
        lastGapMs := Some(gap);
        maxGapMs := Some(MaxInt(gap, if maxGapMs.Some? then maxGapMs.value else 0));
      }
    }

    method AcceptMotion(next: Sample)
      requires Valid() && Judge(Last(samples), next, staleMs).Fits?
      modifies this`lastGapMs, this`maxGapMs, this`sequence, this`acceptedCount, this`position,
               this`sourceStamp, this`receivedAt, this`samples
      ensures Valid() && samples == old(samples) + [next]
      ensures lastGapMs == if old(samples) == [] then old(lastGapMs)
                           else Some(GapMs(old(samples)[|old(samples)| - 1].at, next.at))
    {
      Extends(samples, next, staleMs);
      NoteGap(next.at);
      sequence := Increment(sequence);
      acceptedCount := Increment(acceptedCount);
      position := Some(next.position);
      sourceStamp := Some(next.stamp);
      receivedAt := Some(next.at);
      samples := samples + [next];
    }

    /** A sample is taken exactly when nothing was refused before and it fits the last one; the
        first refusal is kept as the reason for every later one, and is a reset unless the
        message itself was bad; a duplicate is only counted. */
    method ObserveMotion(message: Message, now: real)
      requires Valid()
      modifies this
      ensures Valid()
      ensures var verdict := Assess(old(invalid), Last(old(samples)), message, now, staleMs);
              && samples == old(samples) + (if verdict.Fits? then [Measured(message, now)] else [])
              && invalid == (if verdict.Refused? then Some(verdict.defect) else None)
              && rejectedCount == IncrementIf(old(rejectedCount), verdict.Refused?)
              && duplicateCount == IncrementIf(old(duplicateCount), verdict.Duplicate?)
              && resetDetected == (old(resetDetected)
                                   || (old(invalid).None? && verdict.Refused? && !verdict.defect.BadSample?))
              && lastGapMs == (if !verdict.Fits? || old(samples) == [] then old(lastGapMs)
                               else Some(GapMs(old(samples)[|old(samples)| - 1].at, now)))
    {
      if invalid.Some? {
        RejectMotion(invalid.value, false);
        return;
      }
      var p := FixedVector(message.position);
      var stamp := SourceStamp(message.sec, message.nanosec);
      if p.None? || stamp.None? {
        RejectMotion(BadSample, false);
        return;
      }
      var next := Sample(p.value, stamp.value, now);
      var verdict := Compare(next);
      match verdict {
        case Duplicate => duplicateCount := Increment(duplicateCount);
        case Refused(defect) => RejectMotion(defect, true);
        case Fits => AcceptMotion(next);
      }
    }

    lemma Extends(chain: seq<Sample>, next: Sample, limit: nat)
      requires Chain(chain, limit) && Judge(Last(chain), next, limit).Fits?
      ensures Chain(chain + [next], limit)
      ensures MaxGap(chain + [next]) ==
              if chain == [] then None
              else
                var gap := GapMs(chain[|chain| - 1].at, next.at);
                Some(if MaxGap(chain).Some? then MaxInt(gap, MaxGap(chain).value) else gap)
    {
      assert (chain + [next])[..|chain|] == chain;
    }

    /** The evidence is reported ready exactly while it is unbroken and its last sample recent. */
    method MotionQuality(now: real) returns (quality: Quality)
      requires Valid()
      ensures quality == Ready <==> invalid.None? && samples != []
                                    && AgeMs(samples[|samples| - 1].at, now) <= staleMs
      ensures quality == Invalid <==> invalid.Some?
      ensures quality == Waiting <==> invalid.None? && samples == []
    {
      if invalid.Some? {
        return Invalid;
      }
      if position.None? {
        return Waiting;
      }
      if receivedAt.None? || AgeMs(receivedAt.value, now) > staleMs {
        return Stale;
      }
      return Ready;
    }

    static function AgeMs(received: real, now: real): nat {
      var age := GapMs(received, now);
      if age <= MAX_AGE_MS then age else MAX_AGE_MS
    }
  }

  // ----- gaps and counts --------------------------------------------------------------

  /** A gap stays within so many milliseconds exactly when the time passed does. */
  lemma GapIsExact(earlier: real, now: real, limit: nat)
    ensures GapMs(earlier, now) <= limit <==> (now - earlier) * 1000.0 <= limit as real
  {}

  lemma AgeIsExact(received: real, now: real, limit: nat)
    requires limit < MAX_AGE_MS
    ensures SportModeStateObservation.AgeMs(received, now) <= limit <==> (now - received) * 1000.0 <= limit as real
  {
    GapIsExact(received, now, limit);
  }

  /** The time passed in nanoseconds, to the nearest one. */
  lemma DeltaIsNearest(earlier: real, now: real)
    ensures var passed := (now - earlier) * 1000000000.0;
            earlier <= now ==> passed - 0.5 <= DeltaNs(earlier, now) as real <= passed + 0.5
    ensures now < earlier ==> DeltaNs(earlier, now) == 0
  {}

  /** A counter holds the number of its events, as far as 32 bits reach. */
  lemma CountsSaturate(n: nat, yes: bool)
    ensures Saturate(n) <= MAX_COUNT && (n <= MAX_COUNT ==> Saturate(n) == n)
    ensures n > MAX_COUNT ==> Saturate(n) == MAX_COUNT
    ensures IncrementIf(Saturate(n), yes) == Saturate(n + if yes then 1 else 0)
  {}

  // ----- what is taken ----------------------------------------------------------------

  /** A number as it stands, no larger than a million metres. */
  predicate Reads(v: Value, x: real) {
    (v == Float(x) || (v.Int? && v.whole as real == x)) && -1000000.0 <= x <= 1000000.0
  }

  /** A position is read exactly off three numbers, in their order. */
  lemma PositionIsExact(p: Option<seq<Value>>, q: Point)
    ensures FixedVector(p) == Some(q) <==>
              p.Some? && |p.value| == 3 && Reads(p.value[0], q.x) && Reads(p.value[1], q.y) && Reads(p.value[2], q.z)
  {}

  /** A stamp is read exactly off its seconds and the nanoseconds that remain. */
  lemma StampIsExact(sec: Value, nanosec: Value, stamp: int)
    ensures SourceStamp(sec, nanosec) == Some(stamp) <==>
              0 < stamp <= MAX_STAMP_NS && sec == Int(stamp / 1_000_000_000) && nanosec == Int(stamp % 1_000_000_000)
  {}

  /** A message is taken exactly when nothing was refused before, it is well formed, and its sample
      continues the chain; a repeated stamp makes it a duplicate. */
  lemma TakenExactly(samples: seq<Sample>, invalid: Option<Defect>, message: Message, now: real, staleMs: nat)
    requires Chain(samples, staleMs)
    ensures Assess(invalid, Last(samples), message, now, staleMs).Fits? <==>
              && invalid.None?
              && FixedVector(message.position).Some? && SourceStamp(message.sec, message.nanosec).Some?
              && Chain(samples + [Measured(message, now)], staleMs)
    ensures Assess(invalid, Last(samples), message, now, staleMs).Duplicate? <==>
              && invalid.None? && samples != []
              && FixedVector(message.position).Some?
              && SourceStamp(message.sec, message.nanosec) == Some(samples[|samples| - 1].stamp)
  {
    if FixedVector(message.position).Some? && SourceStamp(message.sec, message.nanosec).Some? {
      assert (samples + [Measured(message, now)])[..|samples|] == samples;
    }
  }

  // ----- what a chain of samples adds up to -------------------------------------------

  lemma {:induction false} ChainAt(samples: seq<Sample>, staleMs: nat, i: nat)
    requires Chain(samples, staleMs) && 0 < i < |samples|
    ensures Follows(samples[i - 1], samples[i], staleMs)
  {
    if i < |samples| - 1 {
      ChainAt(samples[..|samples| - 1], staleMs, i);
    }
  }

  lemma {:induction false} StampsIncrease(samples: seq<Sample>, staleMs: nat, i: nat, j: nat)
    requires Chain(samples, staleMs) && i < j < |samples|
    ensures samples[i].stamp < samples[j].stamp
    decreases j - i
  {
    ChainAt(samples, staleMs, j);
    if i < j - 1 {
      StampsIncrease(samples, staleMs, i, j - 1);
    }
  }

  /** `(a - n * b)` squared is not negative. */
  lemma AxisBound(a: real, b: real, n: real)
    ensures 2.0 * (n * (a * b)) <= a * a + n * n * (b * b)
  {
    var t := n * b;
    assert (a - t) * (a - t) == a * a - 2.0 * (a * t) + t * t;
    assert a * t == n * (a * b);
    assert t * t == n * n * (b * b);
  }

  lemma Positive(n: real, d: real)
    requires 0.0 < n
    ensures 0.0 < d ==> 0.0 < n * d
  {
  }

  lemma Cancel(x: real, n: real)
    requires 0.0 < n && n * x <= n * n
    ensures x <= n
  {
    Positive(n, x - n);
    assert n * (x - n) == n * x - n * n;
  }

  /** Vectors no longer than `n` and 1 have an inner product of at most `n`. */
  lemma DotBound(ax: real, ay: real, az: real, ux: real, uy: real, uz: real, n: real)
    requires 0.0 < n
    requires ax * ax + ay * ay + az * az <= n * n && ux * ux + uy * uy + uz * uz <= 1.0
    ensures ax * ux + ay * uy + az * uz <= n
  {
    AxisBound(ax, ux, n);
    AxisBound(ay, uy, n);
    AxisBound(az, uz, n);
    var dot, unit := ax * ux + ay * uy + az * uz, ux * ux + uy * uy + uz * uz;
    assert n * dot == n * (ax * ux) + n * (ay * uy) + n * (az * uz);
    assert n * n * unit == n * n * (ux * ux) + n * n * (uy * uy) + n * n * (uz * uz);
    assert n * n * unit <= n * n by { Shrink(n * n, unit); }
    Cancel(dot, n);
  }

  lemma Shrink(x: real, u: real)
    requires 0.0 <= x && u <= 1.0
    ensures x * u <= x
  {
  }

  lemma SquareOfSum(a: real, b: real)
    ensures (a + b) * (a + b) == a * a + 2.0 * (a * b) + b * b
  {
  }

  lemma Offsets(p: Point, q: Point, dx: real, dy: real, dz: real)
    requires dx == q.x - p.x && dy == q.y - p.y && dz == q.z - p.z
    ensures DistanceSquared(q, p) == dx * dx + dy * dy + dz * dz
  {
  }

  /** One more step of at most a metre lengthens a displacement by at most a metre. */
  lemma StepLengthens(p: Point, q: Point, r: Point, n: real)
    requires 0.0 < n && DistanceSquared(q, p) <= n * n && DistanceSquared(r, q) <= 1.0
    ensures DistanceSquared(r, p) <= (n + 1.0) * (n + 1.0)
  {
    var ax, ay, az := q.x - p.x, q.y - p.y, q.z - p.z;
    var ux, uy, uz := r.x - q.x, r.y - q.y, r.z - q.z;
    Offsets(p, q, ax, ay, az);
    Offsets(q, r, ux, uy, uz);
    Offsets(p, r, ax + ux, ay + uy, az + uz);
    DotBound(ax, ay, az, ux, uy, uz, n);
    SquareOfSum(ax, ux);
    SquareOfSum(ay, uy);
    SquareOfSum(az, uz);
    SquareOfSum(n, 1.0);
  }

  /** After `k` accepted steps the robot is at most `k` metres from where it was. */
  lemma {:induction false} DisplacementIsBounded(samples: seq<Sample>, staleMs: nat, i: nat, j: nat)
    requires Chain(samples, staleMs) && i <= j < |samples|
    ensures DistanceSquared(samples[j].position, samples[i].position) <= (j - i) as real * (j - i) as real
    decreases j - i
  {
    if i < j {
      ChainAt(samples, staleMs, j);
      if i < j - 1 {
        DisplacementIsBounded(samples, staleMs, i, j - 1);
        var n := (j - 1 - i) as real;
        StepLengthens(samples[i].position, samples[j - 1].position, samples[j].position, n);
        assert n + 1.0 == (j - i) as real;
      }
    }
  }

  /** Source time runs ahead of callback time by at most 250 ms, and half a nanosecond of
      rounding, for each accepted step. */
  lemma {:induction false} SourceTimeIsBounded(samples: seq<Sample>, staleMs: nat, i: nat, j: nat)
    requires Chain(samples, staleMs) && i <= j < |samples|
    requires forall m, n | 0 <= m <= n < |samples| :: samples[m].at <= samples[n].at
    ensures (samples[j].stamp - samples[i].stamp) as real
            <= (samples[j].at - samples[i].at) * 1000000000.0 + (j - i) as real * 250000000.5
    decreases j - i
  {
    if i < j {
      SourceTimeIsBounded(samples, staleMs, i, j - 1);
      ChainAt(samples, staleMs, j);
      var delta := DeltaNs(samples[j - 1].at, samples[j].at);
      assert samples[j - 1].at <= samples[j].at;
      assert delta as real <= (samples[j].at - samples[j - 1].at) * 1000000000.0 + 0.5;
      assert (j - i) as real == (j - 1 - i) as real + 1.0;
    }
  }

  /** The reported maximum is one of the gaps, bounds them all, and never exceeds the limit. */
  lemma {:induction false} MaxGapIsTheMaximum(samples: seq<Sample>, staleMs: nat)
    requires Chain(samples, staleMs)
    ensures MaxGap(samples).Some? <==> |samples| >= 2
    ensures MaxGap(samples).Some? ==>
              && MaxGap(samples).value <= staleMs
              && (forall i | 0 < i < |samples| :: GapAt(samples, i) <= MaxGap(samples).value)
              && (exists i | 0 < i < |samples| :: GapAt(samples, i) == MaxGap(samples).value)
  {
    if |samples| >= 2 {
      var n := |samples| - 1;
      MaxGapIsTheMaximum(samples[..n], staleMs);
      forall i | 0 < i < n ensures GapAt(samples, i) == GapAt(samples[..n], i) {
      }
      if MaxGap(samples) != Some(GapAt(samples, n)) {
        var i :| 0 < i < n && GapAt(samples[..n], i) == MaxGap(samples[..n]).value;
        assert GapAt(samples, i) == MaxGap(samples).value;
      }
    }
  }
}
