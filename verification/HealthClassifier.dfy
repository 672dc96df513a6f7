/** The localization health classifier: one state and one reason from bounded telemetry. */
module HealthClassifier {
  import opened Wire

  datatype Health =
    | Ready | Degraded | Stale | Discontinuity | FrameMismatch | CalibrationSuspected | Unavailable

  datatype Reason =
    | Healthy | FrameContractMismatch | OdometryDiscontinuity | CalibrationMismatch
    | SourceConflict | NavigationInactive | TelemetryMissing | FreshnessExceeded
    | SequenceWarmup | InitialPoseRequired | CloudRateBelowMinimum
    | RateMetricsMissing | MaxGapExceeded | RateBelowEnter | RateBelowMinimum
    | CloudJitterExceeded | OdometryJitterExceeded | TooFewPoints | NoGoalProgress | ControllerStall

  datatype Verdict = Verdict(state: Health, reason: Reason)

  datatype Metrics = Metrics(
    frameError: bool, calibrationSuspected: bool, sourceError: bool, goalActive: bool,
    jumpAge: Value, cloudAge: Value, runtimeHealthAge: Value, odometryAge: Value,
    odomTfAge: Value, mapTfAge: Value, freshSequence: Value,
    cloudHz: Value, odometryHz: Value, odometryHzRaw: Value, maxGap: Value,
    cloudJitter: Value, odometryJitter: Value, acceptedPoints: Value,
    stallDuration: Value, progressRate: Value)

  datatype Thresholds = Thresholds(
    cloudMinHz: real, cloudMaxJitter: real, cloudStale: real, runtimeHealthStale: real,
    odometryMinHz: real, odometryMaxJitter: real, odometryStale: real, tfStale: real,
    acceptedPointsMin: int, freshSequenceMin: int, discontinuityRecent: real,
    progressMin: real, controllerStall: real)

  datatype RatePolicy = RatePolicy(enabled: bool, enterHz: real, exitHz: real,
                                   enterDwell: real, exitDwell: real, maxGap: Option<real>)

  /** The one enabled policy; every other profile gets a disabled one from its legacy rate. */
  const COMPETITION := RatePolicy(true, 9.5, 9.0, 10.0, 2.0, Some(0.25))

  function PolicyFor(competition: bool, legacyMinHz: real): (p: RatePolicy)
    ensures p.enabled <==> competition
    ensures p.exitHz <= p.enterHz
  {
    if competition then COMPETITION
    else
      var minimum := Clamp(legacyMinHz, 0.1, 500.0);
      RatePolicy(false, minimum, minimum, 0.0, 0.0, None)
  }

  /** A finite, nonnegative number, or nothing. */
  function Number(v: Value): (n: Option<real>)
    ensures n.Some? ==> n.value >= 0.0
  {
    match FiniteNumber(v)
    case Some(x) => if x >= 0.0 then Some(x) else None
    case None => None
  }

  function Count(v: Value): (n: int)
    ensures n >= 0
  {
    match Number(v)
    case Some(x) => x.Floor
    case None => 0
  }

  predicate Above(v: Value, bound: real) {
    Number(v).Some? && Number(v).value > bound
  }

  predicate AtLeast(v: Value, bound: real) {
    Number(v).Some? && Number(v).value >= bound
  }

  predicate AtMost(v: Value, bound: real) {
    Number(v).Some? && Number(v).value <= bound
  }

  function RateInUse(m: Metrics, policy: Option<RatePolicy>): Value {
    if policy.Some? && policy.value.enabled then m.odometryHzRaw else m.odometryHz
  }

  predicate AnyStale(m: Metrics, localized: bool, t: Thresholds) {
    || Above(m.cloudAge, t.cloudStale) || Above(m.runtimeHealthAge, t.runtimeHealthStale)
    || Above(m.odometryAge, t.odometryStale) || Above(m.odomTfAge, t.tfStale)
    || (localized && !AtMost(m.mapTfAge, t.tfStale))
  }

  function Rates(m: Metrics, t: Thresholds, policy: Option<RatePolicy>): Verdict {
    var odometry := RateInUse(m, policy);
    if !AtLeast(m.cloudHz, t.cloudMinHz) then Verdict(Degraded, CloudRateBelowMinimum)
    else if policy.Some? && policy.value.enabled && Number(m.maxGap).None? then Verdict(Degraded, RateMetricsMissing)
    else if policy.Some? && policy.value.enabled &&
            (policy.value.maxGap.None? || Above(m.maxGap, policy.value.maxGap.value))
         then Verdict(Degraded, MaxGapExceeded)
    else if policy.Some? && policy.value.enabled && !AtLeast(odometry, policy.value.enterHz)
         then Verdict(Degraded, RateBelowEnter)
    else if !(policy.Some? && policy.value.enabled) && !AtLeast(odometry, t.odometryMinHz)
         then Verdict(Degraded, RateBelowMinimum)
    else if !AtMost(m.cloudJitter, t.cloudMaxJitter) then Verdict(Degraded, CloudJitterExceeded)
    else if !AtMost(m.odometryJitter, t.odometryMaxJitter) then Verdict(Degraded, OdometryJitterExceeded)
    else if Count(m.acceptedPoints) < t.acceptedPointsMin then Verdict(Degraded, TooFewPoints)
    else if AtLeast(m.stallDuration, t.controllerStall) then
      if m.goalActive && !AtLeast(m.progressRate, t.progressMin)
      then Verdict(Degraded, NoGoalProgress) else Verdict(Degraded, ControllerStall)
    else Verdict(Ready, Healthy)
  }

  function Classify(m: Metrics, active: bool, localized: bool, t: Thresholds,
                    policy: Option<RatePolicy>): Verdict
  {
    if m.frameError then Verdict(FrameMismatch, FrameContractMismatch)
    else if AtMost(m.jumpAge, t.discontinuityRecent) then Verdict(Discontinuity, OdometryDiscontinuity)
    else if m.calibrationSuspected then Verdict(CalibrationSuspected, CalibrationMismatch)
    else if m.sourceError then Verdict(Unavailable, SourceConflict)
    else if !active then Verdict(Unavailable, NavigationInactive)
    else if Number(m.cloudAge).None? || Number(m.runtimeHealthAge).None? ||
            Number(m.odometryAge).None? || Number(m.odomTfAge).None?
         then Verdict(Unavailable, TelemetryMissing)
    else if AnyStale(m, localized, t) then Verdict(Stale, FreshnessExceeded)
    else if Count(m.freshSequence) < t.freshSequenceMin then Verdict(Degraded, SequenceWarmup)
    else if !localized then Verdict(Degraded, InitialPoseRequired)
    else Rates(m, t, policy)
  }

  // ----- the order of the checks -------------------------------------------------------------

  /** A number that counts: not negative, and given as one or as a text that reads as one. */
  lemma NumberIsExact(v: Value, x: real)
    ensures Number(v) == Some(x) <==>
              x >= 0.0 && (v == Float(x) || (v.Int? && v.whole as real == x) || (v.Text? && v.number == Some(x)))
  {}

  /** A requirement and the verdict of failing it. */
  datatype Demand = Demand(met: bool, state: Health, reason: Reason)

  /** What is asked of a session before its rates are looked at. */
  function SessionDemands(m: Metrics, active: bool, localized: bool, t: Thresholds): seq<Demand> {
    [Demand(!m.frameError, FrameMismatch, FrameContractMismatch),
     Demand(!AtMost(m.jumpAge, t.discontinuityRecent), Discontinuity, OdometryDiscontinuity),
     Demand(!m.calibrationSuspected, CalibrationSuspected, CalibrationMismatch),
     Demand(!m.sourceError, Unavailable, SourceConflict),
     Demand(active, Unavailable, NavigationInactive),
     Demand(Number(m.cloudAge).Some? && Number(m.runtimeHealthAge).Some? && Number(m.odometryAge).Some?
            && Number(m.odomTfAge).Some?, Unavailable, TelemetryMissing),
     Demand(AtMost(m.cloudAge, t.cloudStale) && AtMost(m.runtimeHealthAge, t.runtimeHealthStale)
            && AtMost(m.odometryAge, t.odometryStale) && AtMost(m.odomTfAge, t.tfStale)
            && (localized ==> AtMost(m.mapTfAge, t.tfStale)), Stale, FreshnessExceeded),
     Demand(Count(m.freshSequence) >= t.freshSequenceMin, Degraded, SequenceWarmup),
     Demand(localized, Degraded, InitialPoseRequired)]
  }

  /** What is asked of the rates: the raw rate and the greatest gap under an enabled policy, the
      averaged rate under any other. */
  function RateDemands(m: Metrics, t: Thresholds, policy: Option<RatePolicy>): seq<Demand> {
    var enabled := policy.Some? && policy.value.enabled;
    [Demand(AtLeast(m.cloudHz, t.cloudMinHz), Degraded, CloudRateBelowMinimum),
     Demand(enabled ==> Number(m.maxGap).Some?, Degraded, RateMetricsMissing),
     Demand(enabled ==> policy.value.maxGap.Some? && AtMost(m.maxGap, policy.value.maxGap.value),
            Degraded, MaxGapExceeded),
     Demand(enabled ==> AtLeast(m.odometryHzRaw, policy.value.enterHz), Degraded, RateBelowEnter),
     Demand(enabled || AtLeast(m.odometryHz, t.odometryMinHz), Degraded, RateBelowMinimum)]
  }

  /** What is asked last: even rates, enough points, and no stall of the controller. */
  function MotionDemands(m: Metrics, t: Thresholds): seq<Demand> {
    var stalled := AtLeast(m.stallDuration, t.controllerStall);
    [Demand(AtMost(m.cloudJitter, t.cloudMaxJitter), Degraded, CloudJitterExceeded),
     Demand(AtMost(m.odometryJitter, t.odometryMaxJitter), Degraded, OdometryJitterExceeded),
     Demand(Count(m.acceptedPoints) >= t.acceptedPointsMin, Degraded, TooFewPoints),
     Demand(stalled ==> !m.goalActive || AtLeast(m.progressRate, t.progressMin), Degraded, NoGoalProgress),
     Demand(!stalled, Degraded, ControllerStall)]
  }

  predicate MetBefore(demands: seq<Demand>, i: nat)
    requires i <= |demands|
  {
    forall k :: 0 <= k < i ==> demands[k].met
  }

  lemma EachMet(demands: seq<Demand>, i: nat)
    requires |demands| <= 9
    ensures i <= |demands| && MetBefore(demands, i) ==>
              && (0 < i ==> demands[0].met) && (1 < i ==> demands[1].met) && (2 < i ==> demands[2].met)
              && (3 < i ==> demands[3].met) && (4 < i ==> demands[4].met) && (5 < i ==> demands[5].met)
              && (6 < i ==> demands[6].met) && (7 < i ==> demands[7].met) && (8 < i ==> demands[8].met)
  {}

  /** The first demand that is not met decides; with none left the session is ready. The rates are
      looked at once the session's demands are met, and the motion once the rates' are. */
  lemma FirstUnmetDecides(m: Metrics, active: bool, localized: bool, t: Thresholds, policy: Option<RatePolicy>, i: nat)
    ensures var v, asked := Classify(m, active, localized, t, policy), SessionDemands(m, active, localized, t);
            i < |asked| && MetBefore(asked, i) && !asked[i].met ==> v == Verdict(asked[i].state, asked[i].reason)
    ensures var v, asked := Classify(m, active, localized, t, policy), SessionDemands(m, active, localized, t);
            MetBefore(asked, |asked|) ==> v == Rates(m, t, policy)
  {
    EachMet(SessionDemands(m, active, localized, t), i);
    EachMet(SessionDemands(m, active, localized, t), 9);
  }

  lemma FirstUnmetRateDecides(m: Metrics, t: Thresholds, policy: Option<RatePolicy>, i: nat)
    ensures var asked, last := RateDemands(m, t, policy), MotionDemands(m, t);
            && (i < |asked| && MetBefore(asked, i) && !asked[i].met ==>
                  Rates(m, t, policy) == Verdict(asked[i].state, asked[i].reason))
            && (MetBefore(asked, |asked|) && i < |last| && MetBefore(last, i) && !last[i].met ==>
                  Rates(m, t, policy) == Verdict(last[i].state, last[i].reason))
            && (MetBefore(asked, |asked|) && MetBefore(last, |last|) ==> Rates(m, t, policy) == Verdict(Ready, Healthy))
  {
    EachMet(RateDemands(m, t, policy), i);
    EachMet(RateDemands(m, t, policy), 5);
    EachMet(MotionDemands(m, t), i);
    EachMet(MotionDemands(m, t), 5);
  }

  // ----- what the verdicts mean -------------------------------------------------------------

  /** Everything but the odometry rate that the enabled policy asks for before it looks at
      the rate. */
  predicate SoundButForRate(m: Metrics, active: bool, localized: bool, t: Thresholds, p: RatePolicy) {
    && !m.frameError && !AtMost(m.jumpAge, t.discontinuityRecent) && !m.calibrationSuspected
    && !m.sourceError && active && localized
    && AtMost(m.cloudAge, t.cloudStale) && AtMost(m.runtimeHealthAge, t.runtimeHealthStale)
    && AtMost(m.odometryAge, t.odometryStale) && AtMost(m.odomTfAge, t.tfStale)
    && AtMost(m.mapTfAge, t.tfStale)
    && Count(m.freshSequence) >= t.freshSequenceMin && AtLeast(m.cloudHz, t.cloudMinHz)
    && p.maxGap.Some? && AtMost(m.maxGap, p.maxGap.value)
  }

  /** What remains after it. */
  predicate Smooth(m: Metrics, t: Thresholds) {
    && AtMost(m.cloudJitter, t.cloudMaxJitter) && AtMost(m.odometryJitter, t.odometryMaxJitter)
    && Count(m.acceptedPoints) >= t.acceptedPointsMin && !AtLeast(m.stallDuration, t.controllerStall)
  }

  /** Ready is given exactly when every requirement holds, whatever the order of the checks. */
  lemma ReadyIsExact(m: Metrics, active: bool, localized: bool, t: Thresholds, p: RatePolicy)
    requires p.enabled
    ensures Classify(m, active, localized, t, Some(p)).state == Ready <==>
              SoundButForRate(m, active, localized, t, p) && AtLeast(m.odometryHzRaw, p.enterHz) && Smooth(m, t)
  {}

  /** The one soft reason is given exactly when the rate is the first thing amiss. */
  lemma RateReasonIsExact(m: Metrics, active: bool, localized: bool, t: Thresholds, p: RatePolicy)
    requires p.enabled
    ensures Classify(m, active, localized, t, Some(p)) == Verdict(Degraded, RateBelowEnter) <==>
              SoundButForRate(m, active, localized, t, p) && !AtLeast(m.odometryHzRaw, p.enterHz)
  {}
}
