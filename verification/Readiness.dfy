/** Readiness hysteresis: when a session may call its localization ready, over whole runs. */
module Readiness {
  import opened Wire
  import opened HealthClassifier

  datatype Band = HardFault | ExitFailure | Enter | Hysteresis | Legacy

  type Generation = Option<nat>

  // ----- the stabilizer as a value ------------------------------------------------------------

  datatype Stabilizer = Stabilizer(generation: Generation, state: Health, enterSince: Option<real>,
                                   exitSince: Option<real>, readySince: Option<real>, transitions: nat)

  const NEW := Stabilizer(None, Unavailable, None, None, None, 0)

  datatype Report = Report(state: Health, band: Band, stableReady: real, hardFault: bool, transitions: nat)

  /** `BadTime` is the refused clock value; `RateMissing` the failed assertion on the raw rate. */
  datatype Failure = BadTime | RateMissing

  predicate IsHardFault(v: Verdict) {
    match v.state
    case Degraded => v.reason != RateBelowEnter
    case Ready => false
    case _ => true
  }

  function Reset(s: Stabilizer, generation: Generation): Stabilizer {
    Stabilizer(generation, Unavailable, None, None, None, 0)
  }

  function Transition(s: Stabilizer, state: Health): Stabilizer {
    if state != s.state then s.(state := state, transitions := s.transitions + 1) else s
  }

  function Since(start: Option<real>, now: real): real {
    if start.Some? then Max(0.0, now - start.value) else 0.0
  }

  function Started(since: Option<real>, now: real): real {
    if since.Some? then since.value else now
  }

  /** One observation under the enabled policy, in an unchanged generation. */
  function Observe(s: Stabilizer, p: RatePolicy, v: Verdict, raw: Option<real>, now: real)
    : Result<(Stabilizer, Band), Failure>
  {
    if IsHardFault(v) then
      Ok((Transition(s.(enterSince := None, exitSince := None, readySince := None), v.state), HardFault))
    else if s.state == Ready then
      if raw.None? then Err(RateMissing)
      else if raw.value < p.exitHz then
        var since := Started(s.exitSince, now);
        var left := s.(exitSince := Some(since));
        if Max(0.0, now - since) >= p.exitDwell then
          Ok((Transition(left.(enterSince := None, readySince := None), Degraded), ExitFailure))
        else Ok((left, ExitFailure))
      else Ok((s.(exitSince := None), if raw.value >= p.enterHz then Enter else Hysteresis))
    else if v.state == Ready && raw.Some? then
      var since := Started(s.enterSince, now);
      var entering := s.(exitSince := None, enterSince := Some(since));
      if Max(0.0, now - since) >= p.enterDwell then
        Ok((Transition(entering.(readySince := Some(since)), Ready), Enter))
      else Ok((Transition(entering, Degraded), Enter))
    else
      Ok((Transition(s.(enterSince := None, exitSince := None, readySince := None), Degraded), ExitFailure))
  }

  function Update(s: Stabilizer, p: RatePolicy, v: Verdict, raw: Option<real>, now: real,
                  generation: Generation): (Stabilizer, Result<Report, Failure>)
  {
    if now < 0.0 then (s, Err(BadTime))
    else
      var changed := generation != s.generation;
      var t := if changed then Reset(s, generation) else s;
      if !p.enabled then (t, Ok(Report(v.state, Legacy, 0.0, IsHardFault(v), 0)))
      else if changed then (t, Ok(Report(Unavailable, HardFault, 0.0, true, 0)))
      else
        match Observe(t, p, v, raw, now)
        case Err(e) => (t, Err(e))
        case Ok((u, band)) =>
          (u, Ok(Report(u.state, band, Since(u.readySince, now), IsHardFault(v), u.transitions)))
  }

  // ----- runs ---------------------------------------------------------------------------------

  datatype Event =
    | Tick(metrics: Metrics, active: bool, localized: bool, now: real, generation: Generation)
    | Restart(generation: Generation)

  /** What one event left behind: the state before and after it, and what it answered. */
  datatype Entry = Entry(event: Event, before: Health, after: Health, kept: bool, report: Option<Report>)

  function VerdictOf(e: Event, t: Thresholds): Verdict
    requires e.Tick?
  {
    Classify(e.metrics, e.active, e.localized, t, Some(COMPETITION))
  }

  function RawRate(e: Event): Option<real>
    requires e.Tick?
  {
    Number(e.metrics.odometryHzRaw)
  }

  function Step(s: Stabilizer, e: Event, t: Thresholds): (Stabilizer, Entry) {
    match e
    case Tick(m, active, localized, now, generation) =>
      var (u, r) := Update(s, COMPETITION, VerdictOf(e, t), RawRate(e), now, generation);
      (u, Entry(e, s.state, u.state, generation == s.generation, if r.Ok? then Some(r.value) else None))
    case Restart(generation) =>
      var u := Reset(s, generation);
      (u, Entry(e, s.state, u.state, false, None))
  }

  function Run(events: seq<Event>, t: Thresholds): (Stabilizer, seq<Entry>) {
    if events == [] then (NEW, [])
    else
      var (s, log) := Run(events[..|events| - 1], t);
      var (u, entry) := Step(s, events[|events| - 1], t);
      (u, log + [entry])
  }

  /** The monotonic clock never runs backwards. */
  ghost predicate Timed(events: seq<Event>) {
    && (forall i :: 0 <= i < |events| && events[i].Tick? ==> events[i].now >= 0.0)
    && forall i, j :: 0 <= i < j < |events| && events[i].Tick? && events[j].Tick? ==>
         events[i].now <= events[j].now
  }

  // ----- reference readings of a log ---------------------------------------------------------------

  predicate Continues(x: Entry) {
    x.event.Tick? && x.kept && x.event.now >= 0.0
  }

  /** Since when every tick has found the telemetry instantaneously ready, in one generation. */
  function ReadyStreak(log: seq<Entry>, t: Thresholds): Option<real> {
    if log == [] then None
    else
      var x, earlier := log[|log| - 1], ReadyStreak(log[..|log| - 1], t);
      if !Continues(x) || VerdictOf(x.event, t).state != Ready then None
      else Some(Started(earlier, x.event.now))
  }

  predicate Slow(x: Entry) {
    Continues(x) && RawRate(x.event).Some? && RawRate(x.event).value < COMPETITION.exitHz
  }

  /** Since when every tick has shown a raw rate below the exit rate. */
  function SlowStreak(log: seq<Entry>): Option<real> {
    if log == [] then None
    else
      var x, earlier := log[|log| - 1], SlowStreak(log[..|log| - 1]);
      if !Slow(x) then None else Some(Started(earlier, x.event.now))
  }

  predicate Enters(x: Entry) {
    x.event.Tick? && x.before != Ready && x.after == Ready
  }

  function LastEntry(log: seq<Entry>): Option<real> {
    if log == [] then None
    else if Enters(log[|log| - 1]) then Some(log[|log| - 1].event.now)
    else LastEntry(log[..|log| - 1])
  }

  /** How often the state has changed since the last reset. */
  function Changes(log: seq<Entry>): nat {
    if log == [] || !log[|log| - 1].kept then 0
    else Changes(log[..|log| - 1]) + if log[|log| - 1].before != log[|log| - 1].after then 1 else 0
  }

  /** Since when a ready state has seen slow ticks and no tick at the exit rate or above; a tick
      without a rate counts neither way. */
  function LeavingSince(log: seq<Entry>): Option<real> {
    if log == [] then None
    else
      var x, earlier := log[|log| - 1], LeavingSince(log[..|log| - 1]);
      if !Continues(x) || x.before != Ready then None
      else if RawRate(x.event).None? then earlier
      else if Slow(x) then Some(Started(earlier, x.event.now))
      else None
  }

  /** When the ready streak began that led to the ready state in force. */
  function ReadyFrom(log: seq<Entry>, t: Thresholds): Option<real> {
    if log == [] || !Continues(log[|log| - 1]) || log[|log| - 1].after != Ready then None
    else if Enters(log[|log| - 1]) then ReadyStreak(log, t)
    else ReadyFrom(log[..|log| - 1], t)
  }

  // ----- the invariant ------------------------------------------------------------------------------

  /** The readings together. */
  datatype Tally = Tally(ready: Option<real>, slow: Option<real>, entry: Option<real>, changes: nat,
                         leaving: Option<real>, from: Option<real>)

  function TallyOf(log: seq<Entry>, t: Thresholds): Tally {
    Tally(ReadyStreak(log, t), SlowStreak(log), LastEntry(log), Changes(log), LeavingSince(log), ReadyFrom(log, t))
  }

  /** How the readings move with one tick in an unchanged generation. */
  function Observed(a: Tally, v: Verdict, raw: Option<real>, now: real, before: Health, after: Health): Tally {
    Tally(if v.state == Ready then Some(Started(a.ready, now)) else None,
          if raw.Some? && raw.value < COMPETITION.exitHz then Some(Started(a.slow, now)) else None,
          if before != Ready && after == Ready then Some(now) else a.entry,
          a.changes + if before != after then 1 else 0,
          if before != Ready then None
          else if raw.None? then a.leaving
          else if raw.value < COMPETITION.exitHz then Some(Started(a.leaving, now)) else None,
          if after != Ready then None
          else if before != Ready then (if v.state == Ready then Some(Started(a.ready, now)) else None)
          else a.from)
  }

  ghost predicate Fits(s: Stabilizer, a: Tally, clock: real) {
    && (s.state != Ready ==> s.enterSince == a.ready)
    && (s.state == Ready ==> s.exitSince == a.leaving)
    && s.readySince == a.from && (s.state != Ready ==> s.readySince.None?)
    && (s.state == Ready && a.slow.Some? ==> s.exitSince.Some? && s.exitSince.value <= a.slow.value)
    && (s.state == Ready ==>
          s.readySince.Some? && a.entry.Some? && s.readySince.value + COMPETITION.enterDwell <= a.entry.value)
    && (s.exitSince.Some? ==> s.exitSince.value <= clock)
    && (a.entry.Some? ==> a.entry.value <= clock)
    && (a.ready.Some? ==> a.ready.value <= clock)
    && (s.state != Ready && a.entry.Some? && a.ready.Some? ==> a.entry.value <= a.ready.value)
    && s.transitions == a.changes
  }

  /** What the classifier guarantees about the rate. */
  predicate Rated(v: Verdict, raw: Option<real>) {
    !IsHardFault(v) ==> (v.state == Ready <==> raw.Some? && raw.value >= COMPETITION.enterHz)
  }

  /** One observation keeps the invariant, and enters the ready state only at the end of a
      long enough streak that began after the last entry. */
  lemma ObserveKeeps(s: Stabilizer, a: Tally, v: Verdict, raw: Option<real>, now: real, clock: real)
    requires Fits(s, a, clock) && clock <= now && Rated(v, raw)
    ensures var u := (match Observe(s, COMPETITION, v, raw, now) case Ok(pair) => pair.0 case Err(_) => s);
            var b := Observed(a, v, raw, now, s.state, u.state);
            && Fits(u, b, now)
            && (s.state != Ready && u.state == Ready ==>
                  v.state == Ready && b.ready.Some? && b.ready.value + COMPETITION.enterDwell <= now &&
                  (a.entry.Some? ==> a.entry.value + COMPETITION.enterDwell <= now))
  {}

  lemma Rating(e: Event, t: Thresholds)
    requires e.Tick?
    ensures Rated(VerdictOf(e, t), RawRate(e))
  {
    ReadyIsExact(e.metrics, e.active, e.localized, t, COMPETITION);
    RateReasonIsExact(e.metrics, e.active, e.localized, t, COMPETITION);
    SoftIsSlow(VerdictOf(e, t));
  }

  /** The only verdicts that are not hard faults. */
  lemma SoftIsSlow(v: Verdict)
    ensures !IsHardFault(v) && v.state != Ready ==> v == Verdict(Degraded, RateBelowEnter)
  {}

  lemma TallyStep(log: seq<Entry>, x: Entry, t: Thresholds)
    ensures TallyOf(log + [x], t) ==
              if Continues(x)
              then Observed(TallyOf(log, t), VerdictOf(x.event, t), RawRate(x.event), x.event.now, x.before, x.after)
              else Tally(None, None, if Enters(x) then Some(x.event.now) else LastEntry(log),
                         if x.kept then Changes(log + [x]) else 0, None, None)
  {
    assert (log + [x])[..|log|] == log;
  }

  function ClockAfter(events: seq<Event>): real {
    if events == [] then 0.0
    else if events[|events| - 1].Tick? then events[|events| - 1].now
    else ClockAfter(events[..|events| - 1])
  }

  lemma {:induction false} ClockIsAhead(events: seq<Event>, now: real)
    requires now >= 0.0 && forall i :: 0 <= i < |events| && events[i].Tick? ==> events[i].now <= now
    ensures ClockAfter(events) <= now
  {
    if events != [] {
      ClockIsAhead(events[..|events| - 1], now);
    }
  }

  lemma StepKeeps(s: Stabilizer, log: seq<Entry>, e: Event, t: Thresholds, clock: real)
    requires Fits(s, TallyOf(log, t), clock)
    requires e.Tick? ==> clock <= e.now && 0.0 <= e.now
    ensures var (u, x) := Step(s, e, t);
            Fits(u, TallyOf(log + [x], t), if e.Tick? then e.now else clock)
  {
    var (u, x) := Step(s, e, t);
    TallyStep(log, x, t);
    if e.Tick? && e.generation == s.generation {
      Rating(e, t);
      ObserveKeeps(s, TallyOf(log, t), VerdictOf(e, t), RawRate(e), e.now, clock);
    }
  }

  lemma {:induction false} RunKeeps(events: seq<Event>, t: Thresholds)
    requires Timed(events)
    ensures Fits(Run(events, t).0, TallyOf(Run(events, t).1, t), ClockAfter(events))
  {
    if events != [] {
      var before, e := events[..|events| - 1], events[|events| - 1];
      RunKeeps(before, t);
      if e.Tick? {
        ClockIsAhead(before, e.now);
      }
      StepKeeps(Run(before, t).0, Run(before, t).1, e, t, ClockAfter(before));
    }
  }

  // ----- theorems over whole runs -----------------------------------------------------------------------

  lemma {:induction false} LogShape(events: seq<Event>, t: Thresholds, k: nat)
    requires k < |events|
    ensures |Run(events, t).1| == |events|
    ensures Run(events, t).1[..k] == Run(events[..k], t).1
    ensures Run(events, t).1[k] == Step(Run(events[..k], t).0, events[k], t).1
  {
    var before := events[..|events| - 1];
    if before != [] {
      LogShape(before, t, if k < |before| then k else 0);
    }
    if k < |before| {
      assert before[..k] == events[..k];
    }
  }

  /** The readings before event `k` and the state it found. */
  lemma At(events: seq<Event>, t: Thresholds, k: nat) returns (s: Stabilizer, log: seq<Entry>)
    requires k < |events| && Timed(events)
    ensures (s, log) == Run(events[..k], t) && Fits(s, TallyOf(log, t), ClockAfter(events[..k]))
    ensures |Run(events, t).1| == |events| && Run(events, t).1[..k] == log
    ensures Run(events, t).1[k] == Step(s, events[k], t).1
    ensures events[k].Tick? ==> ClockAfter(events[..k]) <= events[k].now
  {
    LogShape(events, t, k);
    RunKeeps(events[..k], t);
    if events[k].Tick? {
      ClockIsAhead(events[..k], events[k].now);
    }
    s, log := Run(events[..k], t).0, Run(events[..k], t).1;
  }

  function TimeOf(x: Entry): real {
    if x.event.Tick? then x.event.now else 0.0
  }

  predicate RateInOrder(x: Entry) {
    x.event.Tick? && AtLeast(x.event.metrics.odometryHzRaw, 9.5) && AtMost(x.event.metrics.maxGap, 0.25)
  }

  ghost predicate IsLog(events: seq<Event>, t: Thresholds, log: seq<Entry>) {
    Timed(events) && log == Run(events, t).1 && |log| == |events|
  }

  /** Every tick from `j` to `k` found the telemetry ready, in one generation. */
  ghost predicate ReadyThroughout(log: seq<Entry>, t: Thresholds, j: nat, k: nat) {
    j <= k < |log| && forall i :: j <= i <= k ==> ReadyAt(log, t, i)
  }

  predicate ReadyAt(log: seq<Entry>, t: Thresholds, i: nat)
    requires i < |log|
  {
    Continues(log[i]) && VerdictOf(log[i].event, t).state == Ready
  }

  /** A streak reading is witnessed by an unbroken stretch of the log. */
  lemma {:induction false} StreakMeans(log: seq<Entry>, t: Thresholds) returns (j: nat)
    requires log != [] && ReadyStreak(log, t).Some?
    ensures ReadyThroughout(log, t, j, |log| - 1) && TimeOf(log[j]) == ReadyStreak(log, t).value
  {
    var before := log[..|log| - 1];
    if before != [] && ReadyStreak(before, t).Some? {
      j := StreakMeans(before, t);
      forall i | j <= i <= |log| - 1 ensures ReadyAt(log, t, i) {
        assert i < |before| ==> ReadyAt(before, t, i) && before[i] == log[i];
      }
    } else {
      j := |log| - 1;
    }
  }

  /** An entry leaves a ready streak that has lasted the dwell, and so has the last entry. */
  lemma EntryStep(s: Stabilizer, before: seq<Entry>, e: Event, t: Thresholds, clock: real)
    requires Fits(s, TallyOf(before, t), clock) && e.Tick? && clock <= e.now && Enters(Step(s, e, t).1)
    ensures var streak := ReadyStreak(before + [Step(s, e, t).1], t);
            streak.Some? && streak.value + 10.0 <= e.now
    ensures LastEntry(before).Some? ==> LastEntry(before).value + 10.0 <= e.now
  {
    assert e.generation == s.generation;
    Rating(e, t);
    ObserveKeeps(s, TallyOf(before, t), VerdictOf(e, t), RawRate(e), e.now, clock);
    TallyStep(before, Step(s, e, t).1, t);
  }

  lemma EntryIsLate(events: seq<Event>, t: Thresholds, log: seq<Entry>, k: nat)
    requires IsLog(events, t, log) && k < |log| && Enters(log[k])
    ensures var streak := ReadyStreak(log[..k + 1], t);
            streak.Some? && streak.value + 10.0 <= TimeOf(log[k])
    ensures LastEntry(log[..k]).Some? ==> LastEntry(log[..k]).value + 10.0 <= TimeOf(log[k])
  {
    var s, before := At(events, t, k);
    var x := Step(s, events[k], t).1;
    assert log[k] == x;
    EntryStep(s, before, events[k], t, ClockAfter(events[..k]));
    assert log[..k] == before && log[..k + 1] == before + [x];
  }

  /** Ready is entered only at the end of at least ten seconds in which every tick, in one
      generation, found the telemetry ready, so with a raw rate of at least 9.5 Hz and no gap
      above a quarter second. */
  lemma EntryNeedsTheDwell(events: seq<Event>, t: Thresholds, log: seq<Entry>, k: nat) returns (j: nat)
    requires IsLog(events, t, log) && k < |log| && Enters(log[k])
    ensures ReadyThroughout(log, t, j, k)
    ensures TimeOf(log[k]) - TimeOf(log[j]) >= 10.0
    ensures forall i :: j <= i <= k ==> RateInOrder(log[i])
  {
    EntryIsLate(events, t, log, k);
    j := StreakMeans(log[..k + 1], t);
    forall i | j <= i <= k ensures ReadyAt(log, t, i) && RateInOrder(log[i]) {
      assert ReadyAt(log[..k + 1], t, i) && log[..k + 1][i] == log[i];
      ReadyHasRate(log[i], t);
    }
  }

  lemma ReadyHasRate(x: Entry, t: Thresholds)
    requires Continues(x) && VerdictOf(x.event, t).state == Ready
    ensures RateInOrder(x)
  {
    ReadyIsExact(x.event.metrics, x.event.active, x.event.localized, t, COMPETITION);
  }

  lemma {:induction false} LastEntryIsLate(log: seq<Entry>, j: nat)
    requires j < |log| && Enters(log[j])
    requires forall i :: 0 <= i < |log| && log[i].event.Tick? ==> log[j].event.now <= log[i].event.now || i < j
    ensures LastEntry(log).Some? && log[j].event.now <= LastEntry(log).value
  {
    if !Enters(log[|log| - 1]) {
      LastEntryIsLate(log[..|log| - 1], j);
    }
  }

  /** Two entries are at least ten seconds apart, whatever faults, resets or changes of
      generation lie between them. */
  lemma EntriesAreApart(events: seq<Event>, t: Thresholds, log: seq<Entry>, j: nat, k: nat)
    requires IsLog(events, t, log) && j < k < |log| && Enters(log[j]) && Enters(log[k])
    ensures TimeOf(log[k]) - TimeOf(log[j]) >= 10.0
  {
    EventsAreKept(events, t, log);
    var before := log[..k];
    forall i | 0 <= i < k && before[i].event.Tick?
      ensures before[j].event.now <= before[i].event.now || i < j
    {
      assert before[i] == log[i] && before[j] == log[j];
    }
    LastEntryIsLate(before, j);
    EntryIsLate(events, t, log, k);
  }

  lemma EventsAreKept(events: seq<Event>, t: Thresholds, log: seq<Entry>)
    requires IsLog(events, t, log)
    ensures forall i :: 0 <= i < |log| ==> log[i].event == events[i]
  {
    forall i | 0 <= i < |log| ensures log[i].event == events[i] {
      LogShape(events, t, i);
    }
  }

  /** Ready is never reported on a hard fault, and a ready report is backed by a stretch of at
      least ten seconds since its ready streak began. */
  lemma ReadyReportsAreSound(events: seq<Event>, t: Thresholds, log: seq<Entry>, k: nat)
    requires IsLog(events, t, log) && k < |log|
    requires log[k].report.Some? && log[k].report.value.state == Ready
    ensures log[k].event.Tick? && !IsHardFault(VerdictOf(log[k].event, t)) && !log[k].report.value.hardFault
    ensures log[k].report.value.stableReady >= 10.0
    ensures log[k].report.value.transitions == Changes(log[..k + 1])
  {
    var s, before := At(events, t, k);
    StepKeeps(s, before, events[k], t, ClockAfter(events[..k]));
    assert log[..k + 1] == before + [log[k]];
  }

  ghost predicate SlowThroughout(log: seq<Entry>, j: nat, k: nat) {
    j <= k < |log| && forall i :: j <= i <= k ==> SlowAt(log, i)
  }

  predicate SlowAt(log: seq<Entry>, i: nat)
    requires i < |log|
  {
    Slow(log[i])
  }

  lemma {:induction false} SlowStreakMeans(log: seq<Entry>, j: nat)
    requires log != [] && SlowThroughout(log, j, |log| - 1)
    requires forall i, k :: 0 <= i < k < |log| && log[i].event.Tick? && log[k].event.Tick? ==>
                              log[i].event.now <= log[k].event.now
    ensures SlowStreak(log).Some? && SlowStreak(log).value <= TimeOf(log[j])
  {
    var before := log[..|log| - 1];
    assert SlowAt(log, |log| - 1);
    if j < |before| {
      forall i | j <= i <= |before| - 1 ensures SlowAt(before, i) {
        assert SlowAt(log, i);
      }
      SlowStreakMeans(before, j);
    } else if before != [] && SlowStreak(before).Some? {
      assert SlowAt(before, |before| - 1);
      SlowStreakMeans(before, |before| - 1);
    }
  }

  /** After two seconds in which every tick shows a raw rate below 9.0 Hz, ready is no longer
      reported. */
  lemma SlownessEndsReady(events: seq<Event>, t: Thresholds, log: seq<Entry>, j: nat, k: nat)
    requires IsLog(events, t, log) && j < k && SlowThroughout(log, j, k)
    requires TimeOf(log[k]) - TimeOf(log[j]) >= 2.0
    ensures log[k].after != Ready
    ensures log[k].report.Some? && log[k].report.value.state != Ready
  {
    var s, before := At(events, t, k);
    var e := events[k];
    assert SlowAt(log, k);
    forall i | j <= i <= k - 1 ensures SlowAt(before, i) {
      assert SlowAt(log, i);
    }
    EventsAreKept(events, t, log);
    forall i, m | 0 <= i < m < |before| && before[i].event.Tick? && before[m].event.Tick?
      ensures before[i].event.now <= before[m].event.now
    {
      assert before[i] == log[i] && before[m] == log[m];
    }
    SlowStreakMeans(before, j);
    Rating(e, t);
  }

  // ----- every observation, exactly -----------------------------------------------------------------------

  predicate Dwelt(since: Option<real>, now: real, dwell: real) {
    since.Some? && now - since.value >= dwell
  }

  function BandOf(hard: bool, raw: Option<real>, before: Health): Band {
    if hard then HardFault
    else if raw.Some? && raw.value >= 9.5 then Enter
    else if raw.Some? && raw.value >= 9.0 && before == Ready then Hysteresis
    else ExitFailure
  }

  /** What a tick in an unchanged generation leaves and reports, from the readings with it counted
      in. A ready state without a rate is kept and not reported. */
  predicate Exact(x: Entry, v: Verdict, raw: Option<real>, now: real, a: Tally) {
    var hard := IsHardFault(v);
    && (hard ==> x.after == v.state)
    && (!hard && x.before == Ready ==> x.after == if raw.Some? && Dwelt(a.leaving, now, 2.0) then Degraded else Ready)
    && (!hard && x.before != Ready ==> x.after == if Dwelt(a.ready, now, 10.0) then Ready else Degraded)
    && (x.report.None? <==> !hard && x.before == Ready && raw.None?)
    && (x.report.Some? ==>
          x.report.value == Report(x.after, BandOf(hard, raw, x.before),
                                   if a.from.Some? then now - a.from.value else 0.0, hard, a.changes))
  }

  lemma ObserveIsExact(s: Stabilizer, a: Tally, v: Verdict, raw: Option<real>, now: real, clock: real,
                       generation: Generation, e: Event)
    requires Fits(s, a, clock) && clock <= now && 0.0 <= now && Rated(v, raw) && generation == s.generation
    requires a.from.Some? ==> a.from.value <= clock
    ensures var (u, r) := Update(s, COMPETITION, v, raw, now, generation);
            var x := Entry(e, s.state, u.state, true, if r.Ok? then Some(r.value) else None);
            Exact(x, v, raw, now, Observed(a, v, raw, now, s.state, u.state))
  {}

  /** Every tick in an unchanged generation leaves the state, and makes the report, that the readings
      of the log call for: a ready streak of ten seconds is always answered by ready, and only a hard
      fault or two slow seconds end it. */
  lemma TicksAreExact(events: seq<Event>, t: Thresholds, log: seq<Entry>, k: nat)
    requires IsLog(events, t, log) && k < |log| && Continues(log[k])
    ensures Exact(log[k], VerdictOf(log[k].event, t), RawRate(log[k].event), log[k].event.now, TallyOf(log[..k + 1], t))
  {
    var s, before := At(events, t, k);
    var e, a := events[k], TallyOf(before, t);
    Rating(e, t);
    FromIsPast(s, a, ClockAfter(events[..k]));
    ObserveIsExact(s, a, VerdictOf(e, t), RawRate(e), e.now, ClockAfter(events[..k]), e.generation, e);
    TallyStep(before, log[k], t);
    assert log[..k + 1] == before + [log[k]];
  }

  lemma FromIsPast(s: Stabilizer, a: Tally, clock: real)
    requires Fits(s, a, clock)
    ensures a.from.Some? ==> a.from.value <= clock
  {}

  /** A change of generation and a restart leave the state unavailable. */
  lemma ChangesReset(events: seq<Event>, t: Thresholds, log: seq<Entry>, k: nat)
    requires IsLog(events, t, log) && k < |log| && !Continues(log[k])
    ensures log[k].after == Unavailable
    ensures log[k].event.Tick? ==> log[k].report == Some(Report(Unavailable, HardFault, 0.0, true, 0))
    ensures Changes(log[..k + 1]) == 0
  {
    var s, before := At(events, t, k);
    assert log[..k + 1][k] == log[k];
    EventsAreKept(events, t, log);
  }
}
