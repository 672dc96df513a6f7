/** What the watchdog does next, as a function of what has happened so far. The history is read by
    one small fold over the log; every tick publishes exactly what it calls for, and every command
    has exactly the effect it calls for. */
module BridgeHistory {
  import opened Wire
  import opened SportApi
  import opened BridgeCore
  import opened BridgeAdmission
  import opened BridgeRuns
  import opened BridgeOwner
  import opened BridgeTheorems

  // ----- readiness in plain terms ---------------------------------------------------------------

  /** Telemetry no older than its limit, one publisher of it, one reader of the requests, and as
      their writers this process and the expected bare ones alone. */
  predicate Sound(c: Settings, e: Surroundings) {
    && e.lowstateAge.Some? && 0.0 <= e.lowstateAge.value <= c.telemetryTimeout
    && e.lowstatePublishers == Int(1) && e.sportSubscribers == Int(1)
    && e.ownPublishers == Int(1) && e.foreignPublishers == Int(0)
    && e.barePublishers == Int(c.expectedBare) && e.sportPublishers == Int(1 + c.expectedBare)
  }

  /** A tick counts as ready exactly in sound surroundings. */
  lemma ReadyMeansSound(c: Settings, log: seq<Entry>, i: nat)
    requires IsLog(c, log) && i < |log| && log[i].Pulsed?
    ensures log[i].ready <==> Sound(c, log[i].surroundings)
  {
    var w, v := StepAt(c, log, i);
    assert v.log[i] == log[i];
  }

  // ----- the reading --------------------------------------------------------------------------------

  /** What has happened, as far as it still matters: the drive in force, whether a movement went out
      that nothing but an action's own stop has ended, whether a stop is owed, the action still to be
      published, the end of the last action's hold, and the time of the last StopMove. */
  datatype Reading = Reading(drive: Option<Drive>, rolling: bool, owed: bool, action: Option<Pending>,
                             holdEnd: real, lastStop: real)

  const FRESH_PROCESS := Reading(None, false, true, None, 0.0, 0.0)

  datatype Signal = Halt | Go(velocity: Velocity) | Do(action: Action)

  predicate Fresh(c: Settings, r: Reading, at: real) {
    r.drive.Some? && at - r.drive.value.issued <= c.commandTimeout
  }

  predicate Due(r: Reading, at: real) {
    r.action.Some? && at >= r.action.value.due
  }

  function Opening(owed: bool): seq<Signal> {
    if owed then [Halt] else []
  }

  /** A stop unasked for: the robot rolls without a command, or none went out for half a second. */
  predicate StopsUnasked(r: Reading, owed: bool, at: real) {
    r.rolling || (!owed && at - r.lastStop >= 0.50)
  }

  /** What follows the owed stop on a ready tick. */
  function Follows(c: Settings, r: Reading, at: real): Option<Signal> {
    if Due(r, at) then Some(Do(r.action.value.action))
    else if at < r.holdEnd then None
    else if Fresh(c, r, at) then Some(Go(r.drive.value.target))
    else if StopsUnasked(r, r.owed, at) then Some(Halt)
    else None
  }

  /** An unready tick takes away a drive and a running hold. */
  predicate Cuts(r: Reading, at: real) {
    r.drive.Some? || at < r.holdEnd
  }

  predicate HaltsAgain(r: Reading, at: real) {
    || (r.rolling && !Cuts(r, at) && r.action.None?)
    || (!r.owed && !Cuts(r, at) && at - r.lastStop >= 0.50)
  }

  /** Everything a tick publishes. */
  function Signals(c: Settings, r: Reading, at: real, ready: bool): seq<Signal> {
    if ready then Opening(r.owed) + (if Follows(c, r, at).Some? then [Follows(c, r, at).value] else [])
    else Opening(r.owed || Cuts(r, at)) + (if HaltsAgain(r, at) then [Halt] else [])
  }

  function AfterStop(r: Reading): Reading {
    r.(drive := None, rolling := false, owed := true, action := None, holdEnd := 0.0)
  }

  /** A movement too small to count as one. */
  predicate Negligible(v: Velocity) {
    && -0.000001 <= v.x <= 0.000001 && -0.000001 <= v.y <= 0.000001 && -0.000001 <= v.z <= 0.000001
  }

  function AfterTick(c: Settings, r: Reading, at: real, ready: bool): Reading {
    var stopped := if Halt in Signals(c, r, at, ready) then at else r.lastStop;
    if !ready then Reading(None, false, !Cuts(r, at) && r.action.Some?, None, 0.0, stopped)
    else
      match Follows(c, r, at)
      case None => r.(owed := false, lastStop := stopped)
      case Some(Do(_)) => r.(owed := false, lastStop := stopped, action := None)
      case Some(Go(v)) => r.(owed := false, lastStop := stopped, rolling := !Negligible(v))
      case Some(Halt) => r.(owed := false, lastStop := stopped, rolling := false, drive := None)
  }

  function AfterCommand(r: Reading, at: real, effect: Effect): Reading {
    match effect
    case Armed(issued, target) => r.(drive := Some(Drive(issued, target)), action := None)
    case Stopped => AfterStop(r)
    case Queued(a) =>
      r.(drive := None, owed := true, action := Some(Pending(a, at + 0.10)), holdEnd := at + GuardSeconds(a))
    case _ => r
  }

  function Next(c: Settings, r: Reading, e: Entry): Reading {
    if e.Received? then AfterCommand(r, e.at, e.effect)
    else if e.Pulsed? then AfterTick(c, r, e.at, e.ready)
    else AfterStop(r)
  }

  function Read(c: Settings, log: seq<Entry>): Reading {
    if log == [] then FRESH_PROCESS else Next(c, Read(c, log[..|log| - 1]), log[|log| - 1])
  }

  // ----- the record stands for the reading -------------------------------------------------------

  /** The drive in force, if any. */
  predicate DriveAgrees(s: Bridge, r: Reading, now: real) {
    if s.deadman then
      && r.drive == Some(Drive(s.lastDrive, s.target)) && s.lastDrive <= s.lastReceived <= now
      && s.pendingAction.None? && s.holdUntil <= now
    else r.drive.None? && s.target == ZERO
  }

  predicate HoldAgrees(s: Bridge, r: Reading, now: real) {
    && (s.holdUntil == r.holdEnd || (s.holdUntil <= now && r.holdEnd <= now))
    && (s.guardUntil <= now || s.guardUntil <= s.holdUntil)
  }

  predicate Agrees(s: Bridge, r: Reading, now: real) {
    && DriveAgrees(s, r, now) && HoldAgrees(s, r, now)
    && s.moving == r.rolling && s.pendingStop == r.owed && s.pendingAction == r.action && s.lastStop == r.lastStop
  }

  predicate Asks(q: SportRequest, signal: Signal) {
    match signal
    case Halt => q.apiId == 1003 && q.parameter.NoText?
    case Go(v) => q == MoveRequest(v)
    case Do(a) => q == ActionRequest(a)
  }

  predicate AsksAll(published: seq<SportRequest>, signals: seq<Signal>) {
    && |published| == |signals|
    && forall k :: 0 <= k < |published| ==> Asks(published[k], signals[k])
  }

  lemma ReadyTickPublishes(s: Bridge, r: Reading, now: real, at: real, e: Surroundings)
    requires Agrees(s, r, now) && now <= at && 0.0 <= at && Ready(s.cfg, e)
    ensures AsksAll(Tick(s, at, e).published, Signals(s.cfg, r, at, true))
  {}

  lemma ReadyTickIsExact(s: Bridge, r: Reading, now: real, at: real, e: Surroundings)
    requires Agrees(s, r, now) && now <= at && 0.0 <= at && Ready(s.cfg, e)
    ensures AsksAll(Tick(s, at, e).published, Signals(s.cfg, r, at, true))
    ensures Agrees(Tick(s, at, e).state, AfterTick(s.cfg, r, at, true), at)
  {
    ReadyTickPublishes(s, r, now, at, e);
  }

  lemma UnreadyTickIsExact(s: Bridge, r: Reading, now: real, at: real, e: Surroundings)
    requires Agrees(s, r, now) && now <= at && 0.0 <= at && !Ready(s.cfg, e)
    ensures AsksAll(Tick(s, at, e).published, Signals(s.cfg, r, at, false))
    ensures Agrees(Tick(s, at, e).state, AfterTick(s.cfg, r, at, false), at)
  {}

  // ----- the effect of every command ----------------------------------------------------------------

  /** The robot is armed, rolling, or held by an action. */
  predicate Busy(r: Reading, at: real) {
    r.drive.Some? || r.rolling || r.action.Some? || at < r.holdEnd
  }

  /** The token of an inhibit: thirty-two lower-case hexadecimal digits. */
  predicate NamesToken(v: Value) {
    v.Text? && |v.text| == 32 && forall i :: 0 <= i < 32 ==> v.text[i] in "0123456789abcdef"
  }

  lemma HexDigits(c: char)
    ensures IsHexDigit(c) <==> c in "0123456789abcdef"
  {
    var digits := "0123456789abcdef";
    if '0' <= c <= '9' {
      assert digits[c as int - 48] == c;
    }
    if 'a' <= c <= 'f' {
      assert digits[c as int - 87] == c;
    }
  }

  lemma TokenMeans(v: Value)
    ensures IsToken(v) <==> NamesToken(v)
  {
    if v.Text? && |v.text| == 32 {
      forall i | 0 <= i < 32 ensures IsHexDigit(v.text[i]) <==> v.text[i] in "0123456789abcdef" {
        HexDigits(v.text[i]);
      }
    }
  }

  function InhibitReply(r: Reading, held: Option<Inhibit>, p: Payload, source: string, at: real): Effect {
    if !NamesToken(p.token) || !p.enabled.Bool? then Rejected(InvalidInhibit)
    else
      var token := p.token.text;
      match held
      case Some(h) =>
        if h.token != token || h.source != source then Rejected(InhibitOwnerMismatch)
        else if p.enabled.flag then Rejected(InhibitRetained)
        else InhibitReleased(token, source)
      case None =>
        if !p.enabled.flag then Rejected(InhibitNotOwned)
        else if Busy(r, at) then Rejected(BridgeBusy)
        else InhibitTaken(token, source)
  }

  function ActionReply(r: Reading, p: Payload, at: real): Effect {
    if at < r.holdEnd then Rejected(ActionWindowActive)
    else if p.action.None? then Rejected(ActionNotAllowlisted)
    else Queued(p.action.value)
  }

  function DriveReply(c: Settings, r: Reading, p: Payload, at: real, age: real): Effect {
    if at < r.holdEnd then Ignored
    else if p.deadman == Bool(false) then Stopped
    else if p.deadman != Bool(true) then Rejected(DeadmanNotBoolean)
    else if FiniteNumber(p.linearX).Some? && FiniteNumber(p.linearY).Some? && FiniteNumber(p.angularZ).Some? then
      Armed(at - age, TargetOf(c, p))
    else Rejected(VelocityNotFinite)
  }

  /** What a command that passes the number and ownership checks leads to. */
  function PassReply(c: Settings, r: Reading, held: Option<Inhibit>, p: Payload, at: real, age: Value): Effect
    requires WellFormed(c, p, age)
  {
    match p.kind.value
    case StopKind => Stopped
    case InhibitKind => InhibitReply(r, held, p, p.source.text, at)
    case ActionKind => if held.Some? then Blocked else ActionReply(r, p, at)
    case DriveKind => if held.Some? then Blocked else DriveReply(c, r, p, at, FiniteNumber(age).value)
  }

  lemma InhibitIsExact(s: Bridge, r: Reading, p: Payload, h: Header, at: real)
    requires Agrees(s, r, at) && 0.0 <= at
    ensures var t := AcceptInhibit(s, p, h, at);
            && t.effect == InhibitReply(r, s.inhibit, p, h.source, at)
            && Agrees(t.state, AfterCommand(r, at, t.effect), at)
  {
    TokenMeans(p.token);
  }

  lemma ActionIsExact(s: Bridge, r: Reading, p: Payload, h: Header, at: real)
    requires Agrees(s, r, at) && 0.0 <= at
    ensures var t := AcceptAction(s, p, h, at);
            t.effect == ActionReply(r, p, at) && Agrees(t.state, AfterCommand(r, at, t.effect), at)
  {}

  lemma DriveIsExact(s: Bridge, r: Reading, p: Payload, h: Header, at: real)
    requires Agrees(s, r, at) && 0.0 <= at && s.lastReceived == at && h.age >= 0.0
    ensures var t := AcceptDrive(s, p, h, at);
            t.effect == DriveReply(s.cfg, r, p, at, h.age) && Agrees(t.state, AfterCommand(r, at, t.effect), at)
  {}

  lemma PassIsExact(s: Bridge, r: Reading, p: Payload, age: Value, at: real)
    requires Agrees(s, r, at) && 0.0 <= at && s.lastReceived == at && WellFormed(s.cfg, p, age)
    ensures Validate(s.cfg, p, age).Ok?
    ensures var t := Dispatch(s, p, Validate(s.cfg, p, age).value, at);
            && t.effect == PassReply(s.cfg, r, s.inhibit, p, at, age)
            && Agrees(t.state, AfterCommand(r, at, t.effect), at)
  {
    ValidMeans(s.cfg, p, age);
    var h := Validate(s.cfg, p, age).value;
    match h.kind
    case StopKind =>
    case InhibitKind => InhibitIsExact(s, r, p, h, at);
    case ActionKind => ActionIsExact(s, r, p, h, at);
    case DriveKind => DriveIsExact(s, r, p, h, at);
  }

  /** The first thing wrong with a command that is not well formed. */
  function FirstFault(c: Settings, p: Payload, age: Value): CommandError {
    if p.kind.None? then UnknownCommand
    else if !p.epoch.Text? || p.epoch.text != c.epoch then EpochMismatch
    else if !p.source.Text? || |p.source.text| < 8 || |p.source.text| > 128 then InvalidSource
    else if !p.sequence.Int? || p.sequence.whole < 0 then InvalidSequence
    else if FiniteNumber(age).None? then InvalidTransportAge
    else if FiniteNumber(age).value < 0.0 then NegativeTransportAge
    else TransportDeadlineExceeded
  }

  /** The effect of a command, from the commands that passed before it, the reading of the log and
      the inhibit in force. */
  function Reply(c: Settings, passes: seq<Pass>, r: Reading, held: Option<Inhibit>,
                 p: Payload, at: real, age: Value): Effect {
    if !WellFormed(c, p, age) then Rejected(FirstFault(c, p, age))
    else if !IsNew(passes, p.source.text, p.sequence.whole) then Rejected(Replayed)
    else if p.kind != Some(StopKind) && HeldByAnother(c, passes, p.source.text, at) then
      Rejected(OtherSourceOwnsBridge)
    else PassReply(c, r, held, p, at, age)
  }

  lemma FaultIsFirst(c: Settings, p: Payload, age: Value)
    requires !WellFormed(c, p, age)
    ensures Validate(c, p, age) == Err(FirstFault(c, p, age))
  {}

  lemma LaterAgrees(s: Bridge, r: Reading, now: real, at: real)
    requires Agrees(s, r, now) && now <= at
    ensures Agrees(s, r, at)
  {}

  /** Passing the checks changes nothing that the reading speaks of. */
  lemma AdmittedAgrees(s: Bridge, r: Reading, h: Header, at: real)
    requires Agrees(s, r, at)
    ensures var admitted := AcceptSource(s, h, at);
            admitted.Ok? ==>
              && Agrees(admitted.value, r, at) && admitted.value.cfg == s.cfg
              && admitted.value.inhibit == s.inhibit && admitted.value.lastReceived == at
  {}

  lemma CommandIsExact(s: Bridge, passes: seq<Pass>, r: Reading, now: real, p: Payload, at: real, age: Value)
    requires Agrees(s, r, now) && now <= at && 0.0 <= at
    requires OwnedAs(s, passes) && Known(passes)
    requires WellFormed(s.cfg, p, age) ==>
               LastSeq(s.seen, p.source.text) == BridgeReplay.Remembered(Numbers(passes), p.source.text)
    ensures var t := Accept(s, p, at, age);
            && t.effect == Reply(s.cfg, passes, r, s.inhibit, p, at, age)
            && Agrees(t.state, AfterCommand(r, at, t.effect), at)
  {
    LaterAgrees(s, r, now, at);
    ValidMeans(s.cfg, p, age);
    if WellFormed(s.cfg, p, age) {
      var h := Validate(s.cfg, p, age).value;
      AdmissionIsPassing(s, passes, p, at, age);
      AdmittedAgrees(s, r, h, at);
      if AcceptSource(s, h, at).Ok? {
        PassIsExact(AcceptSource(s, h, at).value, r, p, age, at);
      }
    } else {
      FaultIsFirst(s.cfg, p, age);
    }
  }

  // ----- every run ------------------------------------------------------------------------------------

  lemma ReadStep(c: Settings, log: seq<Entry>, e: Entry)
    ensures Read(c, log + [e]) == Next(c, Read(c, log), e)
  {
    assert (log + [e])[..|log|] == log;
  }

  /** What an event must leave in the log, from what came before it. */
  predicate Expected(c: Settings, passes: seq<Pass>, before: seq<Entry>, e: Event, entry: Entry) {
    match e
    case Receive(at, p, age) =>
      entry == Received(at, Reply(c, passes, Read(c, before), Holder(before), p, at, age))
    case Force(at, _) => entry == Forced(at)
    case Pulse(at, surroundings) =>
      && entry.Pulsed? && entry.at == at && entry.surroundings == surroundings
      && (entry.ready <==> Sound(c, surroundings))
      && AsksAll(entry.published, Signals(c, Read(c, before), at, entry.ready))
  }

  ghost predicate Standing(c: Settings, passes: seq<Pass>, w: World, now: real) {
    && w.core.cfg == c && w.core.inhibit == Holder(w.log)
    && OwnedAs(w.core, passes) && Known(passes)
    && Agrees(w.core, Read(c, w.log), now)
  }

  lemma ReceiveIsExpected(c: Settings, passes: seq<Pass>, w: World, now: real, at: real, p: Payload, age: Value)
    requires Standing(c, passes, w, now) && now <= at && 0.0 <= at
    requires WellFormed(c, p, age) ==>
               LastSeq(w.core.seen, p.source.text) == BridgeReplay.Remembered(Numbers(passes), p.source.text)
    ensures var e, v := Receive(at, p, age), Apply(w, Receive(at, p, age));
            Expected(c, passes, w.log, e, v.log[|w.log|]) && Agrees(v.core, Read(c, v.log), at)
  {
    var r := Accept(w.core, p, at, age);
    CommandIsExact(w.core, passes, Read(c, w.log), now, p, at, age);
    ReadStep(c, w.log, Received(at, r.effect));
  }

  lemma PulseIsExpected(c: Settings, passes: seq<Pass>, w: World, now: real, at: real, surroundings: Surroundings)
    requires Standing(c, passes, w, now) && now <= at && 0.0 <= at
    ensures var e, v := Pulse(at, surroundings), Apply(w, Pulse(at, surroundings));
            Expected(c, passes, w.log, e, v.log[|w.log|]) && Agrees(v.core, Read(c, v.log), at)
  {
    var ready := Ready(c, surroundings);
    ReadStep(c, w.log, Pulsed(at, surroundings, ready, Tick(w.core, at, surroundings).published));
    if ready {
      ReadyTickIsExact(w.core, Read(c, w.log), now, at, surroundings);
    } else {
      UnreadyTickIsExact(w.core, Read(c, w.log), now, at, surroundings);
    }
  }

  lemma ForceIsExpected(c: Settings, passes: seq<Pass>, w: World, now: real, at: real, reason: Reason)
    requires Standing(c, passes, w, now) && now <= at && 0.0 <= at
    ensures var v := Apply(w, Force(at, reason));
            Expected(c, passes, w.log, Force(at, reason), v.log[|w.log|]) && Agrees(v.core, Read(c, v.log), at)
  {
    ReadStep(c, w.log, Forced(at));
  }

  lemma EventIsExpected(c: Settings, events: seq<Event>, e: Event)
    requires Timed(events) && Clock(Run(c, events).log) <= e.at && 0.0 <= e.at
    requires Agrees(Run(c, events).core, Read(c, Run(c, events).log), Clock(Run(c, events).log))
    ensures var w, v := Run(c, events), Apply(Run(c, events), e);
            Expected(c, Passes(c, events), w.log, e, v.log[|w.log|]) && Agrees(v.core, Read(c, v.log), e.at)
  {
    var w, passes := Run(c, events), Passes(c, events);
    BridgeReplay.TableIsRecent(c, events);
    InhibitRecordIsExact(c, events);
    OwnerReads(c, events);
    match e
    case Receive(at, p, age) =>
      if WellFormed(c, p, age) {
        BridgeReplay.TableRemembers(c, events, p.source.text);
      }
      ReceiveIsExpected(c, passes, w, Clock(w.log), at, p, age);
    case Force(at, reason) => ForceIsExpected(c, passes, w, Clock(w.log), at, reason);
    case Pulse(at, surroundings) => PulseIsExpected(c, passes, w, Clock(w.log), at, surroundings);
  }

  lemma ClockIsLast(c: Settings, events: seq<Event>, e: Event)
    requires Timed(events + [e])
    ensures 0.0 <= Clock(Run(c, events).log) <= e.at
  {
    LogShape(c, events);
    var all := events + [e];
    if events != [] {
      assert all[|events| - 1] == events[|events| - 1] && all[|events|] == e;
    } else {
      assert all[0] == e;
    }
  }

  lemma {:induction false} RunAgrees(c: Settings, events: seq<Event>)
    requires Timed(events)
    ensures Agrees(Run(c, events).core, Read(c, Run(c, events).log), Clock(Run(c, events).log))
  {
    if events != [] {
      var before, e := events[..|events| - 1], events[|events| - 1];
      assert events == before + [e];
      TimedPrefix(events, |events| - 1);
      RunAgrees(c, before);
      ClockIsLast(c, before, e);
      EventIsExpected(c, before, e);
      LogShape(c, events);
    }
  }

  /** Every entry of every run is the one its history calls for: each command has the effect, and
      each tick publishes the requests, that the commands passed, the log and the inhibit in force
      before it determine. */
  lemma RunIsExpected(c: Settings, events: seq<Event>, i: nat)
    requires Timed(events) && i < |events|
    ensures |Run(c, events).log| == |events|
    ensures Expected(c, Passes(c, events[..i]), Run(c, events).log[..i], events[i], Run(c, events).log[i])
  {
    var before := events[..i];
    TimedPrefix(events, i);
    RunAgrees(c, before);
    TimedPrefix(events, i + 1);
    assert events[..i + 1] == before + [events[i]];
    ClockIsLast(c, before, events[i]);
    EventIsExpected(c, before, events[i]);
    LogPrefix(c, events, i);
    LogPrefix(c, events, i + 1);
    assert Run(c, events[..i + 1]) == Apply(Run(c, before), events[i]);
    assert Run(c, events).log[i] == Run(c, events).log[..i + 1][i];
  }

  // ----- movements ------------------------------------------------------------------------------------

  /** A log may still be armed by a drive that is no longer in force: one that has grown too old. */
  predicate OnlyOldDrivesLapse(c: Settings, log: seq<Entry>, r: Reading) {
    ArmedBy(log).Some? && r.drive.None? ==> Clock(log) - ArmedBy(log).value.issued > c.commandTimeout
  }

  lemma LapseStep(c: Settings, log: seq<Entry>, r: Reading, e: Entry)
    requires OnlyOldDrivesLapse(c, log, r) && Clock(log) <= e.at
    requires r.drive.Some? ==> ArmedBy(log) == r.drive
    ensures OnlyOldDrivesLapse(c, log + [e], Next(c, r, e))
  {
    assert (log + [e])[..|log|] == log;
  }

  lemma DriveIsArmed(c: Settings, events: seq<Event>)
    requires Timed(events)
    ensures var log, r := Run(c, events).log, Read(c, Run(c, events).log);
            r.drive.Some? ==> ArmedBy(log) == r.drive && r.action.None? && r.holdEnd <= Clock(log)
  {
    RunAgrees(c, events);
    RunKeeps(c, events);
  }

  lemma {:induction false} DrivesLapse(c: Settings, events: seq<Event>)
    requires Timed(events)
    ensures OnlyOldDrivesLapse(c, Run(c, events).log, Read(c, Run(c, events).log))
  {
    if events != [] {
      var before, e := events[..|events| - 1], events[|events| - 1];
      assert events == before + [e];
      TimedPrefix(events, |events| - 1);
      DrivesLapse(c, before);
      DriveIsArmed(c, before);
      ClockIsLast(c, before, e);
      var w, v := Run(c, before), Run(c, events);
      LapseStep(c, w.log, Read(c, w.log), v.log[|w.log|]);
      ReadStep(c, w.log, v.log[|w.log|]);
    }
  }

  /** The drive a tick may act on: the log is armed by it and it is no older than the timeout. */
  ghost predicate MoveDue(c: Settings, log: seq<Entry>, at: real) {
    ArmedBy(log).Some? && at - ArmedBy(log).value.issued <= c.commandTimeout
  }

  lemma FreshMeansDue(c: Settings, log: seq<Entry>, r: Reading, at: real)
    requires OnlyOldDrivesLapse(c, log, r) && Clock(log) <= at
    requires r.drive.Some? ==> ArmedBy(log) == r.drive && r.action.None? && r.holdEnd <= Clock(log)
    ensures MoveDue(c, log, at) <==> Fresh(c, r, at)
    ensures MoveDue(c, log, at) ==> Follows(c, r, at) == Some(Go(ArmedBy(log).value.target))
    ensures !MoveDue(c, log, at) ==> Follows(c, r, at).None? || !Follows(c, r, at).value.Go?
  {}

  /** What a tick publishes when a movement is due: the stop still owed, if any, and the movement. */
  predicate MovesTo(published: seq<SportRequest>, target: Velocity) {
    && 1 <= |published| <= 2 && published[|published| - 1] == MoveRequest(target)
    && (|published| == 2 ==> IsStop(published[0]))
  }

  lemma SignalsMove(c: Settings, r: Reading, at: real, ready: bool, published: seq<SportRequest>)
    requires AsksAll(published, Signals(c, r, at, ready))
    ensures ready && Follows(c, r, at).Some? && Follows(c, r, at).value.Go? ==>
              MovesTo(published, Follows(c, r, at).value.velocity)
    ensures !(ready && Follows(c, r, at).Some? && Follows(c, r, at).value.Go?) ==>
              forall k :: 0 <= k < |published| ==> !IsMove(published[k])
  {}

  ghost predicate DriveKnown(c: Settings, log: seq<Entry>, at: real) {
    var r := Read(c, log);
    && Clock(log) <= at && OnlyOldDrivesLapse(c, log, r)
    && (r.drive.Some? ==> ArmedBy(log) == r.drive && r.action.None? && r.holdEnd <= Clock(log))
  }

  lemma DriveAt(c: Settings, events: seq<Event>, e: Event)
    requires Timed(events) && Timed(events + [e])
    ensures DriveKnown(c, Run(c, events).log, e.at)
  {
    DrivesLapse(c, events);
    DriveIsArmed(c, events);
    ClockIsLast(c, events, e);
  }

  lemma DriveBefore(c: Settings, events: seq<Event>, i: nat)
    requires Timed(events) && i < |events|
    ensures |Run(c, events).log| == |events|
    ensures DriveKnown(c, Run(c, events).log[..i], events[i].at)
  {
    LogPrefix(c, events, i);
    TimedPrefix(events, i);
    TimedPrefix(events, i + 1);
    assert events[..i + 1] == events[..i] + [events[i]];
    DriveAt(c, events[..i], events[i]);
  }

  /** A tick publishes a movement exactly when its surroundings are sound and the log is armed by a
      drive no older than the command timeout; it is then that drive's, and comes last. */
  lemma MovesExactly(c: Settings, log: seq<Entry>, i: nat)
    requires IsLog(c, log) && i < |log| && log[i].Pulsed?
    ensures Sound(c, log[i].surroundings) && MoveDue(c, log[..i], log[i].at) ==>
              MovesTo(log[i].published, ArmedBy(log[..i]).value.target)
    ensures !(Sound(c, log[i].surroundings) && MoveDue(c, log[..i], log[i].at)) ==>
              forall k :: 0 <= k < |log[i].published| ==> !IsMove(log[i].published[k])
  {
    var events :| Timed(events) && Run(c, events).log == log;
    LogShape(c, events);
    RunIsExpected(c, events, i);
    DriveBefore(c, events, i);
    var r := Read(c, log[..i]);
    FreshMeansDue(c, log[..i], r, log[i].at);
    SignalsMove(c, r, log[i].at, log[i].ready, log[i].published);
  }

  /** A caller's reason for a forced stop is kept, cut to its first 160 characters. */
  lemma ForcedReasonIsCut(s: Bridge, text: string)
    ensures ForceStop(s, Said(text)).lastError == Said(if |text| <= 160 then text else text[..160])
  {}

  // ----- acknowledgements -------------------------------------------------------------------------------

  /** What the status acknowledges: the last command that stopped the robot, armed it or queued an
      action, and the last release of an inhibit. */
  datatype Acks = Acks(command: Option<Ack>, release: Option<ReleaseAck>)

  function AckNext(acks: Acks, e: Event, entry: Entry): Acks {
    if !e.Receive? || !entry.Received? || !e.payload.sequence.Int? || !e.payload.source.Text?
       || e.payload.kind.None? then acks
    else
      var source, serial := e.payload.source.text, e.payload.sequence.whole;
      match entry.effect
      case Stopped => acks.(command := Some(Ack(source, serial, e.payload.kind.value, e.at)))
      case Armed(_, _) => acks.(command := Some(Ack(source, serial, e.payload.kind.value, e.at)))
      case Queued(_) => acks.(command := Some(Ack(source, serial, e.payload.kind.value, e.at)))
      case InhibitReleased(token, _) => acks.(release := Some(ReleaseAck(token, source, serial)))
      case _ => acks
  }

  function LastAcks(events: seq<Event>, log: seq<Entry>): Acks
    requires |events| == |log|
  {
    if log == [] then Acks(None, None)
    else
      var n := |log| - 1;
      AckNext(LastAcks(events[..n], log[..n]), events[n], log[n])
  }

  lemma PassAcks(s: Bridge, p: Payload, age: Value, now: real)
    requires WellFormed(s.cfg, p, age)
    ensures Validate(s.cfg, p, age).Ok?
    ensures var r := Dispatch(s, p, Validate(s.cfg, p, age).value, now);
            Acks(r.state.commandAck, r.state.releaseAck)
            == AckNext(Acks(s.commandAck, s.releaseAck), Receive(now, p, age), Received(now, r.effect))
  {
    ValidMeans(s.cfg, p, age);
  }

  lemma EventAcks(w: World, e: Event)
    ensures var v := Apply(w, e);
            Acks(v.core.commandAck, v.core.releaseAck)
            == AckNext(Acks(w.core.commandAck, w.core.releaseAck), e, v.log[|w.log|])
  {
    match e
    case Receive(at, p, age) =>
      ValidMeans(w.core.cfg, p, age);
      if WellFormed(w.core.cfg, p, age) {
        var admitted := AcceptSource(w.core, Validate(w.core.cfg, p, age).value, at);
        if admitted.Ok? {
          PassAcks(admitted.value, p, age, at);
        }
      }
    case Force(_, _) =>
    case Pulse(at, surroundings) => TickKeepsAcks(w.core, at, surroundings);
  }

  predicate SameAcks(s: Bridge, t: Bridge) {
    t.commandAck == s.commandAck && t.releaseAck == s.releaseAck
  }

  lemma SteerKeepsAcks(t: Ticked, now: real, ready: bool)
    ensures SameAcks(t.state, Steer(t, now, ready).state)
  {}

  lemma TickKeepsAcks(s: Bridge, now: real, e: Surroundings)
    ensures SameAcks(s, Tick(s, now, e).state)
  {
    var ready := Ready(s.cfg, e);
    var t := FlushStop(Disarm(s, now, ready), now);
    assert SameAcks(s, t.state);
    SteerKeepsAcks(t, now, ready);
    SteerKeepsAcks(t.(state := ForceStop(t.state, BridgeUnavailableBeforeAction)), now, ready);
  }

  /** The acknowledgements in the record are the last ones the log holds. */
  lemma {:induction false} AcksAreLast(c: Settings, events: seq<Event>)
    ensures |Run(c, events).log| == |events|
    ensures LastAcks(events, Run(c, events).log)
            == Acks(Run(c, events).core.commandAck, Run(c, events).core.releaseAck)
  {
    LogShape(c, events);
    if events != [] {
      var n := |events| - 1;
      var w, v := Run(c, events[..n]), Run(c, events);
      AcksAreLast(c, events[..n]);
      EventAcks(w, events[n]);
      assert v.log[..n] == w.log;
    }
  }
}
