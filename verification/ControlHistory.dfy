/** What the control manager answers next, as a function of what it has answered so far. Each part of
    the history is a small reading of the log; every call is answered, and adds to the outputs, exactly
    as those readings call for. */
module ControlHistory {
  import opened Wire
  import opened SportApi
  import opened ControlCore
  import opened ControlRuns
  import opened ControlTheorems

  // ----- readings of a log ------------------------------------------------------------------------

  /** The tab the latest grant was first bound to. */
  function BoundTo(log: seq<Entry>): Option<string> {
    if log == [] then None
    else
      var e, before := log[|log| - 1], BoundTo(log[..|log| - 1]);
      if IsDone(e) && e.call.AcquireCall? then None
      else if IsDone(e) && e.call.BindCall? && before.None? then Some(e.call.binding)
      else before
  }

  /** When the latest grant was made, first bound, or last renewed by a heartbeat. */
  function RenewedAt(log: seq<Entry>): real {
    if log == [] then 0.0
    else
      var e, before := log[|log| - 1], log[..|log| - 1];
      if IsDone(e) && (e.call.AcquireCall? || e.call.HeartbeatCall? || (e.call.BindCall? && BoundTo(before).None?)) then
        e.call.at
      else RenewedAt(before)
  }

  /** The last number used under the latest grant. */
  function LastNumber(log: seq<Entry>): int {
    if log == [] then -1
    else
      var e := log[|log| - 1];
      if IsDone(e) && e.call.AcquireCall? then -1
      else if IsDone(e) && (e.call.HeartbeatCall? || e.call.DriveCall?) && e.call.serial.Int? then e.call.serial.whole
      else LastNumber(log[..|log| - 1])
  }

  /** When the bridge was last reported well, unless it has been reported unwell since. */
  function BridgeSeen(log: seq<Entry>): Option<real> {
    if log == [] then None
    else
      var e := log[|log| - 1];
      if IsDone(e) && e.call.ObserveCall? && e.call.bridge == Some(true) then Some(e.call.at)
      else if IsDone(e) && e.call.ObserveCall? && e.call.bridge == Some(false) then None
      else BridgeSeen(log[..|log| - 1])
  }

  function LowstateSeen(log: seq<Entry>): Option<real> {
    if log == [] then None
    else
      var e := log[|log| - 1];
      if IsDone(e) && e.call.ObserveCall? && e.call.lowstate == Some(true) then Some(e.call.at)
      else if IsDone(e) && e.call.ObserveCall? && e.call.lowstate == Some(false) then None
      else LowstateSeen(log[..|log| - 1])
  }

  /** An emergency stop that has not been cleared. */
  predicate Latched(startStopped: bool, log: seq<Entry>) {
    if log == [] then startStopped
    else
      var e := log[|log| - 1];
      if IsDone(e) && e.call.StopCall? then true
      else if IsDone(e) && e.call.ClearCall? then false
      else Latched(startStopped, log[..|log| - 1])
  }

  predicate IsShut(log: seq<Entry>) {
    log != [] && (log[|log| - 1].call.CloseCall? || IsShut(log[..|log| - 1]))
  }

  /** Everything the next answer depends on. */
  datatype Reading = Reading(lease: Option<Lease>, intent: Option<Intent>, bridge: Option<real>, lowstate: Option<real>,
                             latched: bool, shut: bool, guardEnd: real, tick: Option<real>, shown: Velocity)

  function LeaseRead(log: seq<Entry>): Option<Lease> {
    match CurrentGrant(log)
    case Some(g) =>
      if Leased(log) then Some(Lease(g.token, g.source, BoundTo(log), RenewedAt(log), LastNumber(log))) else None
    case None => None
  }

  function Read(c: Policy, startStopped: bool, log: seq<Entry>): Reading {
    Reading(LeaseRead(log), if Leased(log) then CurrentIntent(c, log) else None, BridgeSeen(log), LowstateSeen(log),
            Latched(startStopped, log), IsShut(log), GuardEnd(log), LastTickAt(log), LastVelocity(Stream(log)))
  }

  // ----- what they call for -------------------------------------------------------------------------

  /** The answer to a call: an error or none, the envelopes put out, and whether a lease is left. */
  datatype Answer = Answer(error: Option<ControlError>, out: seq<Envelope>, leased: bool)

  predicate LeaseRunsOut(c: Policy, r: Reading, at: real) {
    r.lease.Some? &&
    at - r.lease.value.heartbeatAt >= (if r.lease.value.binding.None? then c.bindWindow else c.heartbeat)
  }

  predicate Pressed(r: Reading) {
    r.lease.Some? && r.intent.Some? && r.intent.value.deadman
  }

  predicate IntentRunsOut(c: Policy, r: Reading, at: real) {
    && Pressed(r)
    && var timeout := if r.intent.value.source == Navigation then c.navigationTimeout else c.commandTimeout;
       at - r.intent.value.issued >= timeout
  }

  /** Why the lease lapses at this time, if it does. */
  function Lapse(c: Policy, r: Reading, at: real): Option<StopCause> {
    if LeaseRunsOut(c, r, at) then Some(LeaseExpired)
    else if IntentRunsOut(c, r, at) then Some(CommandTimeout)
    else None
  }

  predicate AllReady(c: Policy, r: Reading, at: real) {
    && c.enabled && !r.shut && r.guardEnd <= at
    && r.bridge.Some? && at - r.bridge.value < c.bridgeStale
    && r.lowstate.Some? && at - r.lowstate.value < c.lowstateStale
  }

  function Denied(error: ControlError, r: Reading): Answer {
    Answer(Some(error), [], r.lease.Some?)
  }

  function Ended(error: Option<ControlError>, cause: StopCause, at: real): Answer {
    Answer(error, [StopOut(cause, at)], false)
  }

  /** What turns a message under a token away before it is looked at, if anything does. */
  function TurnedAway(c: Policy, r: Reading, token: string, binding: Option<string>, ready: bool, at: real)
    : Option<Answer>
  {
    if r.shut then Some(Denied(Closed, r))
    else if !c.enabled then Some(Denied(Disabled, r))
    else if Lapse(c, r, at).Some? then Some(Ended(Some(InvalidLease), Lapse(c, r, at).value, at))
    else if r.lease.None? || r.lease.value.token != token then Some(Denied(InvalidLease, r))
    else if binding.Some? && r.lease.value.binding != binding then Some(Denied(BindingMismatch, r))
    else if ready && !AllReady(c, r, at) then Some(Ended(Some(NotReady), ReadinessStale, at))
    else None
  }

  predicate NewNumber(r: Reading, serial: Value) {
    r.lease.Some? && serial.Int? && serial.whole >= 0 && serial.whole > r.lease.value.lastSeq
  }

  function AcquireAnswer(c: Policy, r: Reading, source: Option<InputSource>, token: string, at: real): Answer {
    if r.shut then Denied(Closed, r)
    else if !c.enabled then Denied(Disabled, r)
    else
      var lapsed := LeaseRunsOut(c, r, at);
      var held := r.lease.Some? && !lapsed;
      var out := if lapsed then [StopOut(LeaseExpired, at)] else [];
      if r.latched then Answer(Some(StopLatched), out, held)
      else if !AllReady(c, r, at) then Answer(Some(NotReady), out, held)
      else if source.None? then Answer(Some(BadCommand), out, held)
      else if held then Answer(Some(Busy), out, held)
      else if |token| < 16 then Answer(Some(UnsafeToken), out, held)
      else Answer(None, out, true)
  }

  function BindAnswer(c: Policy, r: Reading, token: string, binding: string, at: real): Answer {
    match TurnedAway(c, r, token, None, true, at)
    case Some(a) => a
    case None =>
      if binding == "" || |binding| > 256 || r.lease.None? then Denied(BindingMismatch, r)
      else if r.lease.value.binding.Some? && r.lease.value.binding != Some(binding) then Denied(BindingMismatch, r)
      else Answer(None, [], true)
  }

  function HeartbeatAnswer(c: Policy, r: Reading, token: string, binding: string, serial: Value, at: real): Answer {
    match TurnedAway(c, r, token, Some(binding), true, at)
    case Some(a) => a
    case None => if NewNumber(r, serial) then Answer(None, [], true) else Denied(BadSequence, r)
  }

  function DriveAnswer(c: Policy, r: Reading, token: string, binding: string, serial: Value,
                       q: DriveRequest, at: real): Answer {
    if r.latched then Denied(StopLatched, r)
    else
      match TurnedAway(c, r, token, Some(binding), true, at)
      case Some(a) => a
      case None =>
        if r.lease.None? || !Takeable(c, r.lease.value.source, q) then Denied(BadCommand, r)
        else if !NewNumber(r, serial) then Denied(BadSequence, r)
        else Answer(None, if q.deadman.flag then [] else [StopOut(DeadmanWasReleased, at)], true)
  }

  /** The velocity last put out counts as standing still. */
  predicate IsStill(v: Velocity) {
    && -0.000000001 <= v.x <= 0.000000001 && -0.000000001 <= v.y <= 0.000000001
    && -0.000000001 <= v.z <= 0.000000001
  }

  function ActionAnswer(c: Policy, r: Reading, token: string, binding: string, serial: Value,
                        action: Option<Action>, confirm: bool, at: real): Answer {
    if r.latched then Denied(StopLatched, r)
    else
      match TurnedAway(c, r, token, Some(binding), true, at)
      case Some(a) => a
      case None =>
        if Pressed(r) || !IsStill(r.shown) then Denied(BadCommand, r)
        else if action.None? || action.value !in c.allowed || !confirm then Denied(BadCommand, r)
        else if !NewNumber(r, serial) then Denied(BadSequence, r)
        else Answer(None, [StopOut(ActionPrepare, at), ActionOut(action.value, serial.whole, at)], false)
  }

  function ReleaseAnswer(c: Policy, r: Reading, token: string, binding: Option<string>, at: real): Answer {
    match TurnedAway(c, r, token, binding, false, at)
    case Some(a) => a
    case None => Ended(None, LeaseReleased, at)
  }

  /** The timers alone: what a snapshot does. */
  function LapseAnswer(c: Policy, r: Reading, at: real): Answer {
    match Lapse(c, r, at)
    case Some(cause) => Ended(None, cause, at)
    case None => Answer(None, [], r.lease.Some?)
  }

  function ClearAnswer(c: Policy, r: Reading, confirm: bool, at: real): Answer {
    if r.shut then Denied(Closed, r)
    else if !c.enabled then Denied(Disabled, r)
    else if !r.latched then LapseAnswer(c, r, at)
    else if !confirm then Denied(BadCommand, r)
    else if !AllReady(c, r, at) then Denied(NotReady, r)
    else Answer(None, [], false)
  }

  function ObserveAnswer(r: Reading, bridge: Option<bool>, lowstate: Option<bool>, cause: StopCause, at: real): Answer {
    if r.shut then Denied(Closed, r)
    else if r.lease.Some? && (bridge == Some(false) || lowstate == Some(false)) then Ended(None, cause, at)
    else Answer(None, [], r.lease.Some?)
  }

  /** One step of an axis: to the target when it is in reach, by the whole reach towards it else. */
  function Approach(shown: real, target: real, reach: real): real {
    if Abs(target - shown) <= reach then target
    else if target > shown then shown + reach
    else shown - reach
  }

  /** The time a tick may make up for: a nominal step at first, a quarter of a second at most. */
  function StepTime(r: Reading, at: real): real {
    if r.tick.None? then 0.02 else if at - r.tick.value > 0.25 then 0.25 else at - r.tick.value
  }

  /** How far each axis gets in a step. */
  function StepReach(c: Policy, r: Reading, at: real): Velocity {
    Velocity(c.linearSlew * StepTime(r, at), c.lateralSlew * StepTime(r, at), c.angularSlew * StepTime(r, at))
  }

  function NextVelocity(shown: Velocity, target: Velocity, reach: Velocity): Velocity {
    Velocity(Approach(shown.x, target.x, reach.x),
             Approach(shown.y, target.y, reach.y),
             Approach(shown.z, target.z, reach.z))
  }

  function TickAnswer(c: Policy, r: Reading, at: real): Answer {
    if r.shut then Denied(Closed, r)
    else if r.lease.None? then Answer(None, [], false)
    else if LeaseRunsOut(c, r, at) then Ended(None, LeaseExpired, at)
    else if !AllReady(c, r, at) then Ended(None, ReadinessStale, at)
    else if IntentRunsOut(c, r, at) then Ended(None, CommandTimeout, at)
    else if !Pressed(r) then Answer(None, [], true)
    else
      var intent := r.intent.value;
      var velocity := NextVelocity(r.shown, intent.target, StepReach(c, r, at));
      Answer(None, [DriveOut(intent.serial, intent.source, velocity, at)], true)
  }

  function Expected(c: Policy, r: Reading, call: Call): Answer {
    match call
    case AcquireCall(at, source, token) => AcquireAnswer(c, r, source, token, at)
    case BindCall(at, token, binding) => BindAnswer(c, r, token, binding, at)
    case HeartbeatCall(at, token, binding, serial) => HeartbeatAnswer(c, r, token, binding, serial, at)
    case DriveCall(at, token, binding, serial, request) => DriveAnswer(c, r, token, binding, serial, request, at)
    case ActionCall(at, token, binding, serial, action, confirm) =>
      ActionAnswer(c, r, token, binding, serial, action, confirm, at)
    case ReleaseCall(at, token, binding) => ReleaseAnswer(c, r, token, binding, at)
    case StopCall(at) => if r.shut then Denied(Closed, r) else Ended(None, EmergencyStopped, at)
    case ClearCall(at, confirm) => ClearAnswer(c, r, confirm, at)
    case ObserveCall(at, bridge, lowstate, cause) => ObserveAnswer(r, bridge, lowstate, cause, at)
    case SnapshotCall(at) => LapseAnswer(c, r, at)
    case TickCall(at) => TickAnswer(c, r, at)
    case CloseCall(at) => if r.shut then Answer(None, [], false) else Ended(None, ManagerClosed, at)
  }

  // ----- the record stands for the readings ----------------------------------------------------------

  predicate Agrees(m: Manager, r: Reading) {
    && m.lease == r.lease && m.drive == r.intent && m.bridgeSeen == r.bridge && m.lowstateSeen == r.lowstate
    && m.estop == r.latched && m.closed == r.shut && m.guardUntil == r.guardEnd && m.lastTick == r.tick
    && m.velocity == r.shown && m.motionActive == !IsStill(r.shown) && m.stopEmitted == IsStill(r.shown)
    && (m.lease.None? ==> m.drive.None?) && (m.estop || m.closed ==> m.lease.None?)
    && (!Pressed(r) ==> r.shown == ZERO)
  }

  function AnswerOf(o: Outcome): Answer {
    Answer(if o.reply.Refused? then Some(o.reply.error) else None, o.out, o.m.lease.Some?)
  }

  lemma LapseIsExact(m: Manager, r: Reading, at: real)
    requires Agrees(m, r)
    ensures var d := ExpireCommand(Expire(Draft(m, []), at), at);
            match Lapse(m.cfg, r, at)
            case None => d == Draft(m, [])
            case Some(cause) => d.out == [StopOut(cause, at)] && d.m.lease.None?
    ensures var d := Expire(Draft(m, []), at);
            if LeaseRunsOut(m.cfg, r, at) then d.out == [StopOut(LeaseExpired, at)] && d.m.lease.None?
                                               && d.m == m.(lease := None, drive := None, velocity := ZERO,
                                                            motionActive := false, stopEmitted := true)
            else d == Draft(m, [])
  {}

  lemma ReadyIsExact(m: Manager, r: Reading, at: real)
    requires Agrees(m, r)
    ensures ReadyAt(m, at) <==> AllReady(m.cfg, r, at)
  {}

  /** The gate of the session calls, as the readings have it. */
  lemma GateIsExact(m: Manager, r: Reading, token: string, at: real, binding: Option<string>, ready: bool)
    requires Agrees(m, r)
    ensures var g, away := RequireLease(m, token, at, binding, ready), TurnedAway(m.cfg, r, token, binding, ready, at);
            && (g.error.None? <==> away.None?) && (g.error.None? ==> g.d == Draft(m, []))
            && (away.Some? ==> away.value == AnswerOf(Finish(g.d, Refused(g.error.value))))
  {
    LapseIsExact(m, r, at);
    ReadyIsExact(m, r, at);
  }

  lemma SessionIsExact(m: Manager, r: Reading, call: Call)
    requires Agrees(m, r) && (call.BindCall? || call.HeartbeatCall? || call.ReleaseCall?)
    ensures AnswerOf(Do(m, call)) == Expected(m.cfg, r, call)
  {
    match call
    case BindCall(at, token, _) => GateIsExact(m, r, token, at, None, true);
    case HeartbeatCall(at, token, binding, _) => GateIsExact(m, r, token, at, Some(binding), true);
    case ReleaseCall(at, token, binding) => GateIsExact(m, r, token, at, binding, false);
    case _ =>
  }

  lemma DriveIsExact(m: Manager, r: Reading, call: Call)
    requires Agrees(m, r) && call.DriveCall?
    ensures AnswerOf(Do(m, call)) == Expected(m.cfg, r, call)
  {
    GateIsExact(m, r, call.token, call.at, Some(call.binding), true);
    if m.lease.Some? {
      ParseIsExact(m.cfg, m.lease.value.source, call.request);
    }
  }

  lemma ActionIsExact(m: Manager, r: Reading, call: Call)
    requires Agrees(m, r) && call.ActionCall?
    ensures AnswerOf(Do(m, call)) == Expected(m.cfg, r, call)
  {
    GateIsExact(m, r, call.token, call.at, Some(call.binding), true);
  }

  lemma AcquireIsExact(m: Manager, r: Reading, call: Call)
    requires Agrees(m, r) && call.AcquireCall?
    ensures AnswerOf(Do(m, call)) == Expected(m.cfg, r, call)
  {
    LapseIsExact(m, r, call.at);
    ReadyIsExact(m, r, call.at);
  }

  lemma TimersAreExact(m: Manager, r: Reading, call: Call)
    requires Agrees(m, r) && (call.ClearCall? || call.SnapshotCall?)
    ensures AnswerOf(Do(m, call)) == Expected(m.cfg, r, call)
  {
    LapseIsExact(m, r, call.at);
    ReadyIsExact(m, r, call.at);
  }

  lemma LatchIsExact(m: Manager, r: Reading, call: Call)
    requires Agrees(m, r) && (call.StopCall? || call.CloseCall? || call.ObserveCall?)
    ensures AnswerOf(Do(m, call)) == Expected(m.cfg, r, call)
  {}

  lemma SlewIsApproach(current: real, target: real, reach: real)
    requires 0.0 <= reach
    ensures Slew(current, target, reach) == Approach(current, target, reach)
  {}

  lemma SlewIsNext(current: Velocity, target: Velocity, reach: Velocity)
    requires 0.0 <= reach.x && 0.0 <= reach.y && 0.0 <= reach.z
    ensures SlewVelocity(current, target, reach) == NextVelocity(current, target, reach)
  {
    SlewIsApproach(current.x, target.x, reach.x);
    SlewIsApproach(current.y, target.y, reach.y);
    SlewIsApproach(current.z, target.z, reach.z);
  }

  /** A tick with nothing to move. */
  lemma StillTickIsExact(m: Manager, r: Reading, call: Call)
    requires Agrees(m, r) && call.TickCall?
    requires !Pressed(r) || Lapse(m.cfg, r, call.at).Some? || !AllReady(m.cfg, r, call.at)
    ensures AnswerOf(Tick(m, call.at)) == TickAnswer(m.cfg, r, call.at)
  {
    ReadyIsExact(m, r, call.at);
  }

  lemma MovingTickIsExact(m: Manager, r: Reading, call: Call, reach: Velocity)
    requires Agrees(m, r) && call.TickCall?
    requires Pressed(r) && Lapse(m.cfg, r, call.at).None? && AllReady(m.cfg, r, call.at)
    requires reach == Reach(m.cfg, Elapsed(m.lastTick, call.at))
    ensures Tick(m, call.at) == Move(m.(lastTick := Some(call.at)), reach, call.at)
  {
    ReadyIsExact(m, r, call.at);
  }

  lemma TickIsExact(m: Manager, r: Reading, call: Call)
    requires Agrees(m, r) && call.TickCall? && (r.tick.Some? ==> r.tick.value <= call.at)
    ensures AnswerOf(Tick(m, call.at)) == TickAnswer(m.cfg, r, call.at)
  {
    if Pressed(r) && Lapse(m.cfg, r, call.at).None? && AllReady(m.cfg, r, call.at) {
      var reach := Reach(m.cfg, Elapsed(m.lastTick, call.at));
      ReachIsForward(m.cfg, Elapsed(m.lastTick, call.at));
      ReachIsStep(m, r, call.at);
      MovingTickIsExact(m, r, call, reach);
      SlewIsNext(r.shown, r.intent.value.target, reach);
    } else {
      StillTickIsExact(m, r, call);
    }
  }

  lemma ReachIsStep(m: Manager, r: Reading, at: real)
    requires m.lastTick == r.tick && (r.tick.Some? ==> r.tick.value <= at)
    ensures Reach(m.cfg, Elapsed(m.lastTick, at)) == StepReach(m.cfg, r, at)
  {
    assert Elapsed(m.lastTick, at) == StepTime(r, at);
  }

  lemma AnswerIsExact(m: Manager, r: Reading, call: Call)
    requires Agrees(m, r) && (r.tick.Some? ==> r.tick.value <= call.at)
    ensures AnswerOf(Do(m, call)) == Expected(m.cfg, r, call)
  {
    match call
    case AcquireCall(_, _, _) => AcquireIsExact(m, r, call);
    case DriveCall(_, _, _, _, _) => DriveIsExact(m, r, call);
    case ActionCall(_, _, _, _, _, _) => ActionIsExact(m, r, call);
    case TickCall(_) => TickIsExact(m, r, call);
    case ClearCall(_, _) => TimersAreExact(m, r, call);
    case SnapshotCall(_) => TimersAreExact(m, r, call);
    case StopCall(_) => LatchIsExact(m, r, call);
    case CloseCall(_) => LatchIsExact(m, r, call);
    case ObserveCall(_, _, _, _) => LatchIsExact(m, r, call);
    case _ => SessionIsExact(m, r, call);
  }

  // ----- what a call writes into the record -----------------------------------------------------------

  /** What an accepted call makes of the lease it leaves. */
  function LeaseAfter(lease: Option<Lease>, call: Call): Option<Lease> {
    match call
    case AcquireCall(at, source, token) =>
      if source.Some? then Some(Lease(token, source.value, None, at, -1)) else lease
    case BindCall(at, _, binding) =>
      if lease.Some? && lease.value.binding.None?
      then Some(lease.value.(binding := Some(binding), heartbeatAt := at)) else lease
    case HeartbeatCall(at, _, _, serial) =>
      if lease.Some? && serial.Int? then Some(lease.value.(lastSeq := serial.whole, heartbeatAt := at)) else lease
    case DriveCall(_, _, _, serial, _) =>
      if lease.Some? && serial.Int? then Some(lease.value.(lastSeq := serial.whole)) else lease
    case _ => lease
  }

  function SeenAfter(seen: Option<real>, note: Option<bool>, at: real): Option<real> {
    if note == Some(true) then Some(at) else if note == Some(false) then None else seen
  }

  /** The parts of the record that only some calls write. */
  predicate Writes(m: Manager, call: Call, o: Outcome) {
    && (o.reply == Done && call.HeartbeatCall? ==> call.serial.Int?)
    && (o.m.lease.Some? ==> o.m.lease == if o.reply == Done then LeaseAfter(m.lease, call) else m.lease)
    && o.m.estop == (if o.reply == Done && call.StopCall? then true
                     else if o.reply == Done && call.ClearCall? then false else m.estop)
    && o.m.closed == (m.closed || call.CloseCall?)
    && o.m.bridgeSeen == (if o.reply == Done && call.ObserveCall?
                          then SeenAfter(m.bridgeSeen, call.bridge, call.at) else m.bridgeSeen)
    && o.m.lowstateSeen == (if o.reply == Done && call.ObserveCall?
                            then SeenAfter(m.lowstateSeen, call.lowstate, call.at) else m.lowstateSeen)
  }

  /** The two flags about motion follow the velocity. */
  predicate FlagsFit(m: Manager) {
    m.motionActive == IsActive(m.velocity) && m.stopEmitted == !IsActive(m.velocity)
  }

  predicate Steady(m: Manager, n: Manager) {
    && n.estop == m.estop && n.closed == m.closed && n.bridgeSeen == m.bridgeSeen && n.lowstateSeen == m.lowstateSeen
  }

  lemma ExpiryWrites(m: Manager, at: real)
    requires FlagsFit(m)
    ensures var d := Expire(Draft(m, []), at);
            FlagsFit(d.m) && Steady(m, d.m) && (d.m.lease.Some? ==> d.m == m)
    ensures var d := ExpireCommand(Expire(Draft(m, []), at), at);
            FlagsFit(d.m) && Steady(m, d.m) && (d.m.lease.Some? ==> d.m == m)
  {}

  lemma FailWrites(m: Manager, d: Draft, at: real)
    requires FlagsFit(d.m) && Steady(m, d.m)
    ensures var f := FailClosed(d, ReadinessStale, at);
            FlagsFit(f.m) && Steady(m, f.m) && (f.m.lease.Some? ==> f.m == d.m)
  {}

  /** A gate either leaves the record alone or ends the lease. */
  lemma GateWrites(m: Manager, token: string, at: real, binding: Option<string>, ready: bool)
    requires FlagsFit(m)
    ensures var g := RequireLease(m, token, at, binding, ready);
            && FlagsFit(g.d.m) && (g.d.m.lease.Some? ==> g.d.m == m) && (g.error.None? ==> g.d.m == m)
            && Steady(m, g.d.m)
  {
    ExpiryWrites(m, at);
    FailWrites(m, ExpireCommand(Expire(Draft(m, []), at), at), at);
  }

  lemma ReleaseWrites(m: Manager, call: Call)
    requires FlagsFit(m) && call.ReleaseCall?
    ensures Writes(m, call, Do(m, call)) && FlagsFit(Do(m, call).m)
  {
    GateWrites(m, call.token, call.at, call.releaseBinding, false);
  }

  lemma SessionWrites(m: Manager, call: Call)
    requires FlagsFit(m) && (call.BindCall? || call.HeartbeatCall?)
    ensures Writes(m, call, Do(m, call)) && FlagsFit(Do(m, call).m)
  {
    GateWrites(m, call.token, call.at, if call.BindCall? then None else Some(call.binding), true);
  }

  lemma CommandWrites(m: Manager, call: Call)
    requires FlagsFit(m) && (call.DriveCall? || call.ActionCall?)
    ensures Writes(m, call, Do(m, call)) && FlagsFit(Do(m, call).m)
  {
    GateWrites(m, call.token, call.at, Some(call.binding), true);
  }

  lemma LatchWrites(m: Manager, call: Call)
    requires FlagsFit(m) && (call.StopCall? || call.CloseCall? || call.ObserveCall?)
    ensures Writes(m, call, Do(m, call)) && FlagsFit(Do(m, call).m)
  {}

  lemma TimerWrites(m: Manager, call: Call)
    requires FlagsFit(m) && (call.AcquireCall? || call.ClearCall? || call.SnapshotCall?)
    ensures Writes(m, call, Do(m, call)) && FlagsFit(Do(m, call).m)
  {
    ExpiryWrites(m, call.at);
  }

  lemma TickWrites(m: Manager, call: Call)
    requires FlagsFit(m) && call.TickCall?
    ensures Writes(m, call, Do(m, call)) && FlagsFit(Do(m, call).m)
  {}

  lemma DoWrites(m: Manager, call: Call)
    requires FlagsFit(m)
    ensures Writes(m, call, Do(m, call)) && FlagsFit(Do(m, call).m)
  {
    if call.BindCall? || call.HeartbeatCall? {
      SessionWrites(m, call);
    } else if call.ReleaseCall? {
      ReleaseWrites(m, call);
    } else if call.DriveCall? || call.ActionCall? {
      CommandWrites(m, call);
    } else if call.TickCall? {
      TickWrites(m, call);
    } else if call.AcquireCall? || call.ClearCall? || call.SnapshotCall? {
      TimerWrites(m, call);
    } else {
      LatchWrites(m, call);
    }
  }

  // ----- every run ------------------------------------------------------------------------------------

  predicate LeaseFits(m: Manager, log: seq<Entry>) {
    m.lease.Some? ==>
      && m.lease.value.binding == BoundTo(log) && m.lease.value.heartbeatAt == RenewedAt(log)
      && m.lease.value.lastSeq == LastNumber(log)
  }

  predicate LatchFits(m: Manager, startStopped: bool, log: seq<Entry>) {
    && m.estop == Latched(startStopped, log) && m.closed == IsShut(log)
    && m.bridgeSeen == BridgeSeen(log) && m.lowstateSeen == LowstateSeen(log)
  }

  lemma LeaseStep(m: Manager, log: seq<Entry>, call: Call, o: Outcome)
    requires LeaseFits(m, log) && Writes(m, call, o) && Step(m, call, o)
    ensures LeaseFits(o.m, log + [Record(call, o)])
  {
    assert (log + [Record(call, o)])[..|log|] == log;
  }

  lemma LatchStep(m: Manager, startStopped: bool, log: seq<Entry>, call: Call, o: Outcome)
    requires LatchFits(m, startStopped, log) && Writes(m, call, o)
    ensures LatchFits(o.m, startStopped, log + [Record(call, o)])
  {
    assert (log + [Record(call, o)])[..|log|] == log;
  }

  ghost predicate Standing(w: World, startStopped: bool) {
    && ControlRuns.Inv(w) && FlagsFit(w.m) && LeaseFits(w.m, w.log) && LatchFits(w.m, startStopped, w.log)
    && (w.m.lastTick.Some? ==> w.m.lastTick.value <= Clock(w.log))
  }

  lemma StandingAgrees(w: World, startStopped: bool)
    requires Standing(w, startStopped)
    ensures Agrees(w.m, Read(w.m.cfg, startStopped, w.log))
  {}

  lemma StandingStep(w: World, startStopped: bool, call: Call)
    requires Standing(w, startStopped) && Clock(w.log) <= call.at
    ensures Standing(Apply(w, call), startStopped)
  {
    var o := Do(w.m, call);
    DoSteps(w.m, call);
    DoWrites(w.m, call);
    LeaseStep(w.m, w.log, call, o);
    LatchStep(w.m, startStopped, w.log, call, o);
    TickIsPast(w.m, call, o);
    var kept := ApplyKeeps(w, call);
    assert Apply(w, call).log[|w.log|].call == call;
  }

  lemma TickIsPast(m: Manager, call: Call, o: Outcome)
    requires Step(m, call, o) && (m.lastTick.Some? ==> m.lastTick.value <= call.at)
    ensures o.m.lastTick.Some? ==> o.m.lastTick.value <= call.at
  {}

  lemma {:induction false} RunStands(c: Policy, startStopped: bool, calls: seq<Call>)
    requires Timed(calls)
    ensures Standing(Run(c, startStopped, calls), startStopped)
  {
    if calls != [] {
      var n := |calls| - 1;
      TimedPrefix(calls, n);
      RunStands(c, startStopped, calls[..n]);
      WorldBefore(c, startStopped, calls, n);
      StandingStep(Run(c, startStopped, calls[..n]), startStopped, calls[n]);
    }
  }

  /** Every call of every run is answered as the log before it calls for: with that refusal or none,
      those envelopes, and a lease left or not. */
  lemma RunIsExpected(c: Policy, startStopped: bool, calls: seq<Call>, i: nat)
    requires Timed(calls) && i < |calls|
    ensures |Run(c, startStopped, calls).log| == |calls|
    ensures var log := Run(c, startStopped, calls).log;
            var answer := Expected(c, Read(c, startStopped, log[..i]), calls[i]);
            && log[i].call == calls[i]
            && log[i].reply == (if answer.error.Some? then Refused(answer.error.value) else Done)
            && log[i].out == answer.out && log[i].leased == answer.leased
  {
    WorldBefore(c, startStopped, calls, i);
    TimedPrefix(calls, i);
    RunStands(c, startStopped, calls[..i]);
    var w, log := Run(c, startStopped, calls[..i]), Run(c, startStopped, calls).log;
    StandingAgrees(w, startStopped);
    AnswerIsExact(w.m, Read(c, startStopped, w.log), calls[i]);
    assert log[i] == log[..i + 1][i];
  }
}
