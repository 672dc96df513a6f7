/** The dashboard's control manager as a value: one lease, one coalesced drive intent, and the
    envelopes each call adds to the output stream. `ControlObject.dfy` proves the updating
    object against these functions and `ControlRuns.dfy` proves what every run keeps. */
module ControlCore {
  import opened Wire
  import opened SportApi

  const NOMINAL_TICK_S := 0.02
  const MAX_ELAPSED_S := 0.25
  const MIN_SPEED_SCALE := 0.10
  const MAX_SPEED_SCALE := 1.0

  // ----- settings ---------------------------------------------------------------------

  datatype RawPolicy = Policy(
    enabled: bool,
    vxLimit: real, vyLimit: real, wzLimit: real,
    commandTimeout: real, navigationTimeout: real,
    heartbeat: real, bindWindow: real,
    bridgeStale: real, lowstateStale: real,
    linearSlew: real, lateralSlew: real, angularSlew: real,
    allowed: set<Action>)

  predicate LegalPolicy(c: RawPolicy) {
    && 0.01 <= c.vxLimit <= 1.0 && 0.01 <= c.vyLimit <= 0.20 && 0.05 <= c.wzLimit <= 0.50
    && 0.10 <= c.commandTimeout <= 0.20 && 0.10 <= c.navigationTimeout <= 0.30
    && 0.5 <= c.heartbeat <= 2.0 && 2.5 <= c.bindWindow <= 5.0
    && 0.1 <= c.bridgeStale <= 2.0 && 0.1 <= c.lowstateStale <= 1.0
    && 0.05 <= c.linearSlew <= 2.0 && 0.05 <= c.lateralSlew <= 2.0 && 0.1 <= c.angularSlew <= 4.0
  }

  type Policy = c: RawPolicy | LegalPolicy(c)
    witness Policy(false, 0.30, 0.20, 0.50, 0.20, 0.30, 2.0, 4.0, 0.75, 0.5, 0.75, 0.60, 1.5, {})

  /** `_bounded_float`: unlike the message validators it reads booleans as 0 and 1. */
  function BoundedFloat(v: Value, default: real, low: real, high: real): (r: real)
    requires low <= default <= high
    ensures low <= r <= high
  {
    match FloatOf(v)
    case None => default
    case Some(n) => Clamp(n, low, high)
  }

  /** The profile entries the constructor looks up. */
  datatype Profile = Profile(
    profileEnabled: bool, startupEnabled: bool,
    maxLinearX: Value, maxLinearY: Value, maxAngularZ: Value,
    commandTimeout: Value, navigationTimeout: Value, leaseTimeout: Value, bindTimeout: Value,
    bridgeTimeout: Value, telemetryTimeout: Value,
    linearAccel: Value, lateralAccel: Value, angularAccel: Value,
    allowedActions: set<Action>)

  /** A setting that reads as a finite number inside its range is used as it stands. */
  predicate Honoured(v: Value, low: real, high: real, r: real) {
    FloatOf(v).Some? && low <= FloatOf(v).value <= high ==> r == FloatOf(v).value
  }

  /** Whatever the profile holds, a policy comes out, so every setting is inside its range. */
  function Configure(p: Profile): (r: Policy)
    ensures r.enabled <==> p.profileEnabled && p.startupEnabled
    ensures Honoured(p.maxLinearX, 0.01, 1.0, r.vxLimit) && Honoured(p.maxLinearY, 0.01, 0.20, r.vyLimit)
    ensures Honoured(p.maxAngularZ, 0.05, 0.50, r.wzLimit) && Honoured(p.commandTimeout, 0.10, 0.20, r.commandTimeout)
    ensures Honoured(p.leaseTimeout, 0.5, 2.0, r.heartbeat)
  {
    Policy(p.profileEnabled && p.startupEnabled,
           BoundedFloat(p.maxLinearX, 0.30, 0.01, 1.0),
           BoundedFloat(p.maxLinearY, 0.20, 0.01, 0.20),
           BoundedFloat(p.maxAngularZ, 0.50, 0.05, 0.50),
           BoundedFloat(p.commandTimeout, 0.20, 0.10, 0.20),
           BoundedFloat(p.navigationTimeout, 0.30, 0.10, 0.30),
           BoundedFloat(p.leaseTimeout, 2.0, 0.5, 2.0),
           BoundedFloat(p.bindTimeout, 4.0, 2.5, 5.0),
           BoundedFloat(p.bridgeTimeout, 0.75, 0.1, 2.0),
           BoundedFloat(p.telemetryTimeout, 0.5, 0.1, 1.0),
           BoundedFloat(p.linearAccel, 0.75, 0.05, 2.0),
           BoundedFloat(p.lateralAccel, 0.60, 0.05, 2.0),
           BoundedFloat(p.angularAccel, 1.5, 0.1, 4.0),
           p.allowedActions)
  }

  predicate WithinPolicy(c: Policy, v: Velocity) {
    && -c.vxLimit <= v.x <= c.vxLimit
    && -c.vyLimit <= v.y <= c.vyLimit
    && -c.wzLimit <= v.z <= c.wzLimit
  }

  // ----- state ------------------------------------------------------------------------

  datatype InputSource = Keyboard | Gamepad | Navigation

  datatype Lease = Lease(token: string, source: InputSource, binding: Option<string>,
                         heartbeatAt: real, lastSeq: int)

  datatype Intent = Intent(serial: int, issued: real, deadman: bool, target: Velocity, source: InputSource)

  datatype StopCause =
    | LeaseExpired | CommandTimeout | LeaseReleased | DeadmanWasReleased | ActionPrepare
    | EmergencyStopped | ReadinessStale | BridgeNotReady | LowstateNotReady | ReadinessLost
    | ManagerClosed

  datatype Envelope =
    | DriveOut(serial: int, source: InputSource, velocity: Velocity, at: real)
    | StopOut(cause: StopCause, at: real)
    | ActionOut(action: Action, serial: int, at: real)

  /** Everything but the outputs not yet drained. A guard that has run out is left in place:
      nothing tells it from one set back to zero. */
  datatype Manager = Manager(
    cfg: Policy, closed: bool,
    lease: Option<Lease>, drive: Option<Intent>,
    bridgeSeen: Option<real>, lowstateSeen: Option<real>,
    estop: bool, guardUntil: real,
    velocity: Velocity, lastTick: Option<real>, motionActive: bool, stopEmitted: bool)

  function Init(c: Policy, startStopped: bool): Manager {
    Manager(c, false, None, None, None, None, startStopped, 0.0, ZERO, None, false, true)
  }

  datatype ControlError =
    | Closed | Disabled | NotReady | Busy | InvalidLease | BindingMismatch | BadSequence
    | BadCommand | StopLatched | UnsafeToken

  datatype Reply = Done | Refused(error: ControlError)

  /** A manager with the envelopes the current call has added so far. */
  datatype Draft = Draft(m: Manager, out: seq<Envelope>)

  datatype Outcome = Outcome(m: Manager, reply: Reply, out: seq<Envelope>)

  function Finish(d: Draft, reply: Reply): Outcome { Outcome(d.m, reply, d.out) }

  // ----- timers and revocation --------------------------------------------------------

  predicate GuardOver(m: Manager, now: real) { m.guardUntil <= now }

  predicate ReadyAt(m: Manager, now: real) {
    && m.cfg.enabled && !m.closed
    && m.bridgeSeen.Some? && now - m.bridgeSeen.value < m.cfg.bridgeStale
    && m.lowstateSeen.Some? && now - m.lowstateSeen.value < m.cfg.lowstateStale
    && GuardOver(m, now)
  }

  function EmitStop(d: Draft, cause: StopCause, now: real, force: bool): Draft {
    Draft(d.m.(velocity := ZERO, motionActive := false, stopEmitted := true),
          d.out + if force || !d.m.stopEmitted then [StopOut(cause, now)] else [])
  }

  function Revoke(d: Draft, cause: StopCause, now: real): Draft {
    EmitStop(d.(m := d.m.(lease := None, drive := None)), cause, now, true)
  }

  function LeaseTimeout(c: Policy, lease: Lease): real {
    if lease.binding.None? then c.bindWindow else c.heartbeat
  }

  function CommandTimeoutFor(c: Policy, source: InputSource): (t: real)
    ensures 0.10 <= t <= 0.30
    ensures source != Navigation ==> t <= 0.20
  {
    if source == Navigation then c.navigationTimeout else c.commandTimeout
  }

  predicate LeaseOver(m: Manager, now: real) {
    m.lease.Some? && now - m.lease.value.heartbeatAt >= LeaseTimeout(m.cfg, m.lease.value)
  }

  predicate CommandOver(m: Manager, now: real) {
    && m.lease.Some? && m.drive.Some? && m.drive.value.deadman
    && now - m.drive.value.issued >= CommandTimeoutFor(m.cfg, m.drive.value.source)
  }

  function Expire(d: Draft, now: real): Draft {
    if LeaseOver(d.m, now) then Revoke(d, LeaseExpired, now) else d
  }

  function ExpireCommand(d: Draft, now: real): Draft {
    if CommandOver(d.m, now) then Revoke(d, CommandTimeout, now) else d
  }

  function FailClosed(d: Draft, cause: StopCause, now: real): Draft {
    if d.m.lease.Some? || d.m.motionActive then Revoke(d, cause, now) else d
  }

  // ----- the lease --------------------------------------------------------------------

  datatype Gate = Gate(d: Draft, error: Option<ControlError>)

  function Configured(m: Manager): Option<ControlError> {
    if m.closed then Some(Closed) else if !m.cfg.enabled then Some(Disabled) else None
  }

  /** `_require_lease`: after an empty error the draft holds the lease the token names. */
  function RequireLease(m: Manager, token: string, now: real, binding: Option<string>, ready: bool): (g: Gate)
    ensures g.error.None? ==> g.d.m.lease.Some?
  {
    if Configured(m).Some? then Gate(Draft(m, []), Configured(m))
    else
      var d := ExpireCommand(Expire(Draft(m, []), now), now);
      if d.m.lease.None? || d.m.lease.value.token != token then Gate(d, Some(InvalidLease))
      else if binding.Some? && d.m.lease.value.binding != binding then Gate(d, Some(BindingMismatch))
      else if ready && !ReadyAt(d.m, now) then Gate(FailClosed(d, ReadinessStale, now), Some(NotReady))
      else Gate(d, None)
  }

  function Acquire(m: Manager, source: Option<InputSource>, token: string, now: real): Outcome {
    if Configured(m).Some? then Outcome(m, Refused(Configured(m).value), [])
    else
      var d := Expire(Draft(m, []), now);
      if d.m.estop then Finish(d, Refused(StopLatched))
      else if !GuardOver(d.m, now) then Finish(d, Refused(NotReady))
      else if !ReadyAt(d.m, now) then Finish(d, Refused(NotReady))
      else if source.None? then Finish(d, Refused(BadCommand))
      else if d.m.lease.Some? then Finish(d, Refused(Busy))
      else if |token| < 16 then Finish(d, Refused(UnsafeToken))
      else Finish(d.(m := d.m.(lease := Some(Lease(token, source.value, None, now, -1)))), Done)
  }

  function Bind(m: Manager, token: string, binding: string, now: real): Outcome {
    var g := RequireLease(m, token, now, None, true);
    if g.error.Some? then Finish(g.d, Refused(g.error.value))
    else
      var lease := g.d.m.lease.value;
      if binding == "" || |binding| > 256 then Finish(g.d, Refused(BindingMismatch))
      else if lease.binding.None? then
        Finish(g.d.(m := g.d.m.(lease := Some(lease.(binding := Some(binding), heartbeatAt := now)))), Done)
      else if lease.binding.value != binding then Finish(g.d, Refused(BindingMismatch))
      else Finish(g.d, Done)
  }

  predicate NextInOrder(lease: Lease, serial: Value) {
    serial.Int? && serial.whole >= 0 && serial.whole > lease.lastSeq
  }

  function Heartbeat(m: Manager, token: string, binding: string, serial: Value, now: real): Outcome {
    var g := RequireLease(m, token, now, Some(binding), true);
    if g.error.Some? then Finish(g.d, Refused(g.error.value))
    else
      var lease := g.d.m.lease.value;
      if !NextInOrder(lease, serial) then Finish(g.d, Refused(BadSequence))
      else Finish(g.d.(m := g.d.m.(lease := Some(lease.(lastSeq := serial.whole, heartbeatAt := now)))), Done)
  }

  function Release(m: Manager, token: string, binding: Option<string>, now: real): Outcome {
    var g := RequireLease(m, token, now, binding, false);
    if g.error.Some? then Finish(g.d, Refused(g.error.value))
    else Finish(Revoke(g.d, LeaseReleased, now), Done)
  }

  // ----- commands ---------------------------------------------------------------------

  /** A number that is an int or a finite float already: texts and booleans are refused. */
  function StrictNumber(v: Value): Option<real> {
    match v
    case Int(i) => Some(i as real)
    case Float(f) => Some(f)
    case _ => None
  }

  function Normalized(v: Value): Option<real> {
    match StrictNumber(v)
    case Some(n) => if -1.0 <= n <= 1.0 then Some(n) else None
    case None => None
  }

  function Scaled(n: real, limit: real, scale: real): real
    requires 0.0 <= limit
  {
    Clamp(n * limit * scale, -limit, limit)
  }

  datatype DriveRequest = DriveRequest(vx: Value, vy: Value, wz: Value, speedScale: Value,
                                       deadman: Value, clientAge: Value)

  datatype Parsed = Parsed(deadman: bool, target: Velocity, age: real)

  function ParseDrive(c: Policy, source: InputSource, r: DriveRequest): Option<Parsed> {
    match (Normalized(r.vx), Normalized(r.vy), Normalized(r.wz), StrictNumber(r.speedScale), StrictNumber(r.clientAge))
    case (Some(x), Some(y), Some(z), Some(raw), Some(age)) =>
      if !r.deadman.Bool? || age < 0.0 || age > CommandTimeoutFor(c, source) then None
      else
        var scale := Clamp(raw, MIN_SPEED_SCALE, MAX_SPEED_SCALE);
        Some(Parsed(r.deadman.flag,
                    Velocity(Scaled(x, c.vxLimit, scale), Scaled(y, c.vyLimit, scale), Scaled(z, c.wzLimit, scale)),
                    age))
    case _ => None
  }

  function SubmitDrive(m: Manager, token: string, binding: string, serial: Value, r: DriveRequest, now: real): Outcome {
    if m.estop then Outcome(m, Refused(StopLatched), [])
    else
      var g := RequireLease(m, token, now, Some(binding), true);
      if g.error.Some? then Finish(g.d, Refused(g.error.value))
      else
        var lease := g.d.m.lease.value;
        var parsed := ParseDrive(m.cfg, lease.source, r);
        if parsed.None? then Finish(g.d, Refused(BadCommand))
        else if !NextInOrder(lease, serial) then Finish(g.d, Refused(BadSequence))
        else
          var p := parsed.value;
          var d := g.d.(m := g.d.m.(
            lease := Some(lease.(lastSeq := serial.whole)),
            drive := Some(Intent(serial.whole, now - p.age, p.deadman, p.target, lease.source))));
          Finish(if p.deadman then d else EmitStop(d, DeadmanWasReleased, now, true), Done)
  }

  function RequestAction(m: Manager, token: string, binding: string, serial: Value,
                         action: Option<Action>, confirm: bool, now: real): Outcome {
    if m.estop then Outcome(m, Refused(StopLatched), [])
    else
      var g := RequireLease(m, token, now, Some(binding), true);
      if g.error.Some? then Finish(g.d, Refused(g.error.value))
      else
        var lease := g.d.m.lease.value;
        if g.d.m.motionActive || (g.d.m.drive.Some? && g.d.m.drive.value.deadman) then
          Finish(g.d, Refused(BadCommand))
        else if action.None? || action.value !in m.cfg.allowed || !confirm then Finish(g.d, Refused(BadCommand))
        else if !NextInOrder(lease, serial) then Finish(g.d, Refused(BadSequence))
        else
          var d := EmitStop(g.d, ActionPrepare, now, true);
          Finish(Draft(d.m.(lease := None, drive := None, guardUntil := now + GuardSeconds(action.value)),
                       d.out + [ActionOut(action.value, serial.whole, now)]),
                 Done)
  }

  // ----- stops, readiness and the timer -----------------------------------------------

  function EmergencyStop(m: Manager, now: real): Outcome {
    if m.closed then Outcome(m, Refused(Closed), [])
    else Finish(Revoke(Draft(m.(estop := true, guardUntil := 0.0), []), EmergencyStopped, now), Done)
  }

  /** With no stop latched this only answers a snapshot. */
  function ClearEmergencyStop(m: Manager, confirm: bool, now: real): Outcome {
    if Configured(m).Some? then Outcome(m, Refused(Configured(m).value), [])
    else if !m.estop then Snapshot(m, now)
    else if !confirm then Outcome(m, Refused(BadCommand), [])
    else if !ReadyAt(m, now) then Outcome(m, Refused(NotReady), [])
    else Outcome(m.(estop := false, lease := None, drive := None), Done, [])
  }

  function NoteSeen(seen: Option<real>, note: Option<bool>, now: real): Option<real> {
    match note
    case None => seen
    case Some(well) => if well then Some(now) else None
  }

  /** `note_bridge`, `note_lowstate` and `set_readiness`: `None` leaves that half alone. */
  function Observe(m: Manager, bridge: Option<bool>, lowstate: Option<bool>, cause: StopCause, now: real): Outcome {
    if m.closed then Outcome(m, Refused(Closed), [])
    else
      var d := Draft(m.(bridgeSeen := NoteSeen(m.bridgeSeen, bridge, now),
                        lowstateSeen := NoteSeen(m.lowstateSeen, lowstate, now)), []);
      Finish(if bridge == Some(false) || lowstate == Some(false) then FailClosed(d, cause, now) else d, Done)
  }

  /** Reading a snapshot runs the two expiry timers. */
  function Snapshot(m: Manager, now: real): Outcome {
    Finish(ExpireCommand(Expire(Draft(m, []), now), now), Done)
  }

  function Close(m: Manager, now: real): Outcome {
    if m.closed then Outcome(m, Done, [])
    else
      var d := Revoke(Draft(m.(guardUntil := 0.0), []), ManagerClosed, now);
      Finish(d.(m := d.m.(closed := true)), Done)
  }

  function Slew(current: real, target: real, delta: real): real {
    Max(current - delta, Min(target, current + delta))
  }

  function Elapsed(lastTick: Option<real>, now: real): (t: real)
    ensures 0.0 <= t <= MAX_ELAPSED_S
  {
    if lastTick.None? then NOMINAL_TICK_S else Clamp(now - lastTick.value, 0.0, MAX_ELAPSED_S)
  }

  /** How far each axis may move in that time. */
  function Reach(c: Policy, elapsed: real): Velocity {
    Velocity(c.linearSlew * elapsed, c.lateralSlew * elapsed, c.angularSlew * elapsed)
  }

  function SlewVelocity(current: Velocity, target: Velocity, reach: Velocity): Velocity {
    Velocity(Slew(current.x, target.x, reach.x), Slew(current.y, target.y, reach.y), Slew(current.z, target.z, reach.z))
  }

  predicate IsActive(v: Velocity) {
    Abs(v.x) > 0.000000001 || Abs(v.y) > 0.000000001 || Abs(v.z) > 0.000000001
  }

  function Tick(m: Manager, now: real): Outcome {
    if m.closed then Outcome(m, Refused(Closed), [])
    else
      var elapsed := Elapsed(m.lastTick, now);
      var d := Draft(m.(lastTick := Some(now)), []);
      if LeaseOver(d.m, now) then Finish(Expire(d, now), Done)
      else if d.m.lease.Some? && !ReadyAt(d.m, now) then Finish(FailClosed(d, ReadinessStale, now), Done)
      else if d.m.estop then Finish(EmitStop(d, EmergencyStopped, now, false), Done)
      else if d.m.lease.None? || d.m.drive.None? then Finish(d, Done)
      else if !d.m.drive.value.deadman then Finish(EmitStop(d, DeadmanWasReleased, now, false), Done)
      else if CommandOver(d.m, now) then Finish(ExpireCommand(d, now), Done)
      else
        Move(d.m, Reach(m.cfg, elapsed), now)
  }

  /** One step of the velocity towards the intent's target. */
  function Move(m: Manager, reach: Velocity, now: real): Outcome
    requires m.drive.Some?
  {
    var velocity := SlewVelocity(m.velocity, m.drive.value.target, reach);
    Outcome(m.(velocity := velocity, motionActive := IsActive(velocity), stopEmitted := !IsActive(velocity)),
            Done, [DriveOut(m.drive.value.serial, m.drive.value.source, velocity, now)])
  }
}
