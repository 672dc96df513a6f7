/** Every run of the control manager: any interleaving of its public calls at nondecreasing
    times, the log of what each did, and the output stream the envelopes form. */
module ControlRuns {
  import opened Wire
  import opened SportApi
  import opened ControlCore

  datatype Call =
    | AcquireCall(at: real, source: Option<InputSource>, token: string)
    | BindCall(at: real, token: string, binding: string)
    | HeartbeatCall(at: real, token: string, binding: string, serial: Value)
    | DriveCall(at: real, token: string, binding: string, serial: Value, request: DriveRequest)
    | ActionCall(at: real, token: string, binding: string, serial: Value, action: Option<Action>, confirm: bool)
    | ReleaseCall(at: real, token: string, releaseBinding: Option<string>)
    | StopCall(at: real)
    | ClearCall(at: real, confirm: bool)
    | ObserveCall(at: real, bridge: Option<bool>, lowstate: Option<bool>, cause: StopCause)
    | SnapshotCall(at: real)
    | TickCall(at: real)
    | CloseCall(at: real)

  function Do(m: Manager, call: Call): Outcome {
    match call
    case AcquireCall(at, source, token) => Acquire(m, source, token, at)
    case BindCall(at, token, binding) => Bind(m, token, binding, at)
    case HeartbeatCall(at, token, binding, serial) => Heartbeat(m, token, binding, serial, at)
    case DriveCall(at, token, binding, serial, request) => SubmitDrive(m, token, binding, serial, request, at)
    case ActionCall(at, token, binding, serial, action, confirm) =>
      RequestAction(m, token, binding, serial, action, confirm, at)
    case ReleaseCall(at, token, binding) => Release(m, token, binding, at)
    case StopCall(at) => EmergencyStop(m, at)
    case ClearCall(at, confirm) => ClearEmergencyStop(m, confirm, at)
    case ObserveCall(at, bridge, lowstate, cause) => Observe(m, bridge, lowstate, cause, at)
    case SnapshotCall(at) => Snapshot(m, at)
    case TickCall(at) => Tick(m, at)
    case CloseCall(at) => Close(m, at)
  }

  /** What a call answered, added to the stream, and left of the lease. */
  datatype Entry = Entry(call: Call, reply: Reply, out: seq<Envelope>, leased: bool)

  function Record(call: Call, o: Outcome): Entry { Entry(call, o.reply, o.out, o.m.lease.Some?) }

  datatype World = World(m: Manager, log: seq<Entry>)

  function Apply(w: World, call: Call): World {
    var r := Do(w.m, call);
    World(r.m, w.log + [Record(call, r)])
  }

  function Run(c: Policy, startStopped: bool, calls: seq<Call>): World {
    if calls == [] then World(Init(c, startStopped), [])
    else Apply(Run(c, startStopped, calls[..|calls| - 1]), calls[|calls| - 1])
  }

  predicate Timed(calls: seq<Call>) {
    && (forall i | 0 <= i < |calls| :: 0.0 <= calls[i].at)
    && (forall i, j | 0 <= i < j < |calls| :: calls[i].at <= calls[j].at)
  }

  // ----- reference folds over a log ---------------------------------------------------

  /** Everything the calls of a log have added to the outputs, in order. */
  function Stream(log: seq<Entry>): seq<Envelope> {
    if log == [] then [] else Stream(log[..|log| - 1]) + log[|log| - 1].out
  }

  /** Empty, or ending in a stop or an action. */
  predicate Quiet(stream: seq<Envelope>) {
    stream == [] || !stream[|stream| - 1].DriveOut?
  }

  /** The velocity the last envelope leaves: a drive's own, zero after anything else. */
  function LastVelocity(stream: seq<Envelope>): Velocity {
    if Quiet(stream) then ZERO else stream[|stream| - 1].velocity
  }

  predicate ActionsFollowStops(stream: seq<Envelope>) {
    forall k | 0 <= k < |stream| && stream[k].ActionOut? :: k > 0 && stream[k - 1].StopOut?
  }

  datatype Grant = Grant(token: string, source: InputSource)

  predicate IsDone(e: Entry) { e.reply == Done }

  /** The latest grant not given up, used up by an action, or stopped since. */
  function CurrentGrant(log: seq<Entry>): Option<Grant> {
    if log == [] then None
    else
      var e := log[|log| - 1];
      if !IsDone(e) then CurrentGrant(log[..|log| - 1])
      else
        match e.call
        case AcquireCall(_, source, token) => if source.Some? then Some(Grant(token, source.value)) else None
        case ActionCall(_, _, _, _, _, _) => None
        case ReleaseCall(_, _, _) => None
        case StopCall(_) => None
        case CloseCall(_) => None
        case _ => CurrentGrant(log[..|log| - 1])
  }

  /** The latest accepted drive request of the current grant, as the intent it asks for. */
  function CurrentIntent(c: Policy, log: seq<Entry>): Option<Intent> {
    if log == [] then None
    else
      var e := log[|log| - 1];
      var before := log[..|log| - 1];
      if !IsDone(e) then CurrentIntent(c, before)
      else
        match e.call
        case DriveCall(at, _, _, serial, request) =>
          var grant := CurrentGrant(before);
          if grant.None? || !serial.Int? then None
          else
            var p := ParseDrive(c, grant.value.source, request);
            if p.None? then None
            else Some(Intent(serial.whole, at - p.value.age, p.value.deadman, p.value.target, grant.value.source))
        case AcquireCall(_, _, _) => None
        case ActionCall(_, _, _, _, _, _) => None
        case ReleaseCall(_, _, _) => None
        case StopCall(_) => None
        case CloseCall(_) => None
        case _ => CurrentIntent(c, before)
  }

  /** When the timer last ran. */
  function LastTickAt(log: seq<Entry>): Option<real> {
    if log == [] then None
    else
      var e := log[|log| - 1];
      if e.call.TickCall? && IsDone(e) then Some(e.call.at) else LastTickAt(log[..|log| - 1])
  }

  /** The end of the latest accepted action's guard; an emergency stop or closing ends it. */
  function GuardEnd(log: seq<Entry>): real {
    if log == [] then 0.0
    else
      var e := log[|log| - 1];
      if !IsDone(e) then GuardEnd(log[..|log| - 1])
      else
        match e.call
        case ActionCall(at, _, _, _, action, _) => if action.Some? then at + GuardSeconds(action.value) else 0.0
        case StopCall(_) => 0.0
        case CloseCall(_) => 0.0
        case _ => GuardEnd(log[..|log| - 1])
  }

  predicate Leased(log: seq<Entry>) {
    log != [] && log[|log| - 1].leased
  }

  function Clock(log: seq<Entry>): real {
    if log == [] then 0.0 else log[|log| - 1].call.at
  }

  // ----- the state against the stream -------------------------------------------------

  /** What ties a manager to everything it has put out so far. */
  ghost predicate Sound(m: Manager, stream: seq<Envelope>) {
    && m.velocity == LastVelocity(stream)
    && WithinPolicy(m.cfg, m.velocity)
    && ActionsFollowStops(stream)
    && (m.lease.None? ==> m.drive.None? && !m.motionActive)
    && (m.lease.None? || m.drive.None? || !m.drive.value.deadman ==> Quiet(stream))
    && (m.estop || m.closed ==> m.lease.None?)
    && (m.drive.Some? ==> WithinPolicy(m.cfg, m.drive.value.target))
    && (m.drive.Some? && m.lease.Some? ==> m.drive.value.source == m.lease.value.source)
  }

  lemma LastOf(base: seq<Envelope>, out: seq<Envelope>)
    requires out != []
    ensures Quiet(base + out) == Quiet(out) && LastVelocity(base + out) == LastVelocity(out)
  {
    assert (base + out)[|base + out| - 1] == out[|out| - 1];
  }

  lemma StillFollow(base: seq<Envelope>, next: Envelope)
    requires ActionsFollowStops(base)
    requires next.ActionOut? ==> base != [] && base[|base| - 1].StopOut?
    ensures ActionsFollowStops(base + [next])
  {
  }

  lemma StopSounds(d: Draft, base: seq<Envelope>, cause: StopCause, now: real)
    requires ActionsFollowStops(base + d.out)
    requires (d.m.lease.None? ==> d.m.drive.None?) && (d.m.estop || d.m.closed ==> d.m.lease.None?)
    requires d.m.drive.Some? ==> WithinPolicy(d.m.cfg, d.m.drive.value.target)
    requires d.m.drive.Some? && d.m.lease.Some? ==> d.m.drive.value.source == d.m.lease.value.source
    ensures var e := EmitStop(d, cause, now, true);
            && Sound(e.m, base + e.out) && e.out == d.out + [StopOut(cause, now)]
  {
    var e := EmitStop(d, cause, now, true);
    assert base + e.out == (base + d.out) + [StopOut(cause, now)];
    LastOf(base + d.out, [StopOut(cause, now)]);
    StillFollow(base + d.out, StopOut(cause, now));
  }

  lemma RevokeSounds(d: Draft, base: seq<Envelope>, cause: StopCause, now: real)
    requires ActionsFollowStops(base + d.out)
    ensures var e := Revoke(d, cause, now);
            && Sound(e.m, base + e.out) && e.out == d.out + [StopOut(cause, now)]
  {
    StopSounds(d.(m := d.m.(lease := None, drive := None)), base, cause, now);
  }

  /** A stop that need not be forced changes nothing the stream does not already show. */
  lemma UnforcedStopSounds(m: Manager, base: seq<Envelope>, cause: StopCause, now: real)
    requires Sound(m, base) && Quiet(base)
    ensures var e := EmitStop(Draft(m, []), cause, now, false); Sound(e.m, base + e.out)
  {
    if m.stopEmitted {
      assert base + [] == base;
    } else {
      assert base + [] == base;
      StopSounds(Draft(m, []), base, cause, now);
    }
  }

  /** Expiry, and losing readiness, keep the books straight. */
  lemma ExpirySounds(m: Manager, base: seq<Envelope>, now: real)
    requires Sound(m, base)
    ensures var d := ExpireCommand(Expire(Draft(m, []), now), now); Sound(d.m, base + d.out)
    ensures var d := Expire(Draft(m, []), now); Sound(d.m, base + d.out)
  {
    assert base + [] == base;
    RevokeSounds(Draft(m, []), base, LeaseExpired, now);
    RevokeSounds(Draft(m, []), base, CommandTimeout, now);
  }

  lemma GateSounds(m: Manager, base: seq<Envelope>, token: string, now: real, binding: Option<string>, ready: bool)
    requires Sound(m, base)
    ensures var g := RequireLease(m, token, now, binding, ready); Sound(g.d.m, base + g.d.out)
  {
    assert base + [] == base;
    ExpirySounds(m, base, now);
    var d := ExpireCommand(Expire(Draft(m, []), now), now);
    RevokeSounds(d, base, ReadinessStale, now);
  }

  lemma TickSounds(m: Manager, base: seq<Envelope>, now: real)
    requires Sound(m, base)
    ensures var o := Tick(m, now); Sound(o.m, base + o.out)
  {
    assert base + [] == base;
    if !m.closed {
      var t := m.(lastTick := Some(now));
      assert Sound(t, base);
      if LeaseOver(t, now) {
        RevokeSounds(Draft(t, []), base, LeaseExpired, now);
      } else if t.lease.Some? && !ReadyAt(t, now) {
        RevokeSounds(Draft(t, []), base, ReadinessStale, now);
      } else if t.estop {
        UnforcedStopSounds(t, base, EmergencyStopped, now);
      } else if t.lease.Some? && t.drive.Some? {
        if !t.drive.value.deadman {
          UnforcedStopSounds(t, base, DeadmanWasReleased, now);
        } else if CommandOver(t, now) {
          RevokeSounds(Draft(t, []), base, CommandTimeout, now);
        } else {
          var reach := Reach(m.cfg, Elapsed(m.lastTick, now));
          ReachIsForward(m.cfg, Elapsed(m.lastTick, now));
          SlewIsWithin(m.cfg, m.velocity, m.drive.value.target, reach);
          DriveSounds(m, base, now, SlewVelocity(m.velocity, m.drive.value.target, reach));
        }
      }
    }
  }

  lemma ReachIsForward(c: Policy, elapsed: real)
    requires 0.0 <= elapsed
    ensures var r := Reach(c, elapsed); 0.0 <= r.x && 0.0 <= r.y && 0.0 <= r.z
  {
  }

  predicate Between(low: real, v: real, high: real) {
    low <= v <= high || high <= v <= low
  }

  predicate AxisSlewed(current: real, v: real, target: real, delta: real) {
    Abs(v - current) <= delta && Between(current, v, target)
  }

  /** Each axis moves towards its target, never past it, and no further than its reach. */
  predicate Slewed(current: Velocity, v: Velocity, target: Velocity, reach: Velocity) {
    && AxisSlewed(current.x, v.x, target.x, reach.x)
    && AxisSlewed(current.y, v.y, target.y, reach.y)
    && AxisSlewed(current.z, v.z, target.z, reach.z)
  }

  lemma SlewIsGentle(current: Velocity, target: Velocity, reach: Velocity)
    requires 0.0 <= reach.x && 0.0 <= reach.y && 0.0 <= reach.z
    ensures Slewed(current, SlewVelocity(current, target, reach), target, reach)
  {
  }

  lemma SlewIsWithin(c: Policy, current: Velocity, target: Velocity, reach: Velocity)
    requires WithinPolicy(c, current) && WithinPolicy(c, target)
    requires 0.0 <= reach.x && 0.0 <= reach.y && 0.0 <= reach.z
    ensures WithinPolicy(c, SlewVelocity(current, target, reach))
  {
    SlewIsGentle(current, target, reach);
  }

  lemma DriveSounds(m: Manager, base: seq<Envelope>, now: real, v: Velocity)
    requires Sound(m, base) && m.drive.Some? && m.drive.value.deadman && m.lease.Some?
    requires WithinPolicy(m.cfg, v)
    ensures var drive := m.drive.value;
            Sound(m.(lastTick := Some(now), velocity := v, motionActive := IsActive(v), stopEmitted := !IsActive(v)),
                  base + [DriveOut(drive.serial, drive.source, v, now)])
  {
    var drive := m.drive.value;
    LastOf(base, [DriveOut(drive.serial, drive.source, v, now)]);
    StillFollow(base, DriveOut(drive.serial, drive.source, v, now));
  }

  lemma ActionSounds(m: Manager, base: seq<Envelope>, token: string, binding: string, serial: Value,
                     action: Option<Action>, confirm: bool, now: real)
    requires Sound(m, base)
    ensures var o := RequestAction(m, token, binding, serial, action, confirm, now); Sound(o.m, base + o.out)
  {
    assert base + [] == base;
    GateSounds(m, base, token, now, Some(binding), true);
    var g := RequireLease(m, token, now, Some(binding), true);
    var o := RequestAction(m, token, binding, serial, action, confirm, now);
    if o.reply == Done {
      StopSounds(g.d, base, ActionPrepare, now);
      var d := EmitStop(g.d, ActionPrepare, now, true);
      var last := ActionOut(action.value, serial.whole, now);
      assert base + o.out == (base + d.out) + [last];
      assert (base + d.out)[|base + d.out| - 1] == StopOut(ActionPrepare, now);
      LastOf(base + d.out, [last]);
      StillFollow(base + d.out, last);
    }
  }

  /** An intent taken over by the lease's holder, with the stop of a released deadman. */
  lemma IntentSounds(m: Manager, base: seq<Envelope>, lease: Lease, intent: Intent, now: real)
    requires Sound(m, base) && m.lease.Some? && lease.source == intent.source == m.lease.value.source
    requires WithinPolicy(m.cfg, intent.target)
    ensures var n := m.(lease := Some(lease), drive := Some(intent));
            && (intent.deadman ==> Sound(n, base))
            && var e := EmitStop(Draft(n, []), DeadmanWasReleased, now, true); Sound(e.m, base + e.out)
  {
    assert base + [] == base;
    StopSounds(Draft(m.(lease := Some(lease), drive := Some(intent)), []), base, DeadmanWasReleased, now);
  }

  lemma ParseIsWithin(c: Policy, source: InputSource, r: DriveRequest)
    ensures ParseDrive(c, source, r).Some? ==> WithinPolicy(c, ParseDrive(c, source, r).value.target)
  {
  }

  lemma SubmitSounds(m: Manager, base: seq<Envelope>, call: Call)
    requires Sound(m, base) && call.DriveCall?
    ensures var o := Do(m, call); Sound(o.m, base + o.out)
  {
    assert base + [] == base;
    GateSounds(m, base, call.token, call.at, Some(call.binding), true);
    GateKeeps(m, call.token, call.at, Some(call.binding), true);
    GateStops(m, call.token, call.at, Some(call.binding), true);
    var o := Do(m, call);
    if o.reply == Done {
      var lease := m.lease.value;
      ParseIsWithin(m.cfg, lease.source, call.request);
      var p := ParseDrive(m.cfg, lease.source, call.request).value;
      IntentSounds(m, base, lease.(lastSeq := call.serial.whole),
                   Intent(call.serial.whole, call.at - p.age, p.deadman, p.target, lease.source), call.at);
    }
  }

  lemma FailClosedSounds(m: Manager, base: seq<Envelope>, cause: StopCause, now: real)
    requires Sound(m, base)
    ensures var d := FailClosed(Draft(m, []), cause, now); Sound(d.m, base + d.out)
  {
    assert base + [] == base;
    RevokeSounds(Draft(m, []), base, cause, now);
  }

  lemma SeenSounds(m: Manager, base: seq<Envelope>, bridgeSeen: Option<real>, lowstateSeen: Option<real>)
    requires Sound(m, base)
    ensures Sound(m.(bridgeSeen := bridgeSeen, lowstateSeen := lowstateSeen), base)
  {
  }

  lemma ObserveSounds(m: Manager, base: seq<Envelope>, call: Call)
    requires Sound(m, base) && call.ObserveCall?
    ensures var o := Do(m, call); Sound(o.m, base + o.out)
  {
    assert base + [] == base;
    var bridgeSeen := NoteSeen(m.bridgeSeen, call.bridge, call.at);
    var lowstateSeen := NoteSeen(m.lowstateSeen, call.lowstate, call.at);
    SeenSounds(m, base, bridgeSeen, lowstateSeen);
    FailClosedSounds(m.(bridgeSeen := bridgeSeen, lowstateSeen := lowstateSeen), base, call.cause, call.at);
  }

  lemma ReleaseSounds(m: Manager, base: seq<Envelope>, call: Call)
    requires Sound(m, base) && call.ReleaseCall?
    ensures var o := Do(m, call); Sound(o.m, base + o.out)
  {
    GateSounds(m, base, call.token, call.at, call.releaseBinding, false);
    RevokeSounds(RequireLease(m, call.token, call.at, call.releaseBinding, false).d, base, LeaseReleased, call.at);
  }

  lemma SessionSounds(m: Manager, base: seq<Envelope>, call: Call)
    requires Sound(m, base) && (call.BindCall? || call.HeartbeatCall?)
    ensures var o := Do(m, call); Sound(o.m, base + o.out)
  {
    match call
    case BindCall(at, token, _) => GateSounds(m, base, token, at, None, true);
    case HeartbeatCall(at, token, binding, _) => GateSounds(m, base, token, at, Some(binding), true);
    case _ =>
  }

  lemma AcquireSounds(m: Manager, base: seq<Envelope>, call: Call)
    requires Sound(m, base) && call.AcquireCall?
    ensures var o := Do(m, call); Sound(o.m, base + o.out)
  {
    assert base + [] == base;
    ExpirySounds(m, base, call.at);
  }

  lemma LatchSounds(m: Manager, base: seq<Envelope>, call: Call)
    requires Sound(m, base) && (call.StopCall? || call.ClearCall? || call.CloseCall?)
    ensures var o := Do(m, call); Sound(o.m, base + o.out)
  {
    assert base + [] == base;
    match call
    case StopCall(at) => RevokeSounds(Draft(m.(estop := true, guardUntil := 0.0), []), base, EmergencyStopped, at);
    case CloseCall(at) => RevokeSounds(Draft(m.(guardUntil := 0.0), []), base, ManagerClosed, at);
    case ClearCall(at, _) => ExpirySounds(m, base, at);
    case _ =>
  }

  lemma DoSounds(m: Manager, base: seq<Envelope>, call: Call)
    requires Sound(m, base)
    ensures var o := Do(m, call); Sound(o.m, base + o.out)
  {
    match call
    case DriveCall(_, _, _, _, _) => SubmitSounds(m, base, call);
    case ActionCall(at, token, binding, serial, action, confirm) =>
      ActionSounds(m, base, token, binding, serial, action, confirm, at);
    case ReleaseCall(_, _, _) => ReleaseSounds(m, base, call);
    case ObserveCall(_, _, _, _) => ObserveSounds(m, base, call);
    case SnapshotCall(at) => ExpirySounds(m, base, at);
    case TickCall(at) => TickSounds(m, base, at);
    case StopCall(_) => LatchSounds(m, base, call);
    case ClearCall(_, _) => LatchSounds(m, base, call);
    case CloseCall(_) => LatchSounds(m, base, call);
    case AcquireCall(_, _, _) => AcquireSounds(m, base, call);
    case _ => SessionSounds(m, base, call);
  }

  // ----- the state against the log ----------------------------------------------------

  /** No call but the granting ones gives a lease or an intent that was not there. */
  predicate Kept(m: Manager, n: Manager) {
    && n.cfg == m.cfg && n.closed == m.closed
    && (n.lease.Some? ==> m.lease.Some? && n.lease.value.token == m.lease.value.token
                          && n.lease.value.source == m.lease.value.source)
    && (if n.lease.Some? then n.drive == m.drive else n.drive.None? || n.drive == m.drive)
  }

  /** What a call does to the lease, the intent, the guard and the timer. */
  predicate Step(m: Manager, call: Call, o: Outcome) {
    if o.reply != Done then
      Kept(m, o.m) && o.m.guardUntil == m.guardUntil && o.m.lastTick == m.lastTick
    else
      match call
      case AcquireCall(at, source, token) =>
        && source.Some? && o.m.lease.Some? && o.m.lease.value.token == token && o.m.lease.value.source == source.value
        && o.m.drive.None? && m.guardUntil <= at && !m.estop && !m.closed && m.cfg.enabled
        && o.m.cfg == m.cfg && o.m.closed == m.closed && o.m.guardUntil == m.guardUntil && o.m.lastTick == m.lastTick
      case DriveCall(at, token, _, serial, request) =>
        && m.lease.Some? && m.lease.value.token == token && serial.Int?
        && ParseDrive(m.cfg, m.lease.value.source, request).Some?
        && Kept(m, o.m.(drive := m.drive))
        && o.m.lease.Some? && o.m.guardUntil == m.guardUntil && o.m.lastTick == m.lastTick
        && var p := ParseDrive(m.cfg, m.lease.value.source, request).value;
           o.m.drive == Some(Intent(serial.whole, at - p.age, p.deadman, p.target, m.lease.value.source))
      case ActionCall(at, token, _, _, action, _) =>
        && m.lease.Some? && m.lease.value.token == token
        && action.Some? && o.m.lease.None? && o.m.drive.None? && o.m.cfg == m.cfg && o.m.closed == m.closed
        && o.m.guardUntil == at + GuardSeconds(action.value) && o.m.lastTick == m.lastTick
      case ReleaseCall(_, token, _) =>
        && m.lease.Some? && m.lease.value.token == token
        && o.m.lease.None? && o.m.drive.None? && o.m.cfg == m.cfg && o.m.closed == m.closed
        && o.m.guardUntil == m.guardUntil && o.m.lastTick == m.lastTick
      case StopCall(_) =>
        && o.m.lease.None? && o.m.drive.None? && o.m.guardUntil == 0.0 && o.m.cfg == m.cfg && o.m.closed == m.closed
        && o.m.lastTick == m.lastTick
      case CloseCall(_) =>
        && o.m.lease.None? && o.m.drive.None? && o.m.closed && o.m.cfg == m.cfg && o.m.lastTick == m.lastTick
        && (o.m.guardUntil == 0.0 || (m.closed && o.m == m))
      case TickCall(at) =>
        Kept(m, o.m) && o.m.guardUntil == m.guardUntil && o.m.lastTick == Some(at)
      case BindCall(_, token, _) =>
        && m.lease.Some? && m.lease.value.token == token
        && Kept(m, o.m) && o.m.guardUntil == m.guardUntil && o.m.lastTick == m.lastTick
      case HeartbeatCall(_, token, _, _) =>
        && m.lease.Some? && m.lease.value.token == token
        && Kept(m, o.m) && o.m.guardUntil == m.guardUntil && o.m.lastTick == m.lastTick
      case _ =>
        Kept(m, o.m) && o.m.guardUntil == m.guardUntil && o.m.lastTick == m.lastTick
  }

  lemma ExpiryKeeps(m: Manager, now: real)
    ensures var d := Expire(Draft(m, []), now);
            && Kept(m, d.m) && Untouched(m, d.m) && (d.m.lease.Some? ==> d.m == m)
    ensures var d := ExpireCommand(Expire(Draft(m, []), now), now);
            && Kept(m, d.m) && Untouched(m, d.m) && (d.m.lease.Some? ==> d.m == m)
  {
  }

  predicate Untouched(m: Manager, n: Manager) {
    n.guardUntil == m.guardUntil && n.lastTick == m.lastTick && n.estop == m.estop && n.closed == m.closed
  }

  lemma GateKeeps(m: Manager, token: string, now: real, binding: Option<string>, ready: bool)
    ensures var g := RequireLease(m, token, now, binding, ready);
            && Kept(m, g.d.m) && Untouched(m, g.d.m)
            && (g.error.None? ==> g.d.m == m && m.lease.Some? && m.lease.value.token == token)
  {
    ExpiryKeeps(m, now);
  }

  lemma AcquireSteps(m: Manager, call: Call)
    requires call.AcquireCall? && (m.lease.None? ==> m.drive.None?) && (m.closed ==> m.lease.None?)
    ensures Step(m, call, Do(m, call))
  {
    ExpiryKeeps(m, call.at);
  }

  lemma DriveSteps(m: Manager, call: Call)
    requires call.DriveCall?
    ensures Step(m, call, Do(m, call))
  {
    GateKeeps(m, call.token, call.at, Some(call.binding), true);
  }

  lemma ActionSteps(m: Manager, call: Call)
    requires call.ActionCall?
    ensures Step(m, call, Do(m, call))
  {
    GateKeeps(m, call.token, call.at, Some(call.binding), true);
  }

  lemma SessionSteps(m: Manager, call: Call)
    requires call.BindCall? || call.HeartbeatCall? || call.ReleaseCall?
    ensures Step(m, call, Do(m, call))
  {
    match call
    case BindCall(at, token, _) => GateKeeps(m, token, at, None, true);
    case HeartbeatCall(at, token, binding, _) => GateKeeps(m, token, at, Some(binding), true);
    case ReleaseCall(at, token, binding) => GateKeeps(m, token, at, binding, false);
    case _ =>
  }

  lemma TickSteps(m: Manager, call: Call)
    requires call.TickCall?
    ensures Step(m, call, Do(m, call))
  {
  }

  lemma OtherSteps(m: Manager, call: Call)
    requires (m.lease.None? ==> m.drive.None?) && (m.closed ==> m.lease.None?)
    requires call.StopCall? || call.ClearCall? || call.ObserveCall? || call.SnapshotCall? || call.CloseCall?
    ensures Step(m, call, Do(m, call))
  {
    if call.SnapshotCall? || call.ClearCall? {
      ExpiryKeeps(m, call.at);
    }
  }

  lemma DoSteps(m: Manager, call: Call)
    requires (m.lease.None? ==> m.drive.None?) && (m.closed ==> m.lease.None?)
    ensures Step(m, call, Do(m, call))
  {
    match call
    case AcquireCall(_, _, _) => AcquireSteps(m, call);
    case DriveCall(_, _, _, _, _) => DriveSteps(m, call);
    case ActionCall(_, _, _, _, _, _) => ActionSteps(m, call);
    case BindCall(_, _, _) => SessionSteps(m, call);
    case HeartbeatCall(_, _, _, _) => SessionSteps(m, call);
    case ReleaseCall(_, _, _) => SessionSteps(m, call);
    case TickCall(_) => TickSteps(m, call);
    case _ => OtherSteps(m, call);
  }

  // ----- what a call may put out ------------------------------------------------------

  predicate HasStop(out: seq<Envelope>) {
    exists e :: e in out && e.StopOut?
  }

  /** Only a tick drives, and only for a live deadman intent; only an accepted action call puts
      out an action, right after a stop; a lease never ends without a stop. */
  predicate Emits(m: Manager, call: Call, o: Outcome) {
    && (forall k | 0 <= k < |o.out| && o.out[k].DriveOut? :: call.TickCall? && Drives(m, call.at, o))
    && (forall k | 0 <= k < |o.out| && o.out[k].ActionOut? :: call.ActionCall? && o.reply == Done)
    && (call.ActionCall? && o.reply == Done ==>
          && call.action.Some? && call.serial.Int? && 2 <= |o.out|
          && o.out[|o.out| - 2] == StopOut(ActionPrepare, call.at)
          && o.out[|o.out| - 1] == ActionOut(call.action.value, call.serial.whole, call.at))
    && (m.lease.Some? && o.m.lease.None? ==> HasStop(o.out))
    && (call.TickCall? && o.reply == Done && IntentOver(m, call.at) ==> o.m.lease.None?)
    && (call.TickCall? ==> (o.reply == Done <==> !m.closed))
  }

  predicate Drives(m: Manager, at: real, o: Outcome) {
    && m.lease.Some? && m.drive.Some? && m.drive.value.deadman && ReadyAt(m, at) && !m.estop
    && at - m.drive.value.issued < CommandTimeoutFor(m.cfg, m.drive.value.source)
    && at - m.lease.value.heartbeatAt < LeaseTimeout(m.cfg, m.lease.value)
    && o.out == [DriveOut(m.drive.value.serial, m.drive.value.source,
                          SlewVelocity(m.velocity, m.drive.value.target, Reach(m.cfg, Elapsed(m.lastTick, at))), at)]
  }

  predicate IntentOver(m: Manager, at: real) {
    && m.drive.Some? && m.drive.value.deadman
    && at - m.drive.value.issued >= CommandTimeoutFor(m.cfg, m.drive.value.source)
  }

  predicate OnlyStops(out: seq<Envelope>) {
    forall k | 0 <= k < |out| :: out[k].StopOut?
  }

  lemma RevokeStops(d: Draft, cause: StopCause, now: real)
    requires OnlyStops(d.out)
    ensures OnlyStops(Revoke(d, cause, now).out) && HasStop(Revoke(d, cause, now).out)
  {
    assert StopOut(cause, now) in Revoke(d, cause, now).out;
  }

  lemma ExpiryStops(m: Manager, now: real)
    ensures var d := Expire(Draft(m, []), now);
            && OnlyStops(d.out) && (m.lease.Some? && d.m.lease.None? ==> HasStop(d.out))
    ensures var d := ExpireCommand(Expire(Draft(m, []), now), now);
            && OnlyStops(d.out) && (m.lease.Some? && d.m.lease.None? ==> HasStop(d.out))
  {
    RevokeStops(Draft(m, []), LeaseExpired, now);
    RevokeStops(Draft(m, []), CommandTimeout, now);
  }

  lemma GateStops(m: Manager, token: string, now: real, binding: Option<string>, ready: bool)
    ensures var g := RequireLease(m, token, now, binding, ready);
            && OnlyStops(g.d.out) && (m.lease.Some? && g.d.m.lease.None? ==> HasStop(g.d.out))
            && (g.error.None? ==> g.d.out == [])
  {
    ExpiryStops(m, now);
    RevokeStops(ExpireCommand(Expire(Draft(m, []), now), now), ReadinessStale, now);
  }

  lemma AcquireEmits(m: Manager, call: Call)
    requires call.AcquireCall?
    ensures Emits(m, call, Do(m, call))
  {
    ExpiryStops(m, call.at);
  }

  lemma DriveEmits(m: Manager, call: Call)
    requires call.DriveCall?
    ensures Emits(m, call, Do(m, call))
  {
    GateStops(m, call.token, call.at, Some(call.binding), true);
  }

  lemma ActionEmits(m: Manager, call: Call)
    requires call.ActionCall?
    ensures Emits(m, call, Do(m, call))
  {
    GateStops(m, call.token, call.at, Some(call.binding), true);
    var g := RequireLease(m, call.token, call.at, Some(call.binding), true);
    var o := Do(m, call);
    if o.reply == Done {
      assert o.out == [StopOut(ActionPrepare, call.at), ActionOut(call.action.value, call.serial.whole, call.at)];
      assert o.out[0] in o.out;
    }
  }

  lemma SessionEmits(m: Manager, call: Call)
    requires call.BindCall? || call.HeartbeatCall?
    ensures Emits(m, call, Do(m, call))
  {
    match call
    case BindCall(at, token, _) => GateStops(m, token, at, None, true);
    case HeartbeatCall(at, token, binding, _) => GateStops(m, token, at, Some(binding), true);
    case _ =>
  }

  lemma ReleaseEmits(m: Manager, call: Call)
    requires call.ReleaseCall?
    ensures Emits(m, call, Do(m, call))
  {
    GateStops(m, call.token, call.at, call.releaseBinding, false);
    RevokeStops(RequireLease(m, call.token, call.at, call.releaseBinding, false).d, LeaseReleased, call.at);
  }

  lemma LatchEmits(m: Manager, call: Call)
    requires m.estop ==> m.lease.None?
    requires call.StopCall? || call.ClearCall? || call.CloseCall?
    ensures Emits(m, call, Do(m, call))
  {
    match call
    case StopCall(at) => RevokeStops(Draft(m.(estop := true, guardUntil := 0.0), []), EmergencyStopped, at);
    case CloseCall(at) => RevokeStops(Draft(m.(guardUntil := 0.0), []), ManagerClosed, at);
    case ClearCall(at, _) => ExpiryStops(m, at);
    case _ =>
  }

  lemma SnapshotEmits(m: Manager, call: Call)
    requires call.SnapshotCall?
    ensures Emits(m, call, Do(m, call))
  {
    ExpiryStops(m, call.at);
  }

  lemma ObserveEmits(m: Manager, call: Call)
    requires call.ObserveCall?
    ensures Emits(m, call, Do(m, call))
  {
    var o := Do(m, call);
    if o.out != [] {
      assert o.out == [StopOut(call.cause, call.at)];
      assert o.out[0] in o.out;
    }
  }

  lemma TickEmits(m: Manager, call: Call)
    requires call.TickCall? && (m.lease.None? ==> m.drive.None?) && (m.estop ==> m.lease.None?)
    ensures Emits(m, call, Do(m, call))
  {
    var o := Do(m, call);
    if o.out != [] && o.out[0].StopOut? {
      assert o.out[0] in o.out;
    }
  }

  lemma DoEmits(m: Manager, call: Call)
    requires (m.lease.None? ==> m.drive.None?) && (m.estop ==> m.lease.None?)
    ensures Emits(m, call, Do(m, call))
  {
    match call
    case AcquireCall(_, _, _) => AcquireEmits(m, call);
    case DriveCall(_, _, _, _, _) => DriveEmits(m, call);
    case ActionCall(_, _, _, _, _, _) => ActionEmits(m, call);
    case BindCall(_, _, _) => SessionEmits(m, call);
    case HeartbeatCall(_, _, _, _) => SessionEmits(m, call);
    case ReleaseCall(_, _, _) => ReleaseEmits(m, call);
    case TickCall(_) => TickEmits(m, call);
    case StopCall(_) => LatchEmits(m, call);
    case ClearCall(_, _) => LatchEmits(m, call);
    case CloseCall(_) => LatchEmits(m, call);
    case SnapshotCall(_) => SnapshotEmits(m, call);
    case _ => ObserveEmits(m, call);
  }

  ghost predicate LogInv(w: World) {
    && (w.m.lease.Some? ==>
          && CurrentGrant(w.log) == Some(Grant(w.m.lease.value.token, w.m.lease.value.source))
          && w.m.guardUntil <= Clock(w.log))
    && (w.m.lease.Some? ==> CurrentIntent(w.m.cfg, w.log) == w.m.drive)
    && w.m.lastTick == LastTickAt(w.log)
    && w.m.lease.Some? == Leased(w.log)
    && w.m.guardUntil == GuardEnd(w.log)
    && (w.m.closed ==> w.m.lease.None? && w.m.guardUntil == 0.0)
  }

  ghost predicate Inv(w: World) {
    Sound(w.m, Stream(w.log)) && LogInv(w)
  }

  lemma StepKeepsLog(w: World, call: Call, o: Outcome)
    requires Inv(w) && Step(w.m, call, o) && Clock(w.log) <= call.at
    ensures LogInv(World(o.m, w.log + [Record(call, o)]))
  {
    var v := World(o.m, w.log + [Record(call, o)]);
    assert v.log[..|v.log| - 1] == w.log;
    assert v.log[|v.log| - 1] == Record(call, o);
  }

  lemma ApplyKeeps(w: World, call: Call) returns (o: Outcome)
    requires Inv(w) && Clock(w.log) <= call.at
    ensures Step(w.m, call, o) && Emits(w.m, call, o)
    ensures Apply(w, call) == World(o.m, w.log + [Record(call, o)])
    ensures Inv(Apply(w, call))
  {
    DoSounds(w.m, Stream(w.log), call);
    DoSteps(w.m, call);
    DoEmits(w.m, call);
    o := Do(w.m, call);
    StepKeepsLog(w, call, o);
    assert Apply(w, call).log[..|w.log|] == w.log;
  }

  lemma {:induction false} RunKeeps(c: Policy, startStopped: bool, calls: seq<Call>)
    requires Timed(calls)
    ensures Inv(Run(c, startStopped, calls))
    ensures |Run(c, startStopped, calls).log| == |calls|
    ensures calls != [] ==> Clock(Run(c, startStopped, calls).log) == calls[|calls| - 1].at
  {
    if calls != [] {
      var before := calls[..|calls| - 1];
      assert |before| > 0 ==> before[|before| - 1] == calls[|calls| - 2];
      RunKeeps(c, startStopped, before);
      var o := ApplyKeeps(Run(c, startStopped, before), calls[|calls| - 1]);
    }
  }
}
