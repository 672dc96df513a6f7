/** The robot-side motion watchdog as a value: one function per public operation.
    `BridgeObject.dfy` proves the updating object against these functions and
    `BridgeRuns.dfy` proves what every run of them keeps. */
module BridgeCore {
  import opened Wire
  import opened SportApi

  const HARD_MAX_LINEAR_X := 1.0
  const HARD_MAX_LINEAR_Y := 0.20
  const HARD_MAX_ANGULAR_Z := 0.50
  const HARD_MAX_COMMAND_TIMEOUT_S := 0.20
  const MAX_KNOWN_SOURCES := 16
  const ACTION_DELAY_S := 0.10
  const INFLIGHT_GUARD_S := 0.25

  // ----- settings ---------------------------------------------------------------------

  datatype RawSettings = Settings(
    maxX: real, maxY: real, maxZ: real,
    commandTimeout: real, telemetryTimeout: real, sourceTimeout: real,
    expectedBare: nat, epoch: string)

  predicate Legal(c: RawSettings) {
    && 0.0 < c.maxX <= HARD_MAX_LINEAR_X
    && 0.0 < c.maxY <= HARD_MAX_LINEAR_Y
    && 0.0 < c.maxZ <= HARD_MAX_ANGULAR_Z
    && 0.10 <= c.commandTimeout <= HARD_MAX_COMMAND_TIMEOUT_S
    && 0.20 <= c.telemetryTimeout <= 1.0
    && 0.5 <= c.sourceTimeout <= 5.0
    && c.expectedBare <= 64
  }

  type Settings = c: RawSettings | Legal(c)
    witness Settings(0.30, 0.20, 0.50, 0.20, 0.50, 2.0, 0, "")

  /** Unlike the message validators, the limits are read by `float()` alone. */
  function BoundedLimit(raw: Value, ceiling: real): Option<real> {
    match FloatOf(raw)
    case None => None
    case Some(n) => if n <= 0.0 then None else Some(Min(n, ceiling))
  }

  /** The constructor's clamping. The three time limits are read as finite numbers. */
  function Configure(maxX: Value, maxY: Value, maxZ: Value,
                     commandTimeout: real, telemetryTimeout: real, sourceTimeout: real,
                     expectedBare: Value, epoch: string): (r: Option<Settings>)
    ensures r.None? <==>
              BoundedLimit(maxX, HARD_MAX_LINEAR_X).None? || BoundedLimit(maxY, HARD_MAX_LINEAR_Y).None? ||
              BoundedLimit(maxZ, HARD_MAX_ANGULAR_Z).None? ||
              !expectedBare.Int? || expectedBare.whole < 0 || expectedBare.whole > 64
    ensures r.Some? ==>
              && 0.0 < r.value.maxX <= HARD_MAX_LINEAR_X && r.value.maxX <= FloatOf(maxX).value
              && 0.0 < r.value.maxY <= HARD_MAX_LINEAR_Y && r.value.maxY <= FloatOf(maxY).value
              && 0.0 < r.value.maxZ <= HARD_MAX_ANGULAR_Z && r.value.maxZ <= FloatOf(maxZ).value
              && 0.10 <= r.value.commandTimeout <= HARD_MAX_COMMAND_TIMEOUT_S
  {
    match (BoundedLimit(maxX, HARD_MAX_LINEAR_X), BoundedLimit(maxY, HARD_MAX_LINEAR_Y),
           BoundedLimit(maxZ, HARD_MAX_ANGULAR_Z))
    case (Some(x), Some(y), Some(z)) =>
      if expectedBare.Int? && 0 <= expectedBare.whole <= 64 then
        Some(Settings(x, y, z,
                      Clamp(commandTimeout, 0.10, HARD_MAX_COMMAND_TIMEOUT_S),
                      Clamp(telemetryTimeout, 0.20, 1.0),
                      Clamp(sourceTimeout, 0.5, 5.0),
                      expectedBare.whole, epoch))
      else None
    case _ => None
  }

  predicate WithinLimits(c: Settings, v: Velocity) {
    && -c.maxX <= v.x <= c.maxX
    && -c.maxY <= v.y <= c.maxY
    && -c.maxZ <= v.z <= c.maxZ
  }

  // ----- state ------------------------------------------------------------------------

  datatype Kind = DriveKind | StopKind | ActionKind | InhibitKind

  datatype Ack = Ack(source: string, serial: int, kind: Kind, acceptedAt: real)
  datatype Pending = Pending(action: Action, due: real)
  datatype Inhibit = Inhibit(token: string, source: string, violated: bool)
  datatype ReleaseAck = ReleaseAck(token: string, source: string, serial: int)
  datatype Seen = Seen(source: string, serial: int)

  datatype Bridge = Bridge(
    cfg: Settings,
    sourceId: string,
    seen: seq<Seen>,
    lastReceived: real,
    commandAck: Option<Ack>,
    lastDrive: real,
    target: Velocity,
    deadman: bool,
    moving: bool,
    pendingStop: bool,
    pendingAction: Option<Pending>,
    guardUntil: real,
    holdUntil: real,
    holdName: Option<Action>,
    lastStop: real,
    lastError: Reason,
    lastRequest: Option<SportRequest>,
    inhibit: Option<Inhibit>,
    releaseAck: Option<ReleaseAck>)

  function Init(c: Settings): Bridge {
    Bridge(c, "", [], 0.0, None, 0.0, ZERO, false, false, true, None, 0.0, 0.0, None, 0.0, NoReason,
           None, None, None)
  }

  // ----- the sequence table: an insertion-ordered dictionary --------------------------

  function LastSeq(seen: seq<Seen>, source: string): int {
    if seen == [] then -1
    else if seen[0].source == source then seen[0].serial
    else LastSeq(seen[1..], source)
  }

  /** Assignment to a dictionary key: a known key keeps its place, a new one goes last. */
  function Store(seen: seq<Seen>, source: string, n: int): seq<Seen> {
    if seen == [] then [Seen(source, n)]
    else if seen[0].source == source then [Seen(source, n)] + seen[1..]
    else [seen[0]] + Store(seen[1..], source, n)
  }

  /** Past sixteen sources the oldest is forgotten, unless it is the one just stored. */
  function Evict(seen: seq<Seen>, source: string): seq<Seen> {
    if |seen| > MAX_KNOWN_SOURCES && seen[0].source != source then seen[1..] else seen
  }

  // ----- messages ---------------------------------------------------------------------

  /** A decoded command. `kind` and `action` are the enumeration members their texts name;
      `None` stands for every other value of those fields. */
  datatype Payload = Payload(
    kind: Option<Kind>, epoch: Value, source: Value, sequence: Value,
    token: Value, enabled: Value, reason: Reason, action: Option<Action>, deadman: Value,
    linearX: Value, linearY: Value, angularZ: Value)

  datatype Header = Header(kind: Kind, source: string, serial: int, age: real)

  predicate IsHexDigit(c: char) {
    '0' <= c <= '9' || 'a' <= c <= 'f'
  }

  predicate IsToken(v: Value) {
    && v.Text?
    && |v.text| == 32
    && forall i | 0 <= i < 32 :: IsHexDigit(v.text[i])
  }

  /** Every check made before the sequence table is touched, in the order it is made. */
  function Validate(c: Settings, p: Payload, age: Value): Result<Header, CommandError> {
    if p.kind.None? then Err(UnknownCommand)
    else if !p.epoch.Text? || p.epoch.text != c.epoch then Err(EpochMismatch)
    else if !p.source.Text? || !(8 <= |p.source.text| <= 128) then Err(InvalidSource)
    else if !p.sequence.Int? || p.sequence.whole < 0 then Err(InvalidSequence)
    else
      match FiniteNumber(age)
      case None => Err(InvalidTransportAge)
      case Some(a) =>
        if a < 0.0 then Err(NegativeTransportAge)
        else if p.kind.value != StopKind && a > c.commandTimeout then
          Err(TransportDeadlineExceeded)
        else Ok(Header(p.kind.value, p.source.text, p.sequence.whole, a))
  }

  // ----- operations -------------------------------------------------------------------

  /** What one call did: the reply is an error exactly for `Rejected` and `Blocked`. */
  datatype Effect =
    | Rejected(error: CommandError)
    | Blocked
    | Ignored
    | Stopped
    | Armed(issued: real, target: Velocity)
    | Queued(action: Action)
    | InhibitTaken(token: string, source: string)
    | InhibitReleased(token: string, source: string)

  datatype Stepped = Stepped(state: Bridge, effect: Effect)

  function Violate(i: Option<Inhibit>): Option<Inhibit> {
    match i
    case None => None
    case Some(h) => Some(h.(violated := true))
  }

  function ForceStop(s: Bridge, reason: Reason): Bridge {
    s.(inhibit := Violate(s.inhibit),
       target := ZERO,
       deadman := false,
       moving := false,
       pendingAction := None,
       pendingStop := true,
       guardUntil := 0.0,
       holdUntil := 0.0,
       holdName := None,
       lastError := Truncate(reason))
  }

  /** Only a caller's own text can be long enough to be cut. */
  function Truncate(reason: Reason): Reason {
    if reason.Said? && |reason.text| > 160 then Said(reason.text[..160]) else reason
  }

  function AcceptSource(s: Bridge, h: Header, now: real): Result<Bridge, CommandError> {
    if h.serial <= LastSeq(s.seen, h.source) then Err(Replayed)
    else if h.kind != StopKind && s.sourceId != "" && h.source != s.sourceId
            && now - s.lastReceived <= s.cfg.sourceTimeout then
      Err(OtherSourceOwnsBridge)
    else Ok(s.(seen := Evict(Store(s.seen, h.source, h.serial), h.source),
               sourceId := h.source,
               lastReceived := now,
               lastError := NoReason))
  }

  function Acknowledge(s: Bridge, h: Header, now: real): Bridge {
    s.(commandAck := Some(Ack(h.source, h.serial, h.kind, now)))
  }

  function AcceptInhibit(s: Bridge, p: Payload, h: Header, now: real): Stepped {
    if !IsToken(p.token) || !p.enabled.Bool? then
      Stepped(s, Rejected(InvalidInhibit))
    else if s.inhibit.Some? && (s.inhibit.value.token != p.token.text || s.inhibit.value.source != h.source) then
      Stepped(s, Rejected(InhibitOwnerMismatch))
    else if p.enabled.flag then
      if s.inhibit.Some? then Stepped(s, Rejected(InhibitRetained))
      else if s.deadman || s.moving || s.target != ZERO || s.pendingAction.Some?
              || now < Max(s.guardUntil, s.holdUntil) then
        Stepped(s, Rejected(BridgeBusy))
      else Stepped(s.(inhibit := Some(Inhibit(p.token.text, h.source, false))),
                   InhibitTaken(p.token.text, h.source))
    else if s.inhibit.None? then Stepped(s, Rejected(InhibitNotOwned))
    else Stepped(s.(inhibit := None, releaseAck := Some(ReleaseAck(p.token.text, h.source, h.serial))),
                 InhibitReleased(p.token.text, h.source))
  }

  function AcceptAction(s: Bridge, p: Payload, h: Header, now: real): Stepped {
    if now < s.holdUntil then Stepped(s, Rejected(ActionWindowActive))
    else
      match p.action
      case None => Stepped(s, Rejected(ActionNotAllowlisted))
      case Some(a) =>
        Stepped(Acknowledge(s.(target := ZERO,
                               deadman := false,
                               pendingStop := true,
                               pendingAction := Some(Pending(a, now + ACTION_DELAY_S)),
                               holdUntil := now + GuardSeconds(a),
                               holdName := Some(a),
                               guardUntil := now + INFLIGHT_GUARD_S), h, now),
                Queued(a))
  }

  function AcceptDrive(s: Bridge, p: Payload, h: Header, now: real): Stepped
  {
    if now < Max(s.guardUntil, s.holdUntil) then Stepped(s, Ignored)
    else if !p.deadman.Bool? then Stepped(s, Rejected(DeadmanNotBoolean))
    else if !p.deadman.flag then
      Stepped(Acknowledge(ForceStop(s, DeadmanReleased), h, now), Stopped)
    else
      match (FiniteNumber(p.linearX), FiniteNumber(p.linearY), FiniteNumber(p.angularZ))
      case (Some(x), Some(y), Some(z)) =>
        var target := Velocity(Clamp(x, -s.cfg.maxX, s.cfg.maxX),
                               Clamp(y, -s.cfg.maxY, s.cfg.maxY),
                               Clamp(z, -s.cfg.maxZ, s.cfg.maxZ));
        Stepped(Acknowledge(s.(target := target,
                               deadman := true,
                               lastDrive := now - h.age,
                               pendingAction := None,
                               guardUntil := 0.0), h, now),
                Armed(now - h.age, target))
      case _ => Stepped(s, Rejected(VelocityNotFinite))
  }

  /** A command whose sequence number has been taken. */
  function Dispatch(s: Bridge, p: Payload, h: Header, now: real): Stepped
  {
    if h.kind == InhibitKind then AcceptInhibit(s, p, h, now)
    else if s.inhibit.Some? && h.kind != StopKind then
      Stepped(s.(inhibit := Violate(s.inhibit)), Blocked)
    else
      match h.kind
      case StopKind => Stepped(Acknowledge(ForceStop(s, p.reason), h, now), Stopped)
      case ActionKind => AcceptAction(s, p, h, now)
      case DriveKind => AcceptDrive(s, p, h, now)
  }

  function Accept(s: Bridge, p: Payload, now: real, age: Value): Stepped
  {
    match Validate(s.cfg, p, age)
    case Err(e) => Stepped(s, Rejected(e))
    case Ok(h) =>
      match AcceptSource(s, h, now)
      case Err(e) => Stepped(s, Rejected(e))
      case Ok(known) => Dispatch(known, p, h, now)
  }

  /** What a tick is told about the robot and the ROS graph. */
  datatype Surroundings = Surroundings(
    lowstateAge: Option<real>,
    lowstatePublishers: Value, sportSubscribers: Value, sportPublishers: Value,
    ownPublishers: Value, foreignPublishers: Value, barePublishers: Value)

  predicate IsCount(v: Value) { v.Int? && v.whole >= 0 }

  predicate GraphReady(c: Settings, e: Surroundings) {
    && IsCount(e.lowstatePublishers) && IsCount(e.sportSubscribers) && IsCount(e.sportPublishers)
    && IsCount(e.ownPublishers) && IsCount(e.foreignPublishers) && IsCount(e.barePublishers)
    && e.lowstatePublishers.whole == 1
    && e.sportSubscribers.whole == 1
    && e.ownPublishers.whole == 1
    && e.foreignPublishers.whole == 0
    && e.barePublishers.whole == c.expectedBare
    && e.sportPublishers.whole == e.ownPublishers.whole + e.foreignPublishers.whole + e.barePublishers.whole
  }

  predicate TelemetryFresh(c: Settings, e: Surroundings) {
    e.lowstateAge.Some? && 0.0 <= e.lowstateAge.value <= c.telemetryTimeout
  }

  predicate Ready(c: Settings, e: Surroundings) {
    TelemetryFresh(c, e) && GraphReady(c, e)
  }

  datatype Ticked = Ticked(state: Bridge, published: seq<SportRequest>)

  /** Losing readiness voids an inhibit, any accepted drive and any running action window. */
  function Disarm(s: Bridge, now: real, ready: bool): Bridge {
    if ready then s
    else
      var s1 := s.(inhibit := Violate(s.inhibit));
      var s2 := if s1.deadman || s1.target != ZERO then ForceStop(s1, TelemetryUnavailable) else s1;
      if now < s2.holdUntil then ForceStop(s2, TelemetryUnavailableDuringAction) else s2
  }

  function FlushStop(s: Bridge, now: real): Ticked {
    if s.pendingStop then
      Ticked(s.(pendingStop := false, lastStop := now),
             [StopRequest(if s.lastError == NoReason then PlainStop else s.lastError)])
    else Ticked(s, [])
  }

  predicate CommandFresh(s: Bridge, now: real) {
    && s.deadman
    && now - s.lastDrive <= s.cfg.commandTimeout
    && now - s.lastReceived <= s.cfg.sourceTimeout
  }

  /** The choice between a movement, an idle or watchdog stop, and silence. */
  function Steer(t: Ticked, now: real, ready: bool): Ticked {
    var s := t.state;
    if now < s.holdUntil then t
    else if ready && CommandFresh(s, now) then
      var request := MoveRequest(s.target);
      Ticked(s.(moving := IsMotion(s.target), lastRequest := Some(request)), t.published + [request])
    else if s.moving || now - s.lastStop >= 0.50 then
      var request := StopRequest(if ready then CommandWatchdog else TelemetryUnavailable);
      Ticked(s.(moving := false, deadman := false, target := ZERO, lastStop := now,
                lastRequest := Some(request)),
             t.published + [request])
    else t
  }

  function Tick(s: Bridge, now: real, e: Surroundings): Ticked {
    var ready := Ready(s.cfg, e);
    var t := FlushStop(Disarm(s, now, ready), now);
    match t.state.pendingAction
    case None => Steer(t, now, ready)
    case Some(pending) =>
      if !ready then
        Steer(t.(state := ForceStop(t.state, BridgeUnavailableBeforeAction)), now, ready)
      else if now >= pending.due then
        var request := ActionRequest(pending.action);
        Ticked(t.state.(pendingAction := None, lastRequest := Some(request)), t.published + [request])
      else Steer(t, now, ready)
  }
}
