/** The watchdog as the updating object it is in the program, proved against `BridgeCore`. */
module BridgeObject {
  import opened Wire
  import opened SportApi
  import opened BridgeCore

  class Go2BridgeCore {
    const cfg: Settings
    var sourceId: string
    var seen: seq<Seen>
    var lastReceived: real
    var commandAck: Option<Ack>
    var lastDrive: real
    var target: Velocity
    var deadman: bool
    var moving: bool
    var pendingStop: bool
    var pendingAction: Option<Pending>
    var guardUntil: real
    var holdUntil: real
    var holdName: Option<Action>
    var lastStop: real
    var lastError: Reason
    var lastRequest: Option<SportRequest>
    var inhibit: Option<Inhibit>
    var releaseAck: Option<ReleaseAck>

    ghost function State(): Bridge
      reads this
    {
      Bridge(cfg, sourceId, seen, lastReceived, commandAck, lastDrive, target, deadman, moving,
             pendingStop, pendingAction, guardUntil, holdUntil, holdName, lastStop, lastError,
             lastRequest, inhibit, releaseAck)
    }

    constructor (cfg: Settings)
      ensures State() == Init(cfg)
    {
      this.cfg := cfg;
      sourceId := "";
      seen := [];
      lastReceived, lastDrive, guardUntil, holdUntil, lastStop := 0.0, 0.0, 0.0, 0.0, 0.0;
      commandAck, pendingAction, holdName, lastRequest, inhibit, releaseAck := None, None, None, None, None, None;
      target := ZERO;
      deadman, moving, pendingStop := false, false, true;
      lastError := NoReason;
    }

    method ForceStop(reason: Reason)
      modifies this
      ensures State() == BridgeCore.ForceStop(old(State()), reason)
    {
      VoidInhibit();
      HaltMotion();
      CloseWindows();
      lastError := Truncate(reason);
    }

    method VoidInhibit()
      modifies this
      ensures State() == old(State()).(inhibit := Violate(old(inhibit)))
    {
      if inhibit.Some? {
        inhibit := Some(inhibit.value.(violated := true));
      }
    }

    method HaltMotion()
      modifies this
      ensures State() == old(State()).(target := ZERO, deadman := false, moving := false,
                                       pendingAction := None, pendingStop := true)
    {
      target := ZERO;
      deadman := false;
      moving := false;
      pendingAction := None;
      pendingStop := true;
    }

    method CloseWindows()
      modifies this
      ensures State() == old(State()).(guardUntil := 0.0, holdUntil := 0.0, holdName := None)
    {
      guardUntil := 0.0;
      holdUntil := 0.0;
      holdName := None;
    }

    method AcceptSource(h: Header, now: real) returns (error: Option<CommandError>)
      modifies this
      ensures match BridgeCore.AcceptSource(old(State()), h, now)
              case Ok(s) => error.None? && State() == s
              case Err(e) => error == Some(e) && State() == old(State())
    {
      if h.serial <= LastSeq(seen, h.source) {
        return Some(Replayed);
      }
      if h.kind != StopKind && sourceId != "" && h.source != sourceId && now - lastReceived <= cfg.sourceTimeout {
        return Some(OtherSourceOwnsBridge);
      }
      Remember(h);
      sourceId := h.source;
      lastReceived := now;
      lastError := NoReason;
      return None;
    }

    method Remember(h: Header)
      modifies this
      ensures State() == old(State()).(seen := Evict(Store(old(seen), h.source, h.serial), h.source))
    {
      seen := Store(seen, h.source, h.serial);
      if |seen| > MAX_KNOWN_SOURCES {
        if seen[0].source != h.source {
          seen := seen[1..];
        }
      }
    }

    method RecordCommandAck(h: Header, now: real)
      modifies this
      ensures State() == Acknowledge(old(State()), h, now)
    {
      commandAck := Some(Ack(h.source, h.serial, h.kind, now));
    }

    method AcceptInhibit(p: Payload, h: Header, now: real) returns (effect: Effect)
      modifies this
      ensures Stepped(State(), effect) == BridgeCore.AcceptInhibit(old(State()), p, h, now)
    {
      if !IsToken(p.token) || !p.enabled.Bool? {
        return Rejected(InvalidInhibit);
      }
      if inhibit.Some? && (inhibit.value.token != p.token.text || inhibit.value.source != h.source) {
        return Rejected(InhibitOwnerMismatch);
      }
      if p.enabled.flag {
        if inhibit.Some? {
          return Rejected(InhibitRetained);
        }
        if deadman || moving || target != ZERO || pendingAction.Some? || now < Max(guardUntil, holdUntil) {
          return Rejected(BridgeBusy);
        }
        inhibit := Some(Inhibit(p.token.text, h.source, false));
        return InhibitTaken(p.token.text, h.source);
      }
      if inhibit.None? {
        return Rejected(InhibitNotOwned);
      }
      inhibit := None;
      releaseAck := Some(ReleaseAck(p.token.text, h.source, h.serial));
      return InhibitReleased(p.token.text, h.source);
    }

    method AcceptAction(p: Payload, h: Header, now: real) returns (effect: Effect)
      modifies this
      ensures Stepped(State(), effect) == BridgeCore.AcceptAction(old(State()), p, h, now)
    {
      if now < holdUntil {
        return Rejected(ActionWindowActive);
      }
      if p.action.None? {
        return Rejected(ActionNotAllowlisted);
      }
      var action := p.action.value;
      target := ZERO;
      deadman := false;
      pendingStop := true;
      OpenWindow(action, now);
      RecordCommandAck(h, now);
      return Queued(action);
    }

    method OpenWindow(action: Action, now: real)
      modifies this
      ensures State() == old(State()).(pendingAction := Some(Pending(action, now + ACTION_DELAY_S)),
                                       holdUntil := now + GuardSeconds(action),
                                       holdName := Some(action),
                                       guardUntil := now + INFLIGHT_GUARD_S)
    {
      pendingAction := Some(Pending(action, now + ACTION_DELAY_S));
      holdUntil := now + GuardSeconds(action);
      holdName := Some(action);
      guardUntil := now + INFLIGHT_GUARD_S;
    }

    method AcceptDrive(p: Payload, h: Header, now: real) returns (effect: Effect)
      modifies this
      ensures Stepped(State(), effect) == BridgeCore.AcceptDrive(old(State()), p, h, now)
    {
      if now < Max(guardUntil, holdUntil) {
        return Ignored;
      }
      if !p.deadman.Bool? {
        return Rejected(DeadmanNotBoolean);
      }
      if !p.deadman.flag {
        ForceStop(DeadmanReleased);
        RecordCommandAck(h, now);
        return Stopped;
      }
      var x, y, z := FiniteNumber(p.linearX), FiniteNumber(p.linearY), FiniteNumber(p.angularZ);
      if x.None? || y.None? || z.None? {
        return Rejected(VelocityNotFinite);
      }
      var wanted := Velocity(Clamp(x.value, -cfg.maxX, cfg.maxX),
                             Clamp(y.value, -cfg.maxY, cfg.maxY),
                             Clamp(z.value, -cfg.maxZ, cfg.maxZ));
      Arm(wanted, now - h.age);
      RecordCommandAck(h, now);
      return Armed(now - h.age, wanted);
    }

    method Arm(wanted: Velocity, issued: real)
      modifies this
      ensures State() == old(State()).(target := wanted, deadman := true, lastDrive := issued,
                                       pendingAction := None, guardUntil := 0.0)
    {
      target := wanted;
      deadman := true;
      lastDrive := issued;
      pendingAction := None;
      guardUntil := 0.0;
    }

    method Accept(p: Payload, now: real, age: Value) returns (effect: Effect)
      modifies this
      ensures Stepped(State(), effect) == BridgeCore.Accept(old(State()), p, now, age)
    {
      var checked := Validate(cfg, p, age);
      if checked.Err? {
        return Rejected(checked.error);
      }
      var h := checked.value;
      var refused := AcceptSource(h, now);
      if refused.Some? {
        return Rejected(refused.value);
      }
      ghost var known := State();
      if h.kind == InhibitKind {
        effect := AcceptInhibit(p, h, now);
      } else if inhibit.Some? && h.kind != StopKind {
        inhibit := Some(inhibit.value.(violated := true));
        effect := Blocked;
      } else if h.kind == StopKind {
        ForceStop(p.reason);
        RecordCommandAck(h, now);
        effect := Stopped;
      } else if h.kind == ActionKind {
        effect := AcceptAction(p, h, now);
      } else {
        effect := AcceptDrive(p, h, now);
      }
      assert Stepped(State(), effect) == Dispatch(known, p, h, now);
    }

    method Steer(now: real, ready: bool, sofar: seq<SportRequest>) returns (published: seq<SportRequest>)
      modifies this
      ensures BridgeCore.Ticked(State(), published)
              == BridgeCore.Steer(BridgeCore.Ticked(old(State()), sofar), now, ready)
    {
      published := sofar;
      if now < holdUntil {
        return;
      }
      var commandFresh := deadman && now - lastDrive <= cfg.commandTimeout && now - lastReceived <= cfg.sourceTimeout;
      if ready && commandFresh {
        var request := MoveRequest(target);
        published := published + [request];
        moving := IsMotion(target);
        lastRequest := Some(request);
        return;
      }
      if moving || now - lastStop >= 0.50 {
        var request := StopRequest(if ready then CommandWatchdog else TelemetryUnavailable);
        published := published + [request];
        StandStill(request, now);
      }
    }

    method StandStill(request: SportRequest, now: real)
      modifies this
      ensures State() == old(State()).(moving := false, deadman := false, target := ZERO, lastStop := now,
                                       lastRequest := Some(request))
    {
      moving := false;
      deadman := false;
      target := ZERO;
      lastStop := now;
      lastRequest := Some(request);
    }

    method Disarm(now: real, ready: bool)
      modifies this
      ensures State() == BridgeCore.Disarm(old(State()), now, ready)
    {
      if inhibit.Some? && !ready {
        inhibit := Some(inhibit.value.(violated := true));
      }
      if !ready && (deadman || target != ZERO) {
        ForceStop(TelemetryUnavailable);
      }
      if now < holdUntil && !ready {
        ForceStop(TelemetryUnavailableDuringAction);
      }
    }

    method FlushStop(now: real) returns (published: seq<SportRequest>)
      modifies this
      ensures BridgeCore.Ticked(State(), published) == BridgeCore.FlushStop(old(State()), now)
    {
      published := [];
      if pendingStop {
        published := [StopRequest(if lastError == NoReason then PlainStop else lastError)];
        pendingStop := false;
        lastStop := now;
      }
    }

    method Tick(now: real, e: Surroundings) returns (published: seq<SportRequest>)
      modifies this
      ensures BridgeCore.Ticked(State(), published) == BridgeCore.Tick(old(State()), now, e)
    {
      var ready := Ready(cfg, e);
      Disarm(now, ready);
      published := FlushStop(now);
      if pendingAction.Some? {
        var pending := pendingAction.value;
        if !ready {
          pendingAction := None;
          ForceStop(BridgeUnavailableBeforeAction);
        } else if now >= pending.due {
          var request := ActionRequest(pending.action);
          published := published + [request];
          pendingAction := None;
          lastRequest := Some(request);
          return;
        }
      }
      published := Steer(now, ready, published);
    }
  }
}
