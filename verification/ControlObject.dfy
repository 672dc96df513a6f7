/** The control manager as the updating object it is in the program, with its queue of
    undrained outputs, proved against `ControlCore`. */
module ControlObject {
  import opened Wire
  import opened SportApi
  import opened ControlCore

  class ControlManager {
    const cfg: Policy
    var closed: bool
    var lease: Option<Lease>
    var drive: Option<Intent>
    var bridgeSeen: Option<real>
    var lowstateSeen: Option<real>
    var estop: bool
    var guardUntil: real
    var velocity: Velocity
    var lastTick: Option<real>
    var motionActive: bool
    var stopEmitted: bool
    var outputs: seq<Envelope>

    ghost function State(): Manager
      reads this
    {
      Manager(cfg, closed, lease, drive, bridgeSeen, lowstateSeen, estop, guardUntil, velocity,
              lastTick, motionActive, stopEmitted)
    }

    constructor (cfg: Policy, startStopped: bool)
      ensures State() == Init(cfg, startStopped) && outputs == []
    {
      this.cfg := cfg;
      closed, estop := false, startStopped;
      lease, drive, bridgeSeen, lowstateSeen, lastTick := None, None, None, None, None;
      guardUntil := 0.0;
      velocity := ZERO;
      motionActive, stopEmitted := false, true;
      outputs := [];
    }

    method EmitStop(cause: StopCause, now: real, force: bool)
      modifies this
      ensures Draft(State(), outputs) == ControlCore.EmitStop(Draft(old(State()), old(outputs)), cause, now, force)
    {
      velocity := ZERO;
      motionActive := false;
      if force || !stopEmitted {
        outputs := outputs + [StopOut(cause, now)];
      }
      stopEmitted := true;
    }

    method Revoke(cause: StopCause, now: real)
      modifies this
      ensures Draft(State(), outputs) == ControlCore.Revoke(Draft(old(State()), old(outputs)), cause, now)
    {
      lease := None;
      drive := None;
      EmitStop(cause, now, true);
    }

    method ExpireIfNeeded(now: real) returns (expired: bool)
      modifies this
      ensures Draft(State(), outputs) == Expire(Draft(old(State()), old(outputs)), now)
      ensures expired == LeaseOver(old(State()), now)
    {
      if lease.None? {
        return false;
      }
      var timeout := if lease.value.binding.None? then cfg.bindWindow else cfg.heartbeat;
      if now - lease.value.heartbeatAt < timeout {
        return false;
      }
      Revoke(LeaseExpired, now);
      return true;
    }

    method ExpireCommandIfNeeded(now: real) returns (expired: bool)
      modifies this
      ensures Draft(State(), outputs) == ExpireCommand(Draft(old(State()), old(outputs)), now)
      ensures expired == CommandOver(old(State()), now)
    {
      if lease.None? || drive.None? || !drive.value.deadman
         || now - drive.value.issued < CommandTimeoutFor(cfg, drive.value.source) {
        return false;
      }
      Revoke(CommandTimeout, now);
      return true;
    }

    method FailClosed(cause: StopCause, now: real)
      modifies this
      ensures Draft(State(), outputs) == ControlCore.FailClosed(Draft(old(State()), old(outputs)), cause, now)
    {
      if lease.Some? || motionActive {
        Revoke(cause, now);
      }
    }

    method IsReady(now: real) returns (ready: bool)
      ensures ready == ReadyAt(State(), now)
    {
      ready := cfg.enabled && !closed
               && bridgeSeen.Some? && now - bridgeSeen.value < cfg.bridgeStale
               && lowstateSeen.Some? && now - lowstateSeen.value < cfg.lowstateStale
               && guardUntil <= now;
    }

    /** The value `RequireLease` starts from an empty draft, the object from its queue. */
    lemma GateFrom(m: Manager, base: seq<Envelope>, now: real)
      ensures var d := ExpireCommand(Expire(Draft(m, []), now), now);
              ExpireCommand(Expire(Draft(m, base), now), now) == Draft(d.m, base + d.out)
    {
    }

    method RequireLease(token: string, now: real, binding: Option<string>, needReady: bool)
      returns (error: Option<ControlError>)
      modifies this
      ensures var g := ControlCore.RequireLease(old(State()), token, now, binding, needReady);
              State() == g.d.m && outputs == old(outputs) + g.d.out && error == g.error
    {
      if closed {
        return Some(Closed);
      }
      if !cfg.enabled {
        return Some(Disabled);
      }
      var leaseOver := ExpireIfNeeded(now);
      var commandOver := ExpireCommandIfNeeded(now);
      GateFrom(old(State()), old(outputs), now);
      if lease.None? || lease.value.token != token {
        return Some(InvalidLease);
      }
      if binding.Some? && lease.value.binding != binding {
        return Some(BindingMismatch);
      }
      var ready := IsReady(now);
      if needReady && !ready {
        FailClosed(ReadinessStale, now);
        return Some(NotReady);
      }
      return None;
    }

    method AcquireLease(source: Option<InputSource>, token: string, now: real) returns (reply: Reply)
      modifies this
      ensures var o := Acquire(old(State()), source, token, now);
              State() == o.m && reply == o.reply && outputs == old(outputs) + o.out
    {
      if closed {
        return Refused(Closed);
      }
      if !cfg.enabled {
        return Refused(Disabled);
      }
      var leaseOver := ExpireIfNeeded(now);
      if estop {
        return Refused(StopLatched);
      }
      var ready := IsReady(now);
      if guardUntil > now || !ready {
        return Refused(NotReady);
      }
      if source.None? {
        return Refused(BadCommand);
      }
      if lease.Some? {
        return Refused(Busy);
      }
      if |token| < 16 {
        return Refused(UnsafeToken);
      }
      lease := Some(Lease(token, source.value, None, now, -1));
      return Done;
    }

    method BindLease(token: string, binding: string, now: real) returns (reply: Reply)
      modifies this
      ensures var o := Bind(old(State()), token, binding, now);
              State() == o.m && reply == o.reply && outputs == old(outputs) + o.out
    {
      var error := RequireLease(token, now, None, true);
      if error.Some? {
        return Refused(error.value);
      }
      if binding == "" || |binding| > 256 {
        return Refused(BindingMismatch);
      }
      if lease.value.binding.None? {
        lease := Some(lease.value.(binding := Some(binding), heartbeatAt := now));
      } else if lease.value.binding.value != binding {
        return Refused(BindingMismatch);
      }
      return Done;
    }

    method Heartbeat(token: string, binding: string, serial: Value, now: real) returns (reply: Reply)
      modifies this
      ensures var o := ControlCore.Heartbeat(old(State()), token, binding, serial, now);
              State() == o.m && reply == o.reply && outputs == old(outputs) + o.out
    {
      var error := RequireLease(token, now, Some(binding), true);
      if error.Some? {
        return Refused(error.value);
      }
      if !NextInOrder(lease.value, serial) {
        return Refused(BadSequence);
      }
      lease := Some(lease.value.(lastSeq := serial.whole, heartbeatAt := now));
      return Done;
    }

    method ReleaseLease(token: string, binding: Option<string>, now: real) returns (reply: Reply)
      modifies this
      ensures var o := Release(old(State()), token, binding, now);
              State() == o.m && reply == o.reply && outputs == old(outputs) + o.out
    {
      var error := RequireLease(token, now, binding, false);
      if error.Some? {
        return Refused(error.value);
      }
      Revoke(LeaseReleased, now);
      return Done;
    }

    method SubmitDrive(token: string, binding: string, serial: Value, r: DriveRequest, now: real)
      returns (reply: Reply)
      modifies this
      ensures var o := ControlCore.SubmitDrive(old(State()), token, binding, serial, r, now);
              State() == o.m && reply == o.reply && outputs == old(outputs) + o.out
    {
      if estop {
        return Refused(StopLatched);
      }
      var error := RequireLease(token, now, Some(binding), true);
      if error.Some? {
        return Refused(error.value);
      }
      var parsed := ParseDrive(cfg, lease.value.source, r);
      if parsed.None? {
        return Refused(BadCommand);
      }
      if !NextInOrder(lease.value, serial) {
        return Refused(BadSequence);
      }
      var p := parsed.value;
      drive := Some(Intent(serial.whole, now - p.age, p.deadman, p.target, lease.value.source));
      lease := Some(lease.value.(lastSeq := serial.whole));
      if !p.deadman {
        EmitStop(DeadmanWasReleased, now, true);
      }
      return Done;
    }

    method RequestAction(token: string, binding: string, serial: Value, action: Option<Action>,
                         confirm: bool, now: real) returns (reply: Reply)
      modifies this
      ensures var o := ControlCore.RequestAction(old(State()), token, binding, serial, action, confirm, now);
              State() == o.m && reply == o.reply && outputs == old(outputs) + o.out
    {
      if estop {
        return Refused(StopLatched);
      }
      var error := RequireLease(token, now, Some(binding), true);
      if error.Some? {
        return Refused(error.value);
      }
      if motionActive || (drive.Some? && drive.value.deadman) {
        return Refused(BadCommand);
      }
      if action.None? || action.value !in cfg.allowed || !confirm {
        return Refused(BadCommand);
      }
      if !NextInOrder(lease.value, serial) {
        return Refused(BadSequence);
      }
      drive := None;
      EmitStop(ActionPrepare, now, true);
      outputs := outputs + [ActionOut(action.value, serial.whole, now)];
      lease := None;
      guardUntil := now + GuardSeconds(action.value);
      return Done;
    }

    method EmergencyStop(now: real) returns (reply: Reply)
      modifies this
      ensures var o := ControlCore.EmergencyStop(old(State()), now);
              State() == o.m && reply == o.reply && outputs == old(outputs) + o.out
    {
      if closed {
        return Refused(Closed);
      }
      estop := true;
      guardUntil := 0.0;
      Revoke(EmergencyStopped, now);
      return Done;
    }

    method Snapshot(now: real) returns (reply: Reply)
      modifies this
      ensures var o := ControlCore.Snapshot(old(State()), now);
              State() == o.m && reply == o.reply && outputs == old(outputs) + o.out
    {
      var leaseOver := ExpireIfNeeded(now);
      var commandOver := ExpireCommandIfNeeded(now);
      GateFrom(old(State()), old(outputs), now);
      return Done;
    }

    method ClearEmergencyStop(confirm: bool, now: real) returns (reply: Reply)
      modifies this
      ensures var o := ControlCore.ClearEmergencyStop(old(State()), confirm, now);
              State() == o.m && reply == o.reply && outputs == old(outputs) + o.out
    {
      if closed {
        return Refused(Closed);
      }
      if !cfg.enabled {
        return Refused(Disabled);
      }
      if !estop {
        reply := Snapshot(now);
        return;
      }
      if !confirm {
        return Refused(BadCommand);
      }
      var ready := IsReady(now);
      if !ready {
        return Refused(NotReady);
      }
      estop := false;
      lease := None;
      drive := None;
      return Done;
    }

    method Observe(bridge: Option<bool>, lowstate: Option<bool>, cause: StopCause, now: real) returns (reply: Reply)
      modifies this
      ensures var o := ControlCore.Observe(old(State()), bridge, lowstate, cause, now);
              State() == o.m && reply == o.reply && outputs == old(outputs) + o.out
    {
      if closed {
        return Refused(Closed);
      }
      Note(bridge, lowstate, now);
      if bridge == Some(false) || lowstate == Some(false) {
        FailFrom(State(), outputs, cause, now);
        FailClosed(cause, now);
      }
      return Done;
    }

    lemma FailFrom(m: Manager, base: seq<Envelope>, cause: StopCause, now: real)
      ensures var d := ControlCore.FailClosed(Draft(m, []), cause, now);
              ControlCore.FailClosed(Draft(m, base), cause, now) == Draft(d.m, base + d.out)
    {
    }

    method Note(bridge: Option<bool>, lowstate: Option<bool>, now: real)
      modifies this`bridgeSeen, this`lowstateSeen
      ensures bridgeSeen == NoteSeen(old(bridgeSeen), bridge, now)
      ensures lowstateSeen == NoteSeen(old(lowstateSeen), lowstate, now)
    {
      if bridge.Some? {
        bridgeSeen := if bridge.value then Some(now) else None;
      }
      if lowstate.Some? {
        lowstateSeen := if lowstate.value then Some(now) else None;
      }
    }

    method Close(now: real)
      modifies this
      ensures var o := ControlCore.Close(old(State()), now);
              State() == o.m && outputs == old(outputs) + o.out
    {
      if closed {
        return;
      }
      guardUntil := 0.0;
      Revoke(ManagerClosed, now);
      closed := true;
    }

    method DrainOutputs() returns (result: seq<Envelope>)
      modifies this`outputs
      ensures result == old(outputs) && outputs == []
    {
      result := outputs;
      outputs := [];
    }

    /** One timer step, then the whole queue: what earlier calls left, and what this one added. */
    method Tick(now: real) returns (reply: Reply, result: seq<Envelope>)
      modifies this
      ensures var o := ControlCore.Tick(old(State()), now);
              && State() == o.m && reply == o.reply
              && (reply == Done ==> result == old(outputs) + o.out && outputs == [])
              && (reply != Done ==> result == [] && outputs == old(outputs))
    {
      if closed {
        return Refused(Closed), [];
      }
      Advance(now);
      reply := Done;
      result := DrainOutputs();
    }

    method Advance(now: real)
      requires !closed
      modifies this
      ensures var o := ControlCore.Tick(old(State()), now);
              State() == o.m && outputs == old(outputs) + o.out
    {
      var elapsed := Elapsed(lastTick, now);
      lastTick := Some(now);
      var leaseOver := ExpireIfNeeded(now);
      if leaseOver {
        return;
      }
      var ready := IsReady(now);
      if lease.Some? && !ready {
        FailClosed(ReadinessStale, now);
        return;
      }
      if estop {
        EmitStop(EmergencyStopped, now, false);
        return;
      }
      if lease.None? || drive.None? {
        return;
      }
      if !drive.value.deadman {
        EmitStop(DeadmanWasReleased, now, false);
        return;
      }
      var commandOver := ExpireCommandIfNeeded(now);
      if commandOver {
        return;
      }
      Move(Reach(cfg, elapsed), now);
    }

    method Move(reach: Velocity, now: real)
      requires drive.Some?
      modifies this`velocity, this`motionActive, this`stopEmitted, this`outputs
      ensures var o := ControlCore.Move(old(State()), reach, now);
              State() == o.m && outputs == old(outputs) + o.out
    {
      velocity := SlewVelocity(velocity, drive.value.target, reach);
      motionActive := IsActive(velocity);
      stopEmitted := !motionActive;
      outputs := outputs + [DriveOut(drive.value.serial, drive.value.source, velocity, now)];
    }
  }
}
