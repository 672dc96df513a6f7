/** The navigation job manager as an object: each locked section of start, stop and the monitor
    is one method over the fields the lock guards. */
module NavManager {
  import opened Wire
  import opened NavLifecycle

  class NavigationJobManager {
    var state: Phase
    var pipelineToken: Option<Token>
    var stopRequested: bool
    var closing: bool
    var pgid: Option<Token>
    var jobDir: Option<Token>
    var terminalNotified: Option<Token>

    function State(): Manager
      reads this
    {
      Manager(state, pipelineToken, stopRequested, closing, pgid, jobDir, terminalNotified)
    }

    constructor ()
      ensures State() == NavLifecycle.NEW
    {
      state, pipelineToken, stopRequested, closing := Idle, None, false, false;
      pgid, jobDir, terminalNotified := None, None, None;
    }

    /** The first section of `start`. */
    method AdmitStart(t: Token, ready: bool) returns (r: Result<Token, Refusal>)
      modifies this
      ensures match Admit(old(State()), t, ready)
              case Ok(m) => r == Ok(t) && State() == m
              case Err(e) => r == Err(e) && State() == old(State())
    {
      if closing {
        return Err(ShuttingDown);
      }
      if state == Starting || state == Running || state == Stopping {
        return Err(AlreadyActive);
      }
      if !ready {
        return Err(NotReady);
      }
      pipelineToken, terminalNotified, stopRequested := Some(t), None, false;
      state := Starting;
      return Ok(t);
    }

    /** The section of `start` after the spawn. */
    method RegisterProcess(t: Token) returns (cancelled: bool)
      modifies this
      ensures cancelled <==> Cancelled(old(State()), t)
      ensures State() == if cancelled then old(State()) else Register(old(State()), t)
    {
      if Some(t) != pipelineToken || stopRequested {
        return true;
      }
      pgid, jobDir := Some(t), Some(t);
      return false;
    }

    /** The section of `start` after the grace period. */
    method MarkRunning(t: Token) returns (cancelled: bool)
      modifies this
      ensures cancelled <==> Cancelled(old(State()), t)
      ensures State() == if cancelled then old(State()) else Confirm(old(State()))
    {
      if Some(t) != pipelineToken || stopRequested {
        return true;
      }
      state := Running;
      return false;
    }

    /** The last section of a failed `start`. */
    method SettleFailedStart(t: Token)
      modifies this
      ensures State() == SettleFailure(old(State()), t)
    {
      if pipelineToken == Some(t) {
        pgid, jobDir := None, None;
        state := NavLifecycle.Failed;
      }
    }

    /** The first section of `stop`; it captures what is to be taken down. */
    method EnterStop() returns (acts: bool, group: Option<Token>, dir: Option<Token>)
      modifies this
      ensures acts <==> Stoppable(old(State()))
      ensures State() == if acts then BeginStop(old(State())) else old(State())
      ensures acts ==> group == State().pgid && dir == State().dir
    {
      if state == Idle {
        return false, None, None;
      }
      stopRequested := true;
      state := Stopping;
      return true, pgid, jobDir;
    }

    /** The last section of `stop`. */
    method LeaveStop()
      modifies this
      ensures State() == NavLifecycle.FinishStop(old(State()))
    {
      pgid, jobDir := None, None;
      state := Idle;
    }

    /** The section of a monitor whose leader has exited; `notify` asks for the terminal callback. */
    method WakeMonitor(t: Token) returns (acts: bool, dir: Option<Token>, notify: bool)
      modifies this
      ensures acts <==> !Unconcerned(old(State()), t)
      ensures State() == if acts then TakeOver(old(State()), t) else old(State())
      ensures acts ==> dir == old(State()).dir && (notify <==> old(State()).notified != Some(t))
    {
      if Some(t) != pipelineToken || state == Idle {
        return false, None, false;
      }
      if stopRequested || state == Stopping {
        return false, None, false;
      }
      dir := jobDir;
      pgid, jobDir := None, None;
      state := NavLifecycle.Failed;
      notify := terminalNotified != Some(t);
      terminalNotified := Some(t);
      acts := true;
    }
  }
}
