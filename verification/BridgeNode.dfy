/** The ROS node around the watchdog: refused commands and a failed status transport stop the
    robot, every request a tick publishes is recorded, and closing publishes three stops and
    silences the rest. */
module BridgeNode {
  import opened Wire
  import opened SportApi
  import opened BridgeCore
  import BridgeObject
  import BridgeRuns
  import BridgeTheorems
  import opened RequestEvidence

  const STATUS_PERIOD := 0.25

  /** The node as a value: its watchdog, everything it has published, and its status cycle. */
  datatype Node = Node(core: Bridge, closing: bool, published: seq<SportRequest>,
                       statusDue: bool, lastStatus: real, statusDown: bool)

  /** What a command callback leaves of the watchdog: `None` is a message that did not decode. */
  function Accepted(s: Bridge, p: Option<Payload>, now: real, age: Value): Bridge {
    match p
    case None => ForceStop(s, UndecodableCommand)
    case Some(payload) =>
      var r := Accept(s, payload, now, age);
      match r.effect
      case Rejected(e) => ForceStop(r.state, RejectedCommand(e))
      case Blocked => ForceStop(r.state, RejectedCommand(BlockedByInhibit))
      case _ => r.state
  }

  predicate TakesEffect(s: Bridge, p: Option<Payload>, now: real, age: Value) {
    p.Some? && var effect := Accept(s, p.value, now, age).effect; !effect.Rejected? && !effect.Blocked?
  }

  /** A command asks for an early status exactly when it is not refused. */
  function Hear(n: Node, p: Option<Payload>, now: real, age: Value): Node {
    if n.closing then n
    else n.(core := Accepted(n.core, p, now, age), statusDue := n.statusDue || TakesEffect(n.core, p, now, age))
  }

  predicate StatusDue(n: Node, now: real) {
    n.statusDue || now - n.lastStatus >= STATUS_PERIOD
  }

  /** The status, when it is due; `sends` says whether its transport works. */
  function TellStatus(n: Node, now: real, sends: bool): Node {
    if !StatusDue(n, now) then n
    else
      n.(core := if sends then n.core else ForceStop(n.core, StatusTransportFailed),
         statusDue := false, lastStatus := now, statusDown := !sends)
  }

  /** One timer step: the watchdog, then the status. */
  function TickNode(n: Node, now: real, e: Surroundings, sends: bool): Node {
    if n.closing then n
    else
      var t := BridgeCore.Tick(n.core, now, e);
      TellStatus(n.(core := t.state, published := n.published + t.published), now, sends)
  }

  function Farewell(): seq<SportRequest> {
    [StopRequest(BridgeShutdown), StopRequest(BridgeShutdown), StopRequest(BridgeShutdown)]
  }

  function StopNode(n: Node): Node {
    if n.closing then n
    else n.(core := ForceStop(n.core, BridgeShutdown), closing := true, published := n.published + Farewell())
  }

  // ----- what a run of the watchdog publishes -----------------------------------------

  /** Everything the ticks of a run publish, in order. */
  function Published(log: seq<BridgeRuns.Entry>): seq<SportRequest> {
    if log == [] then []
    else
      Published(log[..|log| - 1])
      + if log[|log| - 1].Pulsed? then log[|log| - 1].published else []
  }

  predicate Later(events: seq<BridgeRuns.Event>, now: real) {
    0.0 <= now && forall i :: 0 <= i < |events| ==> events[i].at <= now
  }

  /** A node whose watchdog is where a run of these events leads, and which has published what
      that run publishes, and its farewell once it is closing. */
  ghost predicate Runs(c: Settings, n: Node, events: seq<BridgeRuns.Event>) {
    BridgeRuns.Timed(events) && StandsAt(n, BridgeRuns.Run(c, events))
  }

  predicate StandsAt(n: Node, w: BridgeRuns.World) {
    n.core == w.core && n.published == Published(w.log) + if n.closing then Farewell() else []
  }

  lemma StepStands(n: Node, w: BridgeRuns.World, v: BridgeRuns.World, x: BridgeRuns.Entry)
    requires StandsAt(n, w) && !n.closing && v.log == w.log + [x]
    ensures StandsAt(n.(core := v.core, published := n.published + if x.Pulsed? then x.published else []), v)
  {
    PublishedGrows(w.log, x);
  }

  lemma TimedGrows(events: seq<BridgeRuns.Event>, e: BridgeRuns.Event)
    requires BridgeRuns.Timed(events) && Later(events, e.at)
    ensures BridgeRuns.Timed(events + [e]) && Later(events + [e], e.at)
  {}

  lemma RunGrows(c: Settings, events: seq<BridgeRuns.Event>, e: BridgeRuns.Event)
    ensures BridgeRuns.Run(c, events + [e]) == BridgeRuns.Apply(BridgeRuns.Run(c, events), e)
  {
    assert (events + [e])[..|events|] == events;
  }

  lemma PublishedGrows(log: seq<BridgeRuns.Entry>, x: BridgeRuns.Entry)
    ensures Published(log + [x]) == Published(log) + if x.Pulsed? then x.published else []
  {
    assert (log + [x])[..|log|] == log;
  }

  /** A command or a forced stop, and the watchdog it leaves. */
  lemma QuietEvent(c: Settings, n: Node, events: seq<BridgeRuns.Event>, e: BridgeRuns.Event, after: Bridge)
    requires Runs(c, n, events) && Later(events, e.at) && !e.Pulse? && !n.closing
    requires after == BridgeRuns.Apply(BridgeRuns.World(n.core, []), e).core
    ensures Runs(c, n.(core := after), events + [e]) && Later(events + [e], e.at)
  {
    var w := BridgeRuns.Run(c, events);
    TimedGrows(events, e);
    RunGrows(c, events, e);
    var v := BridgeRuns.Apply(w, e);
    StepStands(n, w, v, v.log[|w.log|]);
    assert n.published + [] == n.published;
  }

  lemma PulseEvent(c: Settings, n: Node, events: seq<BridgeRuns.Event>, now: real, e: Surroundings, t: Ticked)
    requires Runs(c, n, events) && Later(events, now) && !n.closing && t == BridgeCore.Tick(n.core, now, e)
    ensures Runs(c, n.(core := t.state, published := n.published + t.published), events + [BridgeRuns.Pulse(now, e)])
    ensures Later(events + [BridgeRuns.Pulse(now, e)], now)
  {
    var w, pulse := BridgeRuns.Run(c, events), BridgeRuns.Pulse(now, e);
    TimedGrows(events, pulse);
    RunGrows(c, events, pulse);
    PulseStep(n, w, now, e, t);
  }

  lemma PulseStep(n: Node, w: BridgeRuns.World, now: real, e: Surroundings, t: Ticked)
    requires StandsAt(n, w) && !n.closing && t == BridgeCore.Tick(n.core, now, e)
    ensures StandsAt(n.(core := t.state, published := n.published + t.published),
                     BridgeRuns.Apply(w, BridgeRuns.Pulse(now, e)))
  {
    var v := BridgeRuns.Apply(w, BridgeRuns.Pulse(now, e));
    StepStands(n, w, v, v.log[|w.log|]);
  }

  /** What a command callback adds to the events. */
  function HeardEvents(s: Bridge, p: Option<Payload>, now: real, age: Value): seq<BridgeRuns.Event> {
    match p
    case None => [BridgeRuns.Force(now, UndecodableCommand)]
    case Some(payload) =>
      var receive := BridgeRuns.Receive(now, payload, age);
      match Accept(s, payload, now, age).effect
      case Rejected(e) => [receive, BridgeRuns.Force(now, RejectedCommand(e))]
      case Blocked => [receive, BridgeRuns.Force(now, RejectedCommand(BlockedByInhibit))]
      case _ => [receive]
  }

  lemma ForceEvent(c: Settings, n: Node, events: seq<BridgeRuns.Event>, now: real, reason: Reason)
    requires Runs(c, n, events) && Later(events, now) && !n.closing
    ensures Runs(c, n.(core := ForceStop(n.core, reason)), events + [BridgeRuns.Force(now, reason)])
    ensures Later(events + [BridgeRuns.Force(now, reason)], now)
  {
    QuietEvent(c, n, events, BridgeRuns.Force(now, reason), ForceStop(n.core, reason));
  }

  lemma ReceiveEvent(c: Settings, n: Node, events: seq<BridgeRuns.Event>, p: Payload, now: real, age: Value, r: Stepped)
    requires Runs(c, n, events) && Later(events, now) && !n.closing && r == Accept(n.core, p, now, age)
    ensures Runs(c, n.(core := r.state), events + [BridgeRuns.Receive(now, p, age)])
    ensures Later(events + [BridgeRuns.Receive(now, p, age)], now)
  {
    QuietEvent(c, n, events, BridgeRuns.Receive(now, p, age), r.state);
  }

  /** A status flag does not touch the run. */
  lemma StatusIsApart(c: Settings, n: Node, m: Node, events: seq<BridgeRuns.Event>)
    requires Runs(c, n, events) && m.core == n.core && m.published == n.published && m.closing == n.closing
    ensures Runs(c, m, events)
  {}

  lemma RefusalRuns(c: Settings, n: Node, events: seq<BridgeRuns.Event>, p: Payload, now: real, age: Value,
                    r: Stepped, error: CommandError)
    requires Runs(c, n, events) && Later(events, now) && !n.closing && r == Accept(n.core, p, now, age)
    ensures var grown := events + [BridgeRuns.Receive(now, p, age), BridgeRuns.Force(now, RejectedCommand(error))];
            Runs(c, n.(core := ForceStop(r.state, RejectedCommand(error))), grown) && Later(grown, now)
  {
    var receive, force := BridgeRuns.Receive(now, p, age), BridgeRuns.Force(now, RejectedCommand(error));
    ReceiveEvent(c, n, events, p, now, age, r);
    ForceEvent(c, n.(core := r.state), events + [receive], now, RejectedCommand(error));
    assert events + [receive] + [force] == events + [receive, force];
  }

  /** A command callback keeps the node on a run of its watchdog. */
  lemma HearRuns(c: Settings, n: Node, events: seq<BridgeRuns.Event>, p: Option<Payload>, now: real, age: Value)
    requires Runs(c, n, events) && Later(events, now) && !n.closing
    ensures var grown := events + HeardEvents(n.core, p, now, age);
            Runs(c, Hear(n, p, now, age), grown) && Later(grown, now)
  {
    match p
    case None => ForceEvent(c, n, events, now, UndecodableCommand);
    case Some(payload) =>
      var r := Accept(n.core, payload, now, age);
      match r.effect {
        case Rejected(e) => RefusalRuns(c, n, events, payload, now, age, r, e);
        case Blocked => RefusalRuns(c, n, events, payload, now, age, r, BlockedByInhibit);
        case _ =>
          ReceiveEvent(c, n, events, payload, now, age, r);
          var grown := events + [BridgeRuns.Receive(now, payload, age)];
          StatusIsApart(c, n.(core := r.state), Hear(n, p, now, age), grown);
      }
  }

  function TickedEvents(n: Node, now: real, e: Surroundings, sends: bool): seq<BridgeRuns.Event> {
    [BridgeRuns.Pulse(now, e)]
    + if StatusDue(n, now) && !sends then [BridgeRuns.Force(now, StatusTransportFailed)] else []
  }

  /** And so does a timer step. */
  lemma TickRuns(c: Settings, n: Node, events: seq<BridgeRuns.Event>, now: real, e: Surroundings, sends: bool)
    requires Runs(c, n, events) && Later(events, now) && !n.closing
    ensures var grown := events + TickedEvents(n, now, e, sends);
            Runs(c, TickNode(n, now, e, sends), grown) && Later(grown, now)
  {
    var t, pulsed := BridgeCore.Tick(n.core, now, e), events + [BridgeRuns.Pulse(now, e)];
    var ticked := n.(core := t.state, published := n.published + t.published);
    PulseEvent(c, n, events, now, e, t);
    if StatusDue(n, now) && !sends {
      ForceEvent(c, ticked, pulsed, now, StatusTransportFailed);
      var grown := pulsed + [BridgeRuns.Force(now, StatusTransportFailed)];
      assert grown == events + TickedEvents(n, now, e, sends);
      StatusIsApart(c, ticked.(core := ForceStop(t.state, StatusTransportFailed)), TickNode(n, now, e, sends), grown);
    } else {
      assert pulsed == events + TickedEvents(n, now, e, sends);
      StatusIsApart(c, ticked, TickNode(n, now, e, sends), pulsed);
    }
  }

  lemma StopRuns(c: Settings, n: Node, events: seq<BridgeRuns.Event>, now: real)
    requires Runs(c, n, events) && Later(events, now) && !n.closing
    ensures var grown := events + [BridgeRuns.Force(now, BridgeShutdown)];
            Runs(c, StopNode(n), grown) && Later(grown, now)
  {
    ForceEvent(c, n, events, now, BridgeShutdown);
  }

  // ----- the node as an object --------------------------------------------------------

  class Go2ControlBridge {
    const core: BridgeObject.Go2BridgeCore
    const evidence: SportRequestEvidence
    var closing: bool
    var statusUpdateRequested: bool
    var lastStatus: real
    var statusTransportFailed: bool
    /** Everything that has happened to the watchdog. */
    ghost var events: seq<BridgeRuns.Event>

    ghost function State(): Node
      reads this, core, evidence
    {
      Node(core.State(), closing, evidence.history, statusUpdateRequested, lastStatus, statusTransportFailed)
    }

    /** The monitor reports the published history, and that history is a run's. */
    ghost predicate Valid()
      reads this, core, evidence
    {
      evidence.Valid() && Runs(core.cfg, State(), events)
    }

    constructor (cfg: Settings)
      ensures fresh(core) && fresh(evidence) && Valid() && events == [] && core.cfg == cfg
      ensures State() == Node(Init(cfg), false, [], false, 0.0, false)
    {
      core := new BridgeObject.Go2BridgeCore(cfg);
      evidence := new SportRequestEvidence();
      closing, statusUpdateRequested, lastStatus, statusTransportFailed := false, false, 0.0, false;
      events := [];
    }

    /** What has just happened to the watchdog is noted. */
    ghost method Happen(n: Node, more: seq<BridgeRuns.Event>, now: real)
      requires evidence.Valid() && State() == n
      requires Runs(core.cfg, n, events + more) && Later(events + more, now)
      modifies this`events
      ensures Valid() && Later(events, now) && events == old(events) + more
    {
      events := events + more;
    }

    method AcceptCommand(p: Option<Payload>, now: real, age: Value)
      requires !closing
      modifies this`statusUpdateRequested, core
      ensures State() == Hear(old(State()), p, now, age)
    {
      if p.None? {
        core.ForceStop(UndecodableCommand);
        return;
      }
      var effect := core.Accept(p.value, now, age);
      match effect {
        case Rejected(e) => core.ForceStop(RejectedCommand(e));
        case Blocked => core.ForceStop(RejectedCommand(BlockedByInhibit));
        case _ => statusUpdateRequested := true;
      }
    }

    method CommandCallback(p: Option<Payload>, now: real, age: Value)
      requires Valid() && Later(events, now)
      modifies this`statusUpdateRequested, this`events, core
      ensures Valid() && Later(events, now)
      ensures State() == Hear(old(State()), p, now, age)
      ensures events == old(events) + if closing then [] else HeardEvents(old(core.State()), p, now, age)
    {
      if closing {
        return;
      }
      ghost var n, more := State(), HeardEvents(core.State(), p, now, age);
      HearRuns(core.cfg, n, events, p, now, age);
      AcceptCommand(p, now, age);
      Happen(Hear(n, p, now, age), more, now);
    }

    method PublishRequest(request: SportRequest, now: real)
      requires evidence.Valid()
      modifies evidence
      ensures evidence.Valid() && evidence.history == old(evidence.history) + [request]
    {
      evidence.Record(request, now);
    }

    method PublishAll(requests: seq<SportRequest>, now: real)
      requires evidence.Valid()
      modifies evidence
      ensures evidence.Valid() && evidence.history == old(evidence.history) + requests
    {
      for i := 0 to |requests|
        invariant evidence.Valid() && evidence.history == old(evidence.history) + requests[..i]
      {
        PublishRequest(requests[i], now);
        assert requests[..i + 1] == requests[..i] + [requests[i]];
      }
      assert requests[..|requests|] == requests;
    }

    /** The watchdog's tick, published and recorded. */
    method TickCore(now: real, e: Surroundings) returns (published: seq<SportRequest>)
      requires evidence.Valid()
      modifies core, evidence
      ensures evidence.Valid() && evidence.history == old(evidence.history) + published
      ensures Ticked(core.State(), published) == BridgeCore.Tick(old(core.State()), now, e)
    {
      published := core.Tick(now, e);
      PublishAll(published, now);
    }

    method PublishStatus(now: real, sends: bool)
      modifies this`statusUpdateRequested, this`lastStatus, this`statusTransportFailed, core
      ensures State() == TellStatus(old(State()), now, sends)
    {
      if statusUpdateRequested || now - lastStatus >= STATUS_PERIOD {
        if !sends {
          core.ForceStop(StatusTransportFailed);
        }
        statusTransportFailed := !sends;
        lastStatus := now;
        statusUpdateRequested := false;
      }
    }

    /** One timer step: the watchdog, then the status when it is due. */
    method TickLocked(now: real, e: Surroundings, sends: bool) returns (published: seq<SportRequest>)
      requires evidence.Valid() && !closing
      modifies this`statusUpdateRequested, this`lastStatus, this`statusTransportFailed, core, evidence
      ensures evidence.Valid() && State() == TickNode(old(State()), now, e, sends)
      ensures published == BridgeCore.Tick(old(core.State()), now, e).published
    {
      published := TickCore(now, e);
      PublishStatus(now, sends);
    }

    method Tick(now: real, e: Surroundings, sends: bool) returns (published: seq<SportRequest>)
      requires Valid() && Later(events, now)
      modifies this`statusUpdateRequested, this`lastStatus, this`statusTransportFailed, this`events, core, evidence
      ensures Valid() && Later(events, now)
      ensures State() == TickNode(old(State()), now, e, sends)
      ensures events == old(events) + if closing then [] else TickedEvents(old(State()), now, e, sends)
      ensures published == if closing then [] else BridgeCore.Tick(old(core.State()), now, e).published
    {
      if closing {
        return [];
      }
      ghost var n, more := State(), TickedEvents(State(), now, e, sends);
      TickRuns(core.cfg, n, events, now, e, sends);
      published := TickLocked(now, e, sends);
      Happen(TickNode(n, now, e, sends), more, now);
    }

    method SayFarewell(now: real)
      requires evidence.Valid()
      modifies this`closing, core, evidence
      ensures evidence.Valid() && State() == StopNode(old(State()))
    {
      if closing {
        return;
      }
      closing := true;
      core.ForceStop(BridgeShutdown);
      PublishAll(Farewell(), now);
    }

    method StopSafely(now: real)
      requires Valid() && Later(events, now)
      modifies this`closing, this`events, core, evidence
      ensures Valid() && Later(events, now) && State() == StopNode(old(State()))
      ensures events == old(events) + if old(closing) then [] else [BridgeRuns.Force(now, BridgeShutdown)]
    {
      if closing {
        return;
      }
      ghost var n := State();
      StopRuns(core.cfg, n, events, now);
      SayFarewell(now);
      Happen(StopNode(n), [BridgeRuns.Force(now, BridgeShutdown)], now);
    }
  }

  // ----- what the run theorems say of a node --------------------------------------------

  /** Every movement a node's timer step publishes is justified by everything that has happened
      to the node before. */
  lemma NodeMovesAreJustified(c: Settings, n: Node, events: seq<BridgeRuns.Event>, now: real, e: Surroundings, k: nat)
    requires Runs(c, n, events) && Later(events, now) && !n.closing
    requires var published := BridgeCore.Tick(n.core, now, e).published;
             k < |published| && BridgeRuns.IsMove(published[k])
    ensures var log := BridgeRuns.Run(c, events).log;
            && BridgeRuns.ArmedBy(log).Some? && Ready(c, e)
            && var drive := BridgeRuns.ArmedBy(log).value;
               && BridgeCore.Tick(n.core, now, e).published[k] == MoveRequest(drive.target)
               && WithinLimits(c, drive.target) && now - drive.issued <= c.commandTimeout
  {
    var pulse := BridgeRuns.Pulse(now, e);
    var grown := events + [pulse];
    TimedGrows(events, pulse);
    RunGrows(c, events, pulse);
    var w, log := BridgeRuns.Run(c, events), BridgeRuns.Run(c, grown).log;
    BridgeTheorems.RunKeepsSettings(c, events);
    assert log[..|w.log|] == w.log && log[|w.log|].published == BridgeCore.Tick(n.core, now, e).published;
    BridgeTheorems.MoveIsJustified(c, log, |w.log|, k);
  }

  ghost predicate WellMade(c: Settings, r: SportRequest) {
    && !Classify(r).MalformedMove? && !Classify(r).OtherClass?
    && (BridgeRuns.IsMove(r) ==> exists v :: r == MoveRequest(v) && WithinLimits(c, v))
  }

  lemma MoveIsWellMade(c: Settings, v: Velocity)
    requires WithinLimits(c, v)
    ensures WellMade(c, MoveRequest(v))
  {
  }

  lemma StepIsWellMade(c: Settings, w: BridgeRuns.World, v: BridgeRuns.World, k: nat)
    requires BridgeRuns.Inv(w) && BridgeRuns.Step(w, v) && w.core.cfg == c
    requires v.log[|w.log|].Pulsed? && k < |v.log[|w.log|].published|
    ensures WellMade(c, v.log[|w.log|].published[k])
  {
    var e := v.log[|w.log|];
    var r := e.published[k];
    if BridgeRuns.IsMove(r) {
      BridgeTheorems.MoveStep(w, v, k);
      MoveIsWellMade(c, BridgeRuns.ArmedBy(v.log[..|w.log|]).value.target);
    } else if !BridgeRuns.IsStop(r) {
      ActionIsKnown(w, v, k);
    }
  }

  lemma ActionIsKnown(w: BridgeRuns.World, v: BridgeRuns.World, k: nat)
    requires BridgeRuns.Step(w, v)
    requires var e := v.log[|w.log|]; e.Pulsed? && k < |e.published| && BridgeRuns.IsAction(e.published[k])
    ensures IsActionId(v.log[|w.log|].published[k].apiId)
  {
    var e := v.log[|w.log|];
    assert e.published[k] in e.published;
    if e.ready {
      var owed := if w.core.pendingStop then 1 else 0;
      assert k >= owed;
      assert e.published[k] == e.published[owed..][k - owed];
    }
  }

  lemma {:induction false} PublishedIsWellMade(c: Settings, log: seq<BridgeRuns.Entry>, n: nat)
    requires BridgeTheorems.IsLog(c, log) && n <= |log|
    ensures forall r | r in Published(log[..n]) :: WellMade(c, r)
  {
    if n > 0 {
      PublishedIsWellMade(c, log, n - 1);
      assert log[..n][..n - 1] == log[..n - 1];
      var w, v := BridgeTheorems.StepAt(c, log, n - 1);
      assert v.log[n - 1] == log[n - 1];
      if log[n - 1].Pulsed? {
        forall r | r in log[n - 1].published ensures WellMade(c, r) {
          var k :| 0 <= k < |log[n - 1].published| && log[n - 1].published[k] == r;
          StepIsWellMade(c, w, v, k);
        }
      }
    }
  }

  lemma {:induction false} WellMadeReport(c: Settings, history: seq<SportRequest>)
    requires forall r | r in history :: WellMade(c, r)
    ensures Count(history, MalformedMove) == 0 && Count(history, OtherClass) == 0
    ensures Peak(history).x <= c.maxX && Peak(history).y <= c.maxY && Peak(history).z <= c.maxZ
  {
    if history != [] {
      var n := |history| - 1;
      WellMadeReport(c, history[..n]);
      assert WellMade(c, history[n]);
    }
  }

  /** Fed by any run of the watchdog, the monitor never counts a malformed movement or an
      unknown request, and its maxima stay within the configured, hence the hard, limits. */
  lemma WatchdogFeedsCleanEvidence(c: Settings, log: seq<BridgeRuns.Entry>)
    requires BridgeTheorems.IsLog(c, log)
    ensures var p := Reference(Published(log));
            && p.malformedMoves == 0 && p.others == 0
            && p.peak.x <= c.maxX <= HARD_MAX_LINEAR_X
            && p.peak.y <= c.maxY <= HARD_MAX_LINEAR_Y
            && p.peak.z <= c.maxZ <= HARD_MAX_ANGULAR_Z
  {
    assert log[..|log|] == log;
    PublishedIsWellMade(c, log, |log|);
    WellMadeReport(c, Published(log));
  }
}
