/** Dashboard, channel and bridge together. The dashboard's transport stamps envelopes in
    output order; the channel may delay, drop, duplicate and reorder them; the bridge node
    hands the decoded ones to its watchdog and forces a stop on every one it refuses. Both
    ends read one clock. */
module ControlLink {
  import opened Wire
  import opened SportApi
  import CC = ControlCore
  import C = ControlRuns
  import BC = BridgeCore
  import B = BridgeRuns
  import BridgeAdmission
  import BridgeTheorems
  import BridgeNode

  const MAX_SIGNED_AGE_S := 1.5

  datatype Link = Link(policy: CC.Policy, settings: BC.Settings, epoch: string, source: string)

  /** An envelope waiting to be sent, with the dashboard log entry it came from. */
  datatype Outgoing = Outgoing(envelope: CC.Envelope, origin: nat)

  datatype Message = Message(envelope: CC.Envelope, origin: nat, serial: int, issued: real)

  datatype Entry =
    | Told
    | Lost
    | Delivered(k: nat, effect: BC.Effect)
    | Faulted
    | Ticked(at: real, published: seq<SportRequest>)
    | ShutDown(published: seq<SportRequest>)

  datatype System = System(
    now: real,
    dash: C.World, queue: seq<Outgoing>, sent: seq<Message>,
    bridge: B.World, closing: bool, log: seq<Entry>)

  datatype Event =
    | Dashboard(call: C.Call)
    | Flush(at: real)
    | Deliver(at: real, k: nat)
    | Fault(at: real, reason: Reason)
    | Pulse(at: real, surroundings: BC.Surroundings)
    | Shutdown(at: real)

  function At(e: Event): real {
    match e
    case Dashboard(call) => call.at
    case Flush(at) => at
    case Deliver(at, _) => at
    case Fault(at, _) => at
    case Pulse(at, _) => at
    case Shutdown(at) => at
  }

  function Init(l: Link, startStopped: bool): System {
    System(0.0, C.World(CC.Init(l.policy, startStopped), []), [], [],
           B.World(BC.Init(l.settings), []), false, [])
  }

  // ----- the transport ----------------------------------------------------------------

  /** `issued_at_ms`: the send time cut to whole milliseconds. */
  function IssuedAt(now: real): (issued: real)
    ensures issued <= now
  {
    (now * 1000.0).Floor as real / 1000.0
  }

  function Stamp(queue: seq<Outgoing>, serial: int, now: real): (sent: seq<Message>)
    ensures |sent| == |queue|
    ensures forall m | 0 <= m < |sent| ::
              sent[m] == Message(queue[m].envelope, queue[m].origin, serial + m + 1, IssuedAt(now))
  {
    if queue == [] then []
    else [Message(queue[0].envelope, queue[0].origin, serial + 1, IssuedAt(now))] + Stamp(queue[1..], serial + 1, now)
  }

  function Send(s: System, now: real): System {
    s.(queue := [], sent := s.sent + Stamp(s.queue, |s.sent|, now))
  }

  function Tagged(out: seq<CC.Envelope>, origin: nat): (queue: seq<Outgoing>)
    ensures |queue| == |out|
    ensures forall i | 0 <= i < |out| :: queue[i] == Outgoing(out[i], origin)
  {
    seq(|out|, i requires 0 <= i < |out| => Outgoing(out[i], origin))
  }

  function Encode(l: Link, m: Message): BC.Payload {
    var blank := BC.Payload(None, Text(l.epoch, None), Text(l.source, None), Int(m.serial),
                            Absent, Absent, NoReason, None, Absent, Absent, Absent, Absent);
    match m.envelope
    case DriveOut(_, _, v, _) =>
      blank.(kind := Some(BC.DriveKind), deadman := Bool(true),
             linearX := Float(v.x), linearY := Float(v.y), angularZ := Float(v.z))
    case StopOut(_, _) => blank.(kind := Some(BC.StopKind))
    case ActionOut(action, _, _) => blank.(kind := Some(BC.ActionKind), action := Some(action))
  }

  // ----- one event --------------------------------------------------------------------

  /** The dashboard has made a call: its envelopes join the queue, and a timer call sends it. */
  function Enqueue(s: System, dash: C.World, out: seq<CC.Envelope>, call: C.Call): System {
    var queued := s.(dash := dash, queue := s.queue + Tagged(out, |s.dash.log|), log := s.log + [Told]);
    if call.TickCall? then Send(queued, call.at) else queued
  }

  function Refuse(w: B.World, at: real, reason: Reason): B.World {
    B.Apply(w, B.Force(at, reason))
  }

  /** The node stops the robot for every command its watchdog refuses. */
  function Settle(heard: B.World, effect: BC.Effect, at: real): B.World {
    if effect.Rejected? then Refuse(heard, at, RejectedCommand(effect.error))
    else if effect.Blocked? then Refuse(heard, at, RejectedCommand(BlockedByInhibit))
    else heard
  }

  /** A copy of an already sent message arrives. */
  function Arrive(l: Link, s: System, at: real, k: nat): System
    requires k < |s.sent|
  {
    var m := s.sent[k];
    if s.closing then s.(log := s.log + [Lost])
    else if Abs(at - m.issued) > MAX_SIGNED_AGE_S then
      s.(bridge := Refuse(s.bridge, at, UndecodableCommand), log := s.log + [Faulted])
    else Take(s, HearCopy(l, s.bridge, m, at), at, k)
  }

  function HearCopy(l: Link, w: B.World, m: Message, at: real): (heard: B.World)
    ensures |heard.log| == |w.log| + 1 && heard.log[|w.log|].Received?
  {
    B.Apply(w, B.Receive(at, Encode(l, m), AgeOf(m, at)))
  }

  /** The transport age the decoder computes: never negative. */
  function AgeOf(m: Message, at: real): Value {
    Float(Max(0.0, at - m.issued))
  }

  function Take(s: System, heard: B.World, at: real, k: nat): System
    requires |heard.log| == |s.bridge.log| + 1 && heard.log[|s.bridge.log|].Received?
  {
    var effect := heard.log[|s.bridge.log|].effect;
    s.(bridge := Settle(heard, effect, at), log := s.log + [Delivered(k, effect)])
  }

  function Apply(l: Link, s: System, e: Event): System {
    var t := s.(now := At(e));
    match e
    case Dashboard(call) => Enqueue(t, C.Apply(s.dash, call), C.Do(s.dash.m, call).out, call)
    case Flush(at) => Send(t, at).(log := s.log + [Told])
    case Deliver(at, k) => if k < |s.sent| then Arrive(l, t, at, k) else t.(log := s.log + [Lost])
    case Fault(at, reason) =>
      if s.closing then t.(log := s.log + [Lost])
      else t.(bridge := Refuse(s.bridge, at, reason), log := s.log + [Faulted])
    case Pulse(at, surroundings) =>
      if s.closing then t.(log := s.log + [Ticked(at, [])])
      else
        var bridge := B.Apply(s.bridge, B.Pulse(at, surroundings));
        t.(bridge := bridge, log := s.log + [Ticked(at, bridge.log[|s.bridge.log|].published)])
    case Shutdown(at) =>
      if s.closing then t.(log := s.log + [Lost])
      else t.(bridge := Refuse(s.bridge, at, BridgeShutdown), closing := true,
              log := s.log + [ShutDown(BridgeNode.Farewell())])
  }

  function Run(l: Link, startStopped: bool, events: seq<Event>): System {
    if events == [] then Init(l, startStopped)
    else Apply(l, Run(l, startStopped, events[..|events| - 1]), events[|events| - 1])
  }

  predicate Timed(events: seq<Event>) {
    && (forall i | 0 <= i < |events| :: 0.0 <= At(events[i]))
    && (forall i, j | 0 <= i < j < |events| :: At(events[i]) <= At(events[j]))
  }

  // ----- reference folds over the link's log ------------------------------------------

  /** The delivery the bridge is armed by: the last one that armed it, with no delivery that
      stopped it, queued an action or was refused, and no fault or shutdown, after it. */
  function Carrier(log: seq<Entry>): Option<nat> {
    if log == [] then None
    else
      match log[|log| - 1]
      case Delivered(k, Armed(_, _)) => Some(k)
      case Delivered(_, Ignored) => Carrier(log[..|log| - 1])
      case Delivered(_, InhibitTaken(_, _)) => Carrier(log[..|log| - 1])
      case Delivered(_, InhibitReleased(_, _)) => Carrier(log[..|log| - 1])
      case Delivered(_, _) => None
      case Faulted => None
      case ShutDown(_) => None
      case _ => Carrier(log[..|log| - 1])
  }

  /** A stop message has reached the bridge, whatever the bridge made of it. */
  predicate IsStopDelivery(e: Entry, sent: seq<Message>) {
    e.Delivered? && e.k < |sent| && sent[e.k].envelope.StopOut?
  }

  /** The transport knows the bridge's epoch and names itself acceptably; otherwise the bridge
      refuses everything it sends. */
  predicate Paired(l: Link) {
    l.epoch == l.settings.epoch && 8 <= |l.source| <= 128
  }

  // ----- what every run keeps ---------------------------------------------------------

  /** A drive message carries a velocity its tick put out for a pressed intent that was then
      younger than its source's timeout, and was issued no later than that tick. */
  ghost predicate Fresh(l: Link, log: seq<C.Entry>, m: Message) {
    && m.origin < |log| && log[m.origin].call.TickCall? && m.envelope in log[m.origin].out
    && m.issued <= log[m.origin].call.at
    && C.CurrentIntent(l.policy, log[..m.origin]).Some?
    && var intent := C.CurrentIntent(l.policy, log[..m.origin]).value;
       && intent.deadman && m.envelope.DriveOut? && intent.source == m.envelope.source
       && log[m.origin].call.at - intent.issued < CC.CommandTimeoutFor(l.policy, intent.source)
  }

  function AsTarget(c: BC.Settings, v: Velocity): Velocity {
    Velocity(Clamp(v.x, -c.maxX, c.maxX), Clamp(v.y, -c.maxY, c.maxY), Clamp(v.z, -c.maxZ, c.maxZ))
  }

  /** The dashboard's side: nothing but stops and actions waits, and every drive sent is fresh. */
  ghost predicate DashOk(l: Link, now: real, dash: C.World, queue: seq<Outgoing>, sent: seq<Message>) {
    && C.Inv(dash) && dash.m.cfg == l.policy && C.Clock(dash.log) <= now
    && (forall i | 0 <= i < |queue| :: !queue[i].envelope.DriveOut?)
    && (forall m | 0 <= m < |sent| :: sent[m].serial == m + 1 && sent[m].issued <= now)
    && (forall m | 0 <= m < |sent| && sent[m].envelope.DriveOut? :: Fresh(l, dash.log, sent[m]))
  }

  ghost predicate BridgeOk(l: Link, now: real, bridge: B.World) {
    && B.Inv(bridge) && bridge.core.cfg == l.settings && B.Clock(bridge.log) <= now
    && BridgeAdmission.Distinct(bridge.core.seen, {l.source})
    && 0.0 <= now
  }

  /** Every delivery in the log is of a message that has been sent. */
  predicate Known(log: seq<Entry>, sent: seq<Message>) {
    forall i | 0 <= i < |log| && log[i].Delivered? :: log[i].k < |sent|
  }

  /** Every stop message delivered so far has a serial below the bound. */
  predicate StopsBelow(log: seq<Entry>, sent: seq<Message>, bound: int) {
    forall i | 0 <= i < |log| && IsStopDelivery(log[i], sent) :: sent[log[i].k].serial < bound
  }

  /** The drive the bridge is armed by is the one its carrier brought, sent after every stop
      delivered so far. */
  predicate Carries(l: Link, drive: B.Drive, sent: seq<Message>, log: seq<Entry>) {
    && Carrier(log).Some? && Carrier(log).value < |sent|
    && var m := sent[Carrier(log).value];
       && m.envelope.DriveOut?
       && drive == B.Drive(m.issued, AsTarget(l.settings, m.envelope.velocity))
       && StopsBelow(log, sent, m.serial)
  }

  predicate CarrierOk(l: Link, armed: Option<B.Drive>, last: int, closing: bool, sent: seq<Message>, log: seq<Entry>) {
    && Known(log, sent)
    && (Paired(l) ==> StopsBelow(log, sent, last + 1))
    && (armed.Some? ==> Paired(l) && !closing && Carries(l, armed.value, sent, log))
  }

  ghost predicate Inv(l: Link, s: System) {
    && DashInv(l, s)
    && BridgeOk(l, s.now, s.bridge)
    && CarrierOk(l, B.ArmedBy(s.bridge.log), BC.LastSeq(s.bridge.core.seen, l.source), s.closing, s.sent, s.log)
  }

  ghost predicate DashInv(l: Link, s: System) {
    DashOk(l, s.now, s.dash, s.queue, s.sent)
  }

  // ----- the link's log ---------------------------------------------------------------

  /** What one more entry makes of the carrier. */
  function NextCarrier(before: Option<nat>, e: Entry): Option<nat> {
    match e
    case Delivered(k, Armed(_, _)) => Some(k)
    case Delivered(_, Ignored) => before
    case Delivered(_, InhibitTaken(_, _)) => before
    case Delivered(_, InhibitReleased(_, _)) => before
    case Delivered(_, _) => None
    case Faulted => None
    case ShutDown(_) => None
    case _ => before
  }

  lemma CarrierStep(log: seq<Entry>, e: Entry)
    ensures Carrier(log + [e]) == NextCarrier(Carrier(log), e)
  {
    assert (log + [e])[..|log|] == log;
  }

  lemma LogGrows(log: seq<Entry>, e: Entry, sent: seq<Message>, more: seq<Message>)
    requires Known(log, sent) && sent <= more && (e.Delivered? ==> e.k < |more|)
    ensures Known(log + [e], more)
    ensures forall bound: int, higher: int | bound <= higher && StopsBelow(log, sent, bound)
              && (IsStopDelivery(e, more) ==> more[e.k].serial < higher) :: StopsBelow(log + [e], more, higher)
  {
  }

  /** Sending more, ticks and calls of the dashboard leave the carrier alone; a tick may disarm. */
  lemma CarrierIdles(l: Link, armed: Option<B.Drive>, armedNow: Option<B.Drive>, last: int, closing: bool,
                     sent: seq<Message>, more: seq<Message>, log: seq<Entry>, e: Entry)
    requires CarrierOk(l, armed, last, closing, sent, log) && sent <= more
    requires e.Told? || e.Lost? || e.Ticked?
    requires armedNow == armed || armedNow.None?
    ensures CarrierOk(l, armedNow, last, closing, more, log + [e])
  {
    CarrierStep(log, e);
    LogGrows(log, e, sent, more);
    if armed.Some? {
      var serial := sent[Carrier(log).value].serial;
      assert StopsBelow(log, sent, serial) && serial <= serial;
    }
    assert last + 1 <= last + 1;
  }

  lemma CarrierHalts(l: Link, armed: Option<B.Drive>, last: int, closing: bool, after: bool,
                     sent: seq<Message>, log: seq<Entry>, e: Entry)
    requires CarrierOk(l, armed, last, closing, sent, log) && (e.Faulted? || e.ShutDown?)
    ensures CarrierOk(l, None, last, after, sent, log + [e])
  {
    LogGrows(log, e, sent, sent);
    assert last + 1 <= last + 1;
  }

  /** How a delivered message may change what the bridge is armed by and the last serial it took
      from the transport. */
  predicate Turns(l: Link, m: Message, effect: BC.Effect, armed: Option<B.Drive>, last: int,
                  armedNow: Option<B.Drive>, lastNow: int) {
    && last <= lastNow
    && (m.envelope.StopOut? ==> effect.Stopped? || effect.Rejected?)
    && (m.envelope.StopOut? && Paired(l) ==> m.serial <= lastNow)
    && match effect
       case Armed(_, _) =>
         && Paired(l) && m.envelope.DriveOut? && last < m.serial
         && armedNow == Some(B.Drive(m.issued, AsTarget(l.settings, m.envelope.velocity)))
       case Ignored => armedNow == armed
       case InhibitTaken(_, _) => armedNow == armed
       case InhibitReleased(_, _) => armedNow == armed
       case _ => armedNow.None?
  }

  lemma CarrierHears(l: Link, armed: Option<B.Drive>, last: int, sent: seq<Message>, log: seq<Entry>,
                     k: nat, effect: BC.Effect, armedNow: Option<B.Drive>, lastNow: int)
    requires CarrierOk(l, armed, last, false, sent, log) && k < |sent|
    requires Turns(l, sent[k], effect, armed, last, armedNow, lastNow)
    ensures CarrierOk(l, armedNow, lastNow, false, sent, log + [Delivered(k, effect)])
  {
    var e := Delivered(k, effect);
    CarrierStep(log, e);
    LogGrows(log, e, sent, sent);
    assert last + 1 <= lastNow + 1;
    if effect.Armed? {
      assert last + 1 <= sent[k].serial;
    } else if armedNow.Some? {
      var serial := sent[Carrier(log).value].serial;
      assert StopsBelow(log, sent, serial) && serial <= serial;
    }
  }

  // ----- the dashboard side -----------------------------------------------------------

  lemma FreshStays(l: Link, log: seq<C.Entry>, more: seq<C.Entry>, m: Message)
    requires Fresh(l, log, m) && log <= more
    ensures Fresh(l, more, m)
  {
    assert more[..m.origin] == log[..m.origin];
    assert more[m.origin] == log[m.origin];
  }

  lemma EnvelopesAreFresh(l: Link, w: C.World, call: C.Call, o: CC.Outcome, k: nat)
    requires C.Inv(w) && w.m.cfg == l.policy && C.Emits(w.m, call, o) && k < |o.out| && o.out[k].DriveOut?
    ensures call.TickCall?
    ensures Fresh(l, w.log + [C.Record(call, o)],
                  Message(o.out[k], |w.log|, 0, IssuedAt(call.at)))
  {
    var log := w.log + [C.Record(call, o)];
    assert log[..|w.log|] == w.log;
    assert o.out[k] in log[|w.log|].out;
  }

  lemma QueueIsFresh(l: Link, s: System, dash: C.World, o: CC.Outcome, call: C.Call, m: nat)
    requires DashInv(l, s) && s.now == call.at && C.Emits(s.dash.m, call, o)
    requires dash == C.World(o.m, s.dash.log + [C.Record(call, o)])
    requires var queue := s.queue + Tagged(o.out, |s.dash.log|); m < |queue| && queue[m].envelope.DriveOut?
    ensures call.TickCall?
    ensures var sent := Stamp(s.queue + Tagged(o.out, |s.dash.log|), |s.sent|, call.at);
            Fresh(l, dash.log, sent[m])
  {
    assert m >= |s.queue|;
    EnvelopesAreFresh(l, s.dash, call, o, m - |s.queue|);
  }

  lemma EnqueueKeepsDash(l: Link, s: System, dash: C.World, o: CC.Outcome, call: C.Call)
    requires DashInv(l, s) && s.now == call.at && C.Emits(s.dash.m, call, o)
    requires dash == C.World(o.m, s.dash.log + [C.Record(call, o)]) && C.Inv(dash) && dash.m.cfg == l.policy
    ensures DashInv(l, Enqueue(s, dash, o.out, call))
  {
    forall m | 0 <= m < |s.sent| && s.sent[m].envelope.DriveOut? ensures Fresh(l, dash.log, s.sent[m]) {
      FreshStays(l, s.dash.log, dash.log, s.sent[m]);
    }
    var queue := s.queue + Tagged(o.out, |s.dash.log|);
    forall m | 0 <= m < |queue| && queue[m].envelope.DriveOut?
      ensures call.TickCall? && Fresh(l, dash.log, Stamp(queue, |s.sent|, call.at)[m])
    {
      QueueIsFresh(l, s, dash, o, call, m);
    }
  }

  lemma SendKeepsDash(l: Link, s: System)
    requires DashInv(l, s)
    ensures DashInv(l, Send(s, s.now))
  {
  }

  // ----- the bridge side --------------------------------------------------------------

  /** What an event other than a delivery may do to the bridge's books. */
  lemma RefuseKeeps(l: Link, w: B.World, at: real, reason: Reason)
    requires B.Inv(w) && 0.0 <= at && B.Clock(w.log) <= at
    ensures var v := Refuse(w, at, reason);
            && B.Inv(v) && v.core.cfg == w.core.cfg && B.Clock(v.log) == at
            && v.core.seen == w.core.seen && B.ArmedBy(v.log).None?
  {
    var v := Refuse(w, at, reason);
    B.ApplySteps(w, B.Force(at, reason));
    StepKeepsInv(w, v);
    assert v.log[..|w.log|] == w.log;
  }

  lemma StepKeepsInv(w: B.World, v: B.World)
    requires B.Inv(w) && B.Step(w, v)
    ensures B.Inv(v)
  {
    B.StepKeepsArmed(w, v);
    B.StepKeepsWatch(w, v);
    B.StepKeepsAction(w, v);
    B.StepKeepsInhibit(w, v);
    B.StepKeepsWindow(w, v);
  }

  /** The bridge's books stay in order and keep its settings. */
  ghost predicate InOrder(l: Link, w: B.World, v: B.World, at: real) {
    && B.Inv(v) && v.core.cfg == w.core.cfg && B.Clock(v.log) == at
    && BridgeAdmission.Distinct(v.core.seen, {l.source})
  }

  /** A heard message: what it may do to the bridge's books. */
  ghost predicate Heard(l: Link, w: B.World, v: B.World, m: Message, at: real) {
    && InOrder(l, w, v, at) && |v.log| == |w.log| + 1 && v.log[|w.log|].Received?
    && var effect := v.log[|w.log|].effect;
       Turns(l, m, effect, B.ArmedBy(w.log), BC.LastSeq(w.core.seen, l.source),
             if effect.Rejected? || effect.Blocked? then None else B.ArmedBy(v.log), BC.LastSeq(v.core.seen, l.source))
  }

  /** What the watchdog can make of a copy of a sent message. */
  predicate CopyTakes(l: Link, m: Message, last: int, effect: BC.Effect) {
    && (effect.Armed? ==>
          && Paired(l) && m.envelope.DriveOut? && last < m.serial
          && effect == BC.Armed(m.issued, AsTarget(l.settings, m.envelope.velocity)))
    && (m.envelope.StopOut? ==> effect.Stopped? || (effect.Rejected? && (Paired(l) ==> m.serial <= last)))
  }

  lemma CopyEffect(l: Link, s: BC.Bridge, m: Message, at: real)
    requires s.cfg == l.settings && m.issued <= at && 0 < m.serial
    ensures CopyTakes(l, m, BC.LastSeq(s.seen, l.source), BC.Accept(s, Encode(l, m), at, AgeOf(m, at)).effect)
  {
    BridgeAdmission.ArmsExactly(s, Encode(l, m), at, AgeOf(m, at));
    BridgeAdmission.StopsExactly(s, Encode(l, m), at, AgeOf(m, at));
  }

  lemma HearingIsInOrder(l: Link, w: B.World, m: Message, at: real)
    requires B.Inv(w) && w.core.cfg == l.settings && 0.0 <= at && B.Clock(w.log) <= at
    requires BridgeAdmission.Distinct(w.core.seen, {l.source})
    ensures var v, effect := HearCopy(l, w, m, at), BC.Accept(w.core, Encode(l, m), at, AgeOf(m, at)).effect;
            && InOrder(l, w, v, at) && v.log == w.log + [B.Received(at, effect)]
            && BC.LastSeq(w.core.seen, l.source) <= BC.LastSeq(v.core.seen, l.source)
            && (!effect.Rejected? ==> BC.LastSeq(v.core.seen, l.source) == m.serial)
  {
    var e := B.Receive(at, Encode(l, m), AgeOf(m, at));
    B.ApplySteps(w, e);
    StepKeepsInv(w, B.Apply(w, e));
    BridgeAdmission.TableStep(w, e, {l.source});
  }

  lemma CopyTurns(l: Link, m: Message, effect: BC.Effect, before: seq<B.Entry>, last: int, at: real, lastNow: int)
    requires CopyTakes(l, m, last, effect) && last <= lastNow && (!effect.Rejected? ==> lastNow == m.serial)
    ensures Turns(l, m, effect, B.ArmedBy(before), last,
                  if effect.Rejected? || effect.Blocked? then None else B.ArmedBy(before + [B.Received(at, effect)]),
                  lastNow)
  {
    assert (before + [B.Received(at, effect)])[..|before|] == before;
  }

  lemma HearKeeps(l: Link, w: B.World, m: Message, at: real)
    requires B.Inv(w) && w.core.cfg == l.settings && 0.0 <= at && B.Clock(w.log) <= at && m.issued <= at
    requires 0 < m.serial
    requires BridgeAdmission.Distinct(w.core.seen, {l.source})
    ensures Heard(l, w, HearCopy(l, w, m, at), m, at)
  {
    CopyEffect(l, w.core, m, at);
    HearingIsInOrder(l, w, m, at);
    var v, effect := HearCopy(l, w, m, at), BC.Accept(w.core, Encode(l, m), at, AgeOf(m, at)).effect;
    CopyTurns(l, m, effect, w.log, BC.LastSeq(w.core.seen, l.source), at, BC.LastSeq(v.core.seen, l.source));
  }

  /** The same after the node has dealt with a refusal. */
  ghost predicate Settled(l: Link, w: B.World, b: B.World, m: Message, at: real, effect: BC.Effect) {
    && InOrder(l, w, b, at)
    && Turns(l, m, effect, B.ArmedBy(w.log), BC.LastSeq(w.core.seen, l.source),
             B.ArmedBy(b.log), BC.LastSeq(b.core.seen, l.source))
  }

  lemma HeardSettles(l: Link, w: B.World, v: B.World, m: Message, at: real)
    requires Heard(l, w, v, m, at) && 0.0 <= at
    ensures var effect := v.log[|w.log|].effect; Settled(l, w, Settle(v, effect, at), m, at, effect)
  {
    var effect := v.log[|w.log|].effect;
    if effect.Rejected? {
      RefuseKeeps(l, v, at, RejectedCommand(effect.error));
    } else if effect.Blocked? {
      RefuseKeeps(l, v, at, RejectedCommand(BlockedByInhibit));
    }
  }

  lemma DeliveryKeeps(l: Link, s: System, b: B.World, k: nat, effect: BC.Effect)
    requires Inv(l, s) && k < |s.sent| && !s.closing
    requires Settled(l, s.bridge, b, s.sent[k], s.now, effect)
    ensures Inv(l, s.(bridge := b, log := s.log + [Delivered(k, effect)]))
  {
    CarrierHears(l, B.ArmedBy(s.bridge.log), BC.LastSeq(s.bridge.core.seen, l.source), s.sent, s.log, k, effect,
                 B.ArmedBy(b.log), BC.LastSeq(b.core.seen, l.source));
  }

  lemma HearingKeeps(l: Link, s: System, heard: B.World, k: nat)
    requires Inv(l, s) && k < |s.sent| && !s.closing && Heard(l, s.bridge, heard, s.sent[k], s.now)
    ensures Inv(l, Take(s, heard, s.now, k))
  {
    var effect := heard.log[|s.bridge.log|].effect;
    HeardSettles(l, s.bridge, heard, s.sent[k], s.now);
    DeliveryKeeps(l, s, Settle(heard, effect, s.now), k, effect);
  }

  lemma ArriveKeeps(l: Link, s: System, at: real, k: nat)
    requires Inv(l, s) && s.now == at && k < |s.sent|
    ensures Inv(l, Arrive(l, s, at, k))
  {
    var m := s.sent[k];
    if s.closing {
      IdleKeeps(l, s, Lost);
    } else if Abs(at - m.issued) > MAX_SIGNED_AGE_S {
      HaltKeeps(l, s, UndecodableCommand, Faulted, false);
    } else {
      HearKeeps(l, s.bridge, m, at);
      HearingKeeps(l, s, HearCopy(l, s.bridge, m, at), k);
    }
  }

  lemma IdleKeeps(l: Link, s: System, entry: Entry)
    requires Inv(l, s) && (entry.Told? || entry.Lost? || entry.Ticked?)
    ensures Inv(l, s.(log := s.log + [entry]))
  {
    var armed := B.ArmedBy(s.bridge.log);
    CarrierIdles(l, armed, armed, BC.LastSeq(s.bridge.core.seen, l.source), s.closing, s.sent, s.sent, s.log, entry);
  }

  lemma HaltKeeps(l: Link, s: System, reason: Reason, entry: Entry, closing: bool)
    requires Inv(l, s) && (entry.Faulted? || entry.ShutDown?)
    ensures Inv(l, s.(bridge := Refuse(s.bridge, s.now, reason), closing := s.closing || closing,
                      log := s.log + [entry]))
  {
    RefuseKeeps(l, s.bridge, s.now, reason);
    CarrierHalts(l, B.ArmedBy(s.bridge.log), BC.LastSeq(s.bridge.core.seen, l.source), s.closing,
                 s.closing || closing, s.sent, s.log, entry);
  }

  lemma PulseKeeps(l: Link, s: System, b: B.World, entry: Entry)
    requires Inv(l, s) && entry.Ticked? && !s.closing
    requires B.Inv(b) && b.core.cfg == s.bridge.core.cfg && b.core.seen == s.bridge.core.seen
    requires B.Clock(b.log) <= s.now && (B.ArmedBy(b.log) == B.ArmedBy(s.bridge.log) || B.ArmedBy(b.log).None?)
    ensures Inv(l, s.(bridge := b, log := s.log + [entry]))
  {
    CarrierIdles(l, B.ArmedBy(s.bridge.log), B.ArmedBy(b.log), BC.LastSeq(s.bridge.core.seen, l.source), s.closing,
                 s.sent, s.sent, s.log, entry);
  }

  lemma TickSteps(w: B.World, at: real, surroundings: BC.Surroundings)
    requires B.Inv(w) && 0.0 <= at && B.Clock(w.log) <= at
    ensures var v := B.Apply(w, B.Pulse(at, surroundings));
            && B.Inv(v) && B.Step(w, v) && v.core.cfg == w.core.cfg && v.core.seen == w.core.seen
            && B.Clock(v.log) == at && (B.ArmedBy(v.log) == B.ArmedBy(w.log) || B.ArmedBy(v.log).None?)
            && v.log[|w.log|].Pulsed?
  {
    var e := B.Pulse(at, surroundings);
    var v := B.Apply(w, e);
    B.ApplySteps(w, e);
    StepKeepsInv(w, v);
    BridgeAdmission.TickTable(w.core, at, surroundings);
    assert v.log[..|w.log|] == w.log;
  }

  lemma LaterKeeps(l: Link, s: System, now: real)
    requires Inv(l, s) && s.now <= now
    ensures Inv(l, s.(now := now))
  {
  }

  lemma DashboardKeeps(l: Link, s: System, call: C.Call)
    requires Inv(l, s) && s.now == call.at
    ensures Inv(l, Enqueue(s, C.Apply(s.dash, call), C.Do(s.dash.m, call).out, call))
  {
    var o := C.ApplyKeeps(s.dash, call);
    var dash := C.World(o.m, s.dash.log + [C.Record(call, o)]);
    assert dash == C.Apply(s.dash, call);
    EnqueueKeepsAll(l, s, dash, o, call);
  }

  lemma EnqueueKeepsAll(l: Link, s: System, dash: C.World, o: CC.Outcome, call: C.Call)
    requires Inv(l, s) && s.now == call.at && C.Emits(s.dash.m, call, o)
    requires dash == C.World(o.m, s.dash.log + [C.Record(call, o)]) && C.Inv(dash) && dash.m.cfg == l.policy
    ensures Inv(l, Enqueue(s, dash, o.out, call))
  {
    EnqueueKeepsDash(l, s, dash, o, call);
    var t := Enqueue(s, dash, o.out, call);
    GrowingKeeps(l, s, t);
  }

  /** Sending more, and nothing else, leaves the bridge's side alone. */
  lemma GrowingKeeps(l: Link, s: System, t: System)
    requires Inv(l, s) && DashInv(l, t) && s.sent <= t.sent
    requires t.bridge == s.bridge && t.closing == s.closing && t.now == s.now && t.log == s.log + [Told]
    ensures Inv(l, t)
  {
    var armed := B.ArmedBy(s.bridge.log);
    CarrierIdles(l, armed, armed, BC.LastSeq(s.bridge.core.seen, l.source), s.closing, s.sent, t.sent, s.log, Told);
  }

  lemma ApplyKeeps(l: Link, s: System, e: Event)
    requires Inv(l, s) && s.now <= At(e)
    ensures Inv(l, Apply(l, s, e)) && Apply(l, s, e).now == At(e)
  {
    LaterKeeps(l, s, At(e));
    var t := s.(now := At(e));
    match e
    case Dashboard(call) => DashboardKeeps(l, t, call);
    case Flush(at) =>
      SendKeepsDash(l, t);
      GrowingKeeps(l, t, Send(t, at).(log := s.log + [Told]));
    case Deliver(at, k) =>
      if k < |s.sent| { ArriveKeeps(l, t, at, k); } else { IdleKeeps(l, t, Lost); }
    case Fault(at, reason) =>
      if s.closing { IdleKeeps(l, t, Lost); } else { HaltKeeps(l, t, reason, Faulted, false); }
    case Pulse(at, surroundings) =>
      if s.closing {
        IdleKeeps(l, t, Ticked(at, []));
      } else {
        TickSteps(s.bridge, at, surroundings);
        var b := B.Apply(s.bridge, B.Pulse(at, surroundings));
        PulseKeeps(l, t, b, Ticked(at, b.log[|s.bridge.log|].published));
      }
    case Shutdown(at) =>
      if s.closing { IdleKeeps(l, t, Lost); }
      else { HaltKeeps(l, t, BridgeShutdown, ShutDown(BridgeNode.Farewell()), true); }
  }

  lemma {:induction false} RunKeeps(l: Link, startStopped: bool, events: seq<Event>)
    requires Timed(events)
    ensures Inv(l, Run(l, startStopped, events))
    ensures Run(l, startStopped, events).now == if events == [] then 0.0 else At(events[|events| - 1])
  {
    if events != [] {
      var before := events[..|events| - 1];
      assert |before| > 0 ==> before[|before| - 1] == events[|events| - 2];
      RunKeeps(l, startStopped, before);
      ApplyKeeps(l, Run(l, startStopped, before), events[|events| - 1]);
    }
  }

  // ----- the promises -----------------------------------------------------------------

  /** Every movement the bridge publishes, in any run over any such channel, carries the cut
      velocity of one sent drive message: a drive the dashboard put out for a pressed intent of
      its current lease. The intent is younger than the two timeouts together, and the message
      was sent after every stop that has reached the bridge so far. */
  lemma MoveTracesToIntent(l: Link, startStopped: bool, events: seq<Event>, at: real,
                           surroundings: BC.Surroundings, k: nat) returns (m: Message)
    requires Timed(events) && (forall i | 0 <= i < |events| :: At(events[i]) <= at) && 0.0 <= at
    requires var s := Run(l, startStopped, events);
             !s.closing
             && var published := BC.Tick(s.bridge.core, at, surroundings).published;
                k < |published| && B.IsMove(published[k])
    ensures var s := Run(l, startStopped, events);
            && m in s.sent && m.envelope.DriveOut? && Fresh(l, s.dash.log, m)
            && BC.Tick(s.bridge.core, at, surroundings).published[k]
               == MoveRequest(AsTarget(l.settings, m.envelope.velocity))
            && (forall i | 0 <= i < |s.log| && IsStopDelivery(s.log[i], s.sent) :: s.sent[s.log[i].k].serial < m.serial)
    ensures var intent := C.CurrentIntent(l.policy, Run(l, startStopped, events).dash.log[..m.origin]).value;
            && intent.deadman
            && at - intent.issued < CC.CommandTimeoutFor(l.policy, intent.source) + l.settings.commandTimeout
            && at - intent.issued < (if intent.source == CC.Navigation then 0.5 else 0.4)
  {
    RunKeeps(l, startStopped, events);
    var s := Run(l, startStopped, events);
    m := TickTraces(l, s, at, surroundings, k);
  }

  lemma TickTraces(l: Link, s: System, at: real, surroundings: BC.Surroundings, k: nat) returns (m: Message)
    requires Inv(l, s) && s.now <= at
    requires var published := BC.Tick(s.bridge.core, at, surroundings).published;
             k < |published| && B.IsMove(published[k])
    ensures m in s.sent && m.envelope.DriveOut? && Fresh(l, s.dash.log, m)
    ensures BC.Tick(s.bridge.core, at, surroundings).published[k]
            == MoveRequest(AsTarget(l.settings, m.envelope.velocity))
    ensures forall i | 0 <= i < |s.log| && IsStopDelivery(s.log[i], s.sent) :: s.sent[s.log[i].k].serial < m.serial
    ensures at - m.issued <= l.settings.commandTimeout
  {
    TickSteps(s.bridge, at, surroundings);
    var v := B.Apply(s.bridge, B.Pulse(at, surroundings));
    assert v.log[|s.bridge.log|].published == BC.Tick(s.bridge.core, at, surroundings).published;
    BridgeTheorems.MoveStep(s.bridge, v, k);
    assert v.log[..|s.bridge.log|] == s.bridge.log;
    m := s.sent[Carrier(s.log).value];
  }

  /** Once a stop has been delivered, a movement rests on a message sent after that stop. */
  lemma StopOutranksEarlierDrives(l: Link, startStopped: bool, events: seq<Event>, i: nat, at: real,
                                  surroundings: BC.Surroundings, k: nat)
    requires Timed(events) && (forall j | 0 <= j < |events| :: At(events[j]) <= at) && 0.0 <= at
    requires var s := Run(l, startStopped, events);
             && !s.closing && i < |s.log| && IsStopDelivery(s.log[i], s.sent)
             && var published := BC.Tick(s.bridge.core, at, surroundings).published;
                k < |published| && B.IsMove(published[k])
    ensures var s := Run(l, startStopped, events);
            exists n :: s.log[i].k < n < |s.sent|
                        && s.sent[n].envelope.DriveOut?
                        && BC.Tick(s.bridge.core, at, surroundings).published[k]
                           == MoveRequest(AsTarget(l.settings, s.sent[n].envelope.velocity))
  {
    var m := MoveTracesToIntent(l, startStopped, events, at, surroundings, k);
    RunKeeps(l, startStopped, events);
    var s := Run(l, startStopped, events);
    var n :| 0 <= n < |s.sent| && s.sent[n] == m;
    assert s.sent[s.log[i].k].serial == s.log[i].k + 1 && m.serial == n + 1;
  }

  predicate AllStops(e: Entry) {
    (e.ShutDown? ==> forall r | r in e.published :: B.IsStop(r)) && (e.Ticked? ==> e.published == [])
  }

  /** Whatever the log holds past `before` is at most a stop. */
  predicate OnlyStopsSince(before: seq<Entry>, log: seq<Entry>) {
    before <= log && forall i | |before| <= i < |log| :: AllStops(log[i])
  }

  /** From shutdown on the bridge publishes StopMove and nothing else. */
  lemma {:induction false} ShutdownOnlyStops(l: Link, startStopped: bool, events: seq<Event>, n: nat)
    requires n <= |events| && Run(l, startStopped, events[..n]).closing
    ensures Run(l, startStopped, events).closing
    ensures OnlyStopsSince(Run(l, startStopped, events[..n]).log, Run(l, startStopped, events).log)
  {
    if n == |events| {
      assert events[..n] == events;
    } else {
      var before := events[..|events| - 1];
      assert before[..n] == events[..n];
      ShutdownOnlyStops(l, startStopped, before, n);
      ClosedStep(l, Run(l, startStopped, events[..n]).log, Run(l, startStopped, before), events[|events| - 1]);
    }
  }

  lemma ClosedStep(l: Link, before: seq<Entry>, s: System, e: Event)
    requires s.closing && OnlyStopsSince(before, s.log)
    ensures Apply(l, s, e).closing && OnlyStopsSince(before, Apply(l, s, e).log)
  {
  }

  // ----- the bridge's side is the node ----------------------------------------------------

  /** Everything the bridge has published, as the link's log has it. */
  function PublishedBy(log: seq<Entry>): seq<SportRequest> {
    if log == [] then []
    else
      PublishedBy(log[..|log| - 1]) +
      match log[|log| - 1]
      case Ticked(_, published) => published
      case ShutDown(published) => published
      case _ => []
  }

  /** The node agrees with the link on the watchdog, the closing flag and what was published;
      its status cycle is its own. */
  predicate Stands(s: System, n: BridgeNode.Node) {
    s.bridge.core == n.core && s.closing == n.closing && PublishedBy(s.log) == n.published
  }

  lemma PublishedGrows(log: seq<Entry>, e: Entry)
    ensures PublishedBy(log + [e]) == PublishedBy(log) +
              match e
              case Ticked(_, published) => published
              case ShutDown(published) => published
              case _ => []
  {
    assert (log + [e])[..|log|] == log;
  }

  lemma LostArrival(l: Link, s: System, n: BridgeNode.Node, at: real, k: nat)
    requires Stands(s, n) && k < |s.sent| && s.closing
    ensures Stands(Arrive(l, s, at, k), BridgeNode.Hear(n, None, at, AgeOf(s.sent[k], at)))
    ensures BridgeNode.Hear(n, Some(Encode(l, s.sent[k])), at, AgeOf(s.sent[k], at))
            == BridgeNode.Hear(n, None, at, AgeOf(s.sent[k], at))
  {
    PublishedGrows(s.log, Lost);
  }

  lemma LateArrival(l: Link, s: System, n: BridgeNode.Node, at: real, k: nat)
    requires Stands(s, n) && k < |s.sent| && !s.closing && Abs(at - s.sent[k].issued) > MAX_SIGNED_AGE_S
    ensures Stands(Arrive(l, s, at, k), BridgeNode.Hear(n, None, at, AgeOf(s.sent[k], at)))
  {
    PublishedGrows(s.log, Faulted);
  }

  lemma TimelyArrival(l: Link, s: System, n: BridgeNode.Node, at: real, k: nat, p: BC.Payload, age: Value)
    requires Stands(s, n) && k < |s.sent| && !s.closing && Abs(at - s.sent[k].issued) <= MAX_SIGNED_AGE_S
    requires p == Encode(l, s.sent[k]) && age == AgeOf(s.sent[k], at)
    ensures Stands(Arrive(l, s, at, k), BridgeNode.Hear(n, Some(p), at, age))
  {
    PublishedGrows(s.log, Delivered(k, BC.Accept(s.bridge.core, p, at, age).effect));
  }

  /** A copy that arrives is the node's command callback: undecodable when its stamp is more than
      the signed age away, and decoded to the message it copies otherwise. */
  lemma ArrivalIsACallback(l: Link, s: System, n: BridgeNode.Node, at: real, k: nat)
    requires Stands(s, n) && k < |s.sent|
    ensures var m := s.sent[k];
            var p := if Abs(at - m.issued) > MAX_SIGNED_AGE_S then None else Some(Encode(l, m));
            Stands(Apply(l, s, Deliver(at, k)), BridgeNode.Hear(n, p, at, AgeOf(m, at)))
  {
    var m, t := s.sent[k], s.(now := at);
    assert Apply(l, s, Deliver(at, k)) == Arrive(l, t, at, k);
    if s.closing {
      LostArrival(l, t, n, at, k);
    } else if Abs(at - m.issued) > MAX_SIGNED_AGE_S {
      LateArrival(l, t, n, at, k);
    } else {
      TimelyArrival(l, t, n, at, k, Encode(l, m), AgeOf(m, at));
    }
  }

  /** A pulse is the node's timer step while its status transport works. */
  lemma PulseIsATick(l: Link, s: System, n: BridgeNode.Node, at: real, surroundings: BC.Surroundings)
    requires Stands(s, n)
    ensures Stands(Apply(l, s, Pulse(at, surroundings)), BridgeNode.TickNode(n, at, surroundings, true))
  {
    PublishedGrows(s.log, Ticked(at, []));
    PublishedGrows(s.log, Ticked(at, BC.Tick(s.bridge.core, at, surroundings).published));
  }

  /** When that transport fails at a step that is due a status, the step is a pulse and a fault. */
  lemma FailedStatusIsAFault(l: Link, s: System, n: BridgeNode.Node, at: real, surroundings: BC.Surroundings)
    requires Stands(s, n) && !n.closing && BridgeNode.StatusDue(n, at)
    ensures var ticked := Apply(l, s, Pulse(at, surroundings));
            Stands(Apply(l, ticked, Fault(at, StatusTransportFailed)), BridgeNode.TickNode(n, at, surroundings, false))
  {
    var published := BC.Tick(s.bridge.core, at, surroundings).published;
    PublishedGrows(s.log, Ticked(at, published));
    PublishedGrows(s.log + [Ticked(at, published)], Faulted);
  }

  lemma ShutdownIsTheFarewell(l: Link, s: System, n: BridgeNode.Node, at: real)
    requires Stands(s, n)
    ensures Stands(Apply(l, s, Shutdown(at)), BridgeNode.StopNode(n))
  {
    PublishedGrows(s.log, Lost);
    PublishedGrows(s.log, ShutDown(BridgeNode.Farewell()));
  }
}
