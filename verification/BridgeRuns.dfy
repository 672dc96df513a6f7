/** Every run of the watchdog: any interleaving of commands, forced stops and ticks at
    nondecreasing times, and the log of what each did. The properties are stated over that
    log alone, through reference folds that know nothing of the watchdog's own fields. */
module BridgeRuns {
  import opened Wire
  import opened SportApi
  import opened BridgeCore

  datatype Event =
    | Receive(at: real, payload: Payload, age: Value)
    | Force(at: real, reason: Reason)
    | Pulse(at: real, surroundings: Surroundings)

  datatype Entry =
    | Received(at: real, effect: Effect)
    | Forced(at: real)
    | Pulsed(at: real, surroundings: Surroundings, ready: bool, published: seq<SportRequest>)

  datatype World = World(core: Bridge, log: seq<Entry>)

  function Apply(w: World, e: Event): World
  {
    match e
    case Receive(at, payload, age) =>
      var r := Accept(w.core, payload, at, age);
      World(r.state, w.log + [Received(at, r.effect)])
    case Force(at, reason) =>
      World(ForceStop(w.core, reason), w.log + [Forced(at)])
    case Pulse(at, surroundings) =>
      var r := Tick(w.core, at, surroundings);
      World(r.state, w.log + [Pulsed(at, surroundings, Ready(w.core.cfg, surroundings), r.published)])
  }

  function Run(c: Settings, events: seq<Event>): World {
    if events == [] then World(Init(c), [])
    else Apply(Run(c, events[..|events| - 1]), events[|events| - 1])
  }

  /** Monotonic time: never negative, never running backwards. */
  predicate Timed(events: seq<Event>) {
    && (forall i | 0 <= i < |events| :: 0.0 <= events[i].at)
    && (forall i, j | 0 <= i < j < |events| :: events[i].at <= events[j].at)
  }

  // ----- reference folds over a log ---------------------------------------------------

  datatype Drive = Drive(issued: real, target: Velocity)

  /** The latest accepted deadman drive with no stop, no action and no unready tick after it. */
  function ArmedBy(log: seq<Entry>): Option<Drive> {
    if log == [] then None
    else
      match log[|log| - 1]
      case Received(_, Armed(issued, target)) => Some(Drive(issued, target))
      case Received(_, Stopped) => None
      case Received(_, Queued(_)) => None
      case Forced(_) => None
      case Pulsed(_, _, false, _) => None
      case _ => ArmedBy(log[..|log| - 1])
  }

  predicate Disarms(e: Entry) {
    e.Forced? || (e.Received? && (e.effect.Stopped? || e.effect.Queued?))
  }

  predicate IsUnready(e: Entry) {
    e.Pulsed? && !e.ready
  }

  predicate Arms(e: Entry) {
    e.Received? && e.effect.Armed?
  }

  /** The last request published at all. */
  function LastPublished(log: seq<Entry>): Option<SportRequest> {
    if log == [] then None
    else
      var e := log[|log| - 1];
      if e.Pulsed? && e.published != [] then Some(e.published[|e.published| - 1])
      else LastPublished(log[..|log| - 1])
  }

  predicate IsMove(r: SportRequest) { r.apiId == API_MOVE }
  predicate IsStop(r: SportRequest) { r.apiId == API_STOP_MOVE }
  predicate IsAction(r: SportRequest) { !IsMove(r) && !IsStop(r) }

  /** A published movement with some axis above 1e-6. */
  predicate IsNonzeroMove(r: SportRequest) {
    && IsMove(r)
    && r.parameter.Axes? && r.parameter.x.Float? && r.parameter.y.Float? && r.parameter.z.Float?
    && IsMotion(Velocity(r.parameter.x.decimal, r.parameter.y.decimal, r.parameter.z.decimal))
  }

  predicate StartsWithStop(e: Entry) {
    e.Pulsed? && e.published != [] && IsStop(e.published[0])
  }

  /** A stop, a forced stop or an action has been accepted and no tick has run since; a fresh
      process owes one too. */
  function StopOwed(log: seq<Entry>): bool {
    if log == [] then true
    else
      var e := log[|log| - 1];
      Disarms(e) || (!e.Pulsed? && StopOwed(log[..|log| - 1]))
  }

  datatype Wait = Wait(at: real, action: Action, stopped: bool)

  /** The accepted action still to be published, and whether a StopMove went out since. */
  function Waiting(log: seq<Entry>): Option<Wait> {
    if log == [] then None
    else
      var before := Waiting(log[..|log| - 1]);
      match log[|log| - 1]
      case Received(at, Queued(action)) => Some(Wait(at, action, false))
      case Received(_, Armed(_, _)) => None
      case Received(_, Stopped) => None
      case Forced(_) => None
      case Pulsed(_, _, _, published) =>
        if exists r :: r in published && IsAction(r) then None
        else if before.Some? && (exists r :: r in published && IsStop(r)) then Some(before.value.(stopped := true))
        else before
      case _ => before
  }

  /** The observation inhibit in force, with the reasons that void it. */
  function Holder(log: seq<Entry>): Option<Inhibit> {
    if log == [] then None
    else
      var before := Holder(log[..|log| - 1]);
      match log[|log| - 1]
      case Received(_, InhibitTaken(token, source)) => Some(Inhibit(token, source, false))
      case Received(_, InhibitReleased(_, _)) => None
      case _ => if Voids(log[|log| - 1]) then Violate(before) else before
  }

  /** A stop ran, a drive or action reached the inhibit check, or a tick was not ready. */
  predicate Voids(e: Entry) {
    || e.Forced?
    || (e.Received? && (e.effect.Stopped? || e.effect.Blocked?))
    || (e.Pulsed? && !e.ready)
  }

  function ApiIds(published: seq<SportRequest>): (ids: seq<int>)
    ensures |ids| == |published|
    ensures forall i | 0 <= i < |ids| :: ids[i] == published[i].apiId
  {
    seq(|published|, i requires 0 <= i < |published| => published[i].apiId)
  }

  datatype Window = Window(start: real, action: Action, output: seq<int>)

  /** The latest accepted action, if only ready ticks and inert commands came after it, with
      everything published since. */
  function OpenWindow(log: seq<Entry>): Option<Window> {
    if log == [] then None
    else
      var before := OpenWindow(log[..|log| - 1]);
      match log[|log| - 1]
      case Received(at, Queued(action)) => Some(Window(at, action, []))
      case Received(_, Armed(_, _)) => None
      case Received(_, Stopped) => None
      case Forced(_) => None
      case Pulsed(_, _, ready, published) =>
        if ready && before.Some? then Some(before.value.(output := before.value.output + ApiIds(published)))
        else None
      case _ => before
  }

  function Clock(log: seq<Entry>): real {
    if log == [] then 0.0 else log[|log| - 1].at
  }

  // ----- one step, as a relation ------------------------------------------------------

  /** The fields that decide what is published. */
  predicate SameMotion(s: Bridge, t: Bridge) {
    && t.target == s.target && t.deadman == s.deadman && t.moving == s.moving
    && t.lastDrive == s.lastDrive && t.pendingStop == s.pendingStop
    && t.pendingAction == s.pendingAction && t.holdUntil == s.holdUntil
  }

  predicate Halted(s: Bridge, t: Bridge) {
    && t.target == ZERO && !t.deadman && !t.moving && t.pendingStop && t.pendingAction.None?
    && t.holdUntil == 0.0 && t.inhibit == Violate(s.inhibit)
  }

  predicate CommandStep(s: Bridge, t: Bridge, at: real, effect: Effect) {
    match effect
    case Rejected(_) => SameMotion(s, t) && t.inhibit == s.inhibit
    case Ignored => SameMotion(s, t) && t.inhibit == s.inhibit
    case Blocked => SameMotion(s, t) && s.inhibit.Some? && t.inhibit == Violate(s.inhibit)
    case Stopped => Halted(s, t)
    case Armed(issued, target) =>
      && s.inhibit.None? && t.inhibit.None? && s.holdUntil <= at
      && WithinLimits(s.cfg, target)
      && t.target == target && t.deadman && t.lastDrive == issued && t.pendingAction.None?
      && t.moving == s.moving && t.pendingStop == s.pendingStop && t.holdUntil == s.holdUntil
    case Queued(action) =>
      && s.inhibit.None? && t.inhibit.None? && s.holdUntil <= at
      && t.target == ZERO && !t.deadman && t.pendingStop && t.moving == s.moving
      && t.pendingAction == Some(Pending(action, at + ACTION_DELAY_S))
      && t.holdUntil == at + GuardSeconds(action)
    case InhibitTaken(token, source) =>
      && s.inhibit.None? && t.inhibit == Some(Inhibit(token, source, false))
      && SameMotion(s, t) && !s.deadman && !s.moving && s.target == ZERO && s.pendingAction.None?
      && s.holdUntil <= at
    case InhibitReleased(token, source) =>
      && SameMotion(s, t) && t.inhibit.None?
      && s.inhibit.Some? && s.inhibit.value.token == token && s.inhibit.value.source == source
  }

  predicate AllStops(published: seq<SportRequest>) {
    forall r | r in published :: IsStop(r)
  }

  predicate UnreadyStep(s: Bridge, t: Bridge, at: real, published: seq<SportRequest>) {
    && AllStops(published)
    && (s.pendingStop || (s.moving && s.pendingAction.None?) || s.deadman || s.target != ZERO || at < s.holdUntil ==>
          published != [])
    && !t.deadman && !t.moving && t.target == ZERO && t.pendingAction.None? && t.holdUntil <= at
    && t.inhibit == Violate(s.inhibit)
    && t.lastDrive == s.lastDrive
  }

  /** Ready ticks: what is published after the owed stop, with the state it leaves. */
  predicate ReadyStep(s: Bridge, t: Bridge, at: real, published: seq<SportRequest>) {
    && t.inhibit == s.inhibit && t.holdUntil == s.holdUntil && !t.pendingStop && t.lastDrive == s.lastDrive
    && var owed := if s.pendingStop then 1 else 0;
       && owed <= |published| && (s.pendingStop ==> IsStop(published[0]))
       && var rest := published[owed..];
          if s.pendingAction.Some? && at >= s.pendingAction.value.due then
            && rest == [ActionRequest(s.pendingAction.value.action)]
            && t.pendingAction.None? && t.target == s.target && t.deadman == s.deadman && t.moving == s.moving
          else
            && t.pendingAction == s.pendingAction
            && if at < s.holdUntil then
                 rest == [] && t.target == s.target && t.deadman == s.deadman && t.moving == s.moving
               else if CommandFresh(s, at) then
                 && rest == [MoveRequest(s.target)] && t.moving == IsMotion(s.target)
                 && t.target == s.target && t.deadman == s.deadman
               else if rest == [] then
                 !s.moving && t.target == s.target && t.deadman == s.deadman && !t.moving
               else
                 |rest| == 1 && IsStop(rest[0]) && !t.moving && !t.deadman && t.target == ZERO
  }

  predicate Step(w: World, v: World) {
    && |v.log| == |w.log| + 1
    && v.log[..|w.log|] == w.log
    && 0.0 <= Clock(v.log) && Clock(w.log) <= Clock(v.log)
    && v.core.cfg == w.core.cfg
    && match v.log[|w.log|]
       case Received(at, effect) => CommandStep(w.core, v.core, at, effect)
       case Forced(_) => Halted(w.core, v.core)
       case Pulsed(at, surroundings, ready, published) =>
         && (ready <==> Ready(w.core.cfg, surroundings))
         && if ready then ReadyStep(w.core, v.core, at, published)
            else UnreadyStep(w.core, v.core, at, published)
  }

  lemma InhibitSteps(s: Bridge, p: Payload, h: Header, at: real)
    ensures var r := AcceptInhibit(s, p, h, at);
            r.state.cfg == s.cfg && CommandStep(s, r.state, at, r.effect)
  {
  }

  lemma ActionSteps(s: Bridge, p: Payload, h: Header, at: real)
    requires s.inhibit.None?
    ensures var r := AcceptAction(s, p, h, at);
            r.state.cfg == s.cfg && CommandStep(s, r.state, at, r.effect)
  {
  }

  lemma DriveSteps(s: Bridge, p: Payload, h: Header, at: real)
    requires s.inhibit.None?
    ensures var r := AcceptDrive(s, p, h, at);
            r.state.cfg == s.cfg && CommandStep(s, r.state, at, r.effect)
  {
  }

  lemma DispatchSteps(s: Bridge, p: Payload, h: Header, at: real)
    ensures var r := Dispatch(s, p, h, at);
            r.state.cfg == s.cfg && CommandStep(s, r.state, at, r.effect)
  {
    InhibitSteps(s, p, h, at);
    if s.inhibit.None? {
      ActionSteps(s, p, h, at);
      DriveSteps(s, p, h, at);
    }
  }

  lemma AdmittedSteps(s: Bridge, known: Bridge, h: Header, t: Bridge, at: real, effect: Effect)
    requires AcceptSource(s, h, at) == Ok(known)
    requires t.cfg == known.cfg && CommandStep(known, t, at, effect)
    ensures t.cfg == s.cfg && CommandStep(s, t, at, effect)
  {
  }

  lemma AcceptSteps(s: Bridge, p: Payload, at: real, age: Value)
    ensures var r := Accept(s, p, at, age);
            r.state.cfg == s.cfg && CommandStep(s, r.state, at, r.effect)
  {
    var checked := Validate(s.cfg, p, age);
    if checked.Ok? {
      var admitted := AcceptSource(s, checked.value, at);
      if admitted.Ok? {
        DispatchSteps(admitted.value, p, checked.value, at);
        var r := Dispatch(admitted.value, p, checked.value, at);
        AdmittedSteps(s, admitted.value, checked.value, r.state, at, r.effect);
      }
    }
  }

  lemma ReadyTickSteps(s: Bridge, at: real, e: Surroundings)
    requires Ready(s.cfg, e)
    ensures var r := Tick(s, at, e);
            r.state.cfg == s.cfg && ReadyStep(s, r.state, at, r.published)
  {
  }

  lemma DisarmSteps(s: Bridge, at: real)
    requires 0.0 <= at
    ensures var d := Disarm(s, at, false);
            && !d.deadman && d.target == ZERO && d.holdUntil <= at && d.inhibit == Violate(s.inhibit)
            && d.cfg == s.cfg && d.lastDrive == s.lastDrive
            && (d.moving ==> s.moving)
            && (s.pendingStop || s.deadman || s.target != ZERO || at < s.holdUntil ==> d.pendingStop)
            && (s.moving && !d.moving ==> d.pendingStop)
            && (s.pendingAction.None? ==> d.pendingAction.None?)
  {
  }

  lemma UnreadyTickSteps(s: Bridge, at: real, e: Surroundings)
    requires 0.0 <= at && !Ready(s.cfg, e)
    ensures var r := Tick(s, at, e);
            r.state.cfg == s.cfg && UnreadyStep(s, r.state, at, r.published)
  {
    DisarmSteps(s, at);
    var flushed := FlushStop(Disarm(s, at, false), at);
    assert AllStops(flushed.published);
  }

  lemma ApplySteps(w: World, e: Event)
    requires 0.0 <= e.at && Clock(w.log) <= e.at
    ensures Step(w, Apply(w, e))
  {
    match e
    case Receive(at, payload, age) => AcceptSteps(w.core, payload, at, age);
    case Force(_, _) =>
    case Pulse(at, surroundings) =>
      if Ready(w.core.cfg, surroundings) {
        ReadyTickSteps(w.core, at, surroundings);
      } else {
        UnreadyTickSteps(w.core, at, surroundings);
      }
  }

  // ----- what every run keeps ---------------------------------------------------------

  ghost predicate ArmedInv(w: World) {
    && (w.core.deadman ==> ArmedBy(w.log) == Some(Drive(w.core.lastDrive, w.core.target)))
    && (w.core.target != ZERO ==> w.core.deadman)
    && (ArmedBy(w.log).Some? ==> WithinLimits(w.core.cfg, ArmedBy(w.log).value.target))
  }

  ghost predicate WatchInv(w: World) {
    && (StopOwed(w.log) ==> w.core.pendingStop)
    && (LastPublished(w.log).Some? && IsMove(LastPublished(w.log).value) && !w.core.pendingStop
        ==> w.core.holdUntil <= Clock(w.log) && w.core.pendingAction.None?
            && (IsNonzeroMove(LastPublished(w.log).value) ==> w.core.moving))
  }

  ghost predicate ActionInv(w: World) {
    w.core.pendingAction.Some? ==>
      && Waiting(w.log).Some?
      && var wait := Waiting(w.log).value;
         && w.core.pendingAction.value == Pending(wait.action, wait.at + ACTION_DELAY_S)
         && w.core.holdUntil == wait.at + GuardSeconds(wait.action)
         && (wait.stopped || w.core.pendingStop)
  }

  ghost predicate InhibitInv(w: World) {
    && w.core.inhibit == Holder(w.log)
    && (w.core.inhibit.Some? ==>
          && !w.core.deadman && w.core.target == ZERO && w.core.pendingAction.None?
          && w.core.holdUntil <= Clock(w.log))
  }

  ghost predicate InWindow(core: Bridge, start: real, action: Action, output: seq<int>) {
    && core.holdUntil == start + GuardSeconds(action)
    && !core.deadman && core.target == ZERO && core.inhibit.None?
    && (output == [] || output == [API_STOP_MOVE] || output == [API_STOP_MOVE, ApiId(action)])
    && core.pendingStop == (output == [])
    && core.pendingAction == (if |output| == 2 then None else Some(Pending(action, start + ACTION_DELAY_S)))
  }

  ghost predicate WindowInv(w: World) {
    OpenWindow(w.log).Some? ==>
      var win := OpenWindow(w.log).value;
      Clock(w.log) < win.start + GuardSeconds(win.action) ==> InWindow(w.core, win.start, win.action, win.output)
  }

  ghost predicate Inv(w: World) {
    WindowInv(w) && ArmedInv(w) && WatchInv(w) && ActionInv(w) && InhibitInv(w)
  }

  lemma StepKeepsArmed(w: World, v: World)
    requires Inv(w) && Step(w, v)
    ensures ArmedInv(v)
  {
  }

  lemma StepKeepsWatch(w: World, v: World)
    requires Inv(w) && Step(w, v)
    ensures WatchInv(v)
  {
    var e := v.log[|w.log|];
    if e.Pulsed? && e.published != [] {
      var r := e.published[|e.published| - 1];
      assert r in e.published;
      assert LastPublished(v.log) == Some(r);
    } else {
      assert LastPublished(v.log) == LastPublished(w.log);
    }
  }

  lemma StepKeepsAction(w: World, v: World)
    requires Inv(w) && Step(w, v)
    ensures ActionInv(v)
  {
  }

  lemma StepKeepsInhibit(w: World, v: World)
    requires Inv(w) && Step(w, v)
    ensures InhibitInv(v)
  {
  }

  lemma WindowStep(w: World, v: World)
    requires Step(w, v) && OpenWindow(w.log).Some?
    requires var win := OpenWindow(w.log).value;
             InWindow(w.core, win.start, win.action, win.output) && Clock(v.log) < win.start + GuardSeconds(win.action)
    requires var e := v.log[|w.log|];
             !e.Forced? && !(e.Received? && e.effect.Stopped?) && (e.Pulsed? ==> e.ready)
    ensures var e, win := v.log[|w.log|], OpenWindow(w.log).value;
            var added := if e.Pulsed? then ApiIds(e.published) else [];
            && !(e.Received? && (e.effect.Armed? || e.effect.Queued?))
            && OpenWindow(v.log) == Some(win.(output := win.output + added))
            && InWindow(v.core, win.start, win.action, win.output + added)
            && (e.Pulsed? && |win.output| == 2 ==> added == [])
            && (e.Pulsed? && |win.output| < 2 ==>
                  win.output + added ==
                  (if win.output == [] then [API_STOP_MOVE] else win.output)
                  + if e.at >= win.start + ACTION_DELAY_S then [ApiId(win.action)] else [])
  {
    var e, win := v.log[|w.log|], OpenWindow(w.log).value;
    assert v.log[..|v.log| - 1] == w.log;
    assert win.output + [] == win.output;
    if e.Pulsed? {
      var owed := if w.core.pendingStop then 1 else 0;
      var rest := e.published[owed..];
      assert e.published == e.published[..owed] + rest;
    }
  }

  lemma StepKeepsWindow(w: World, v: World)
    requires Inv(w) && Step(w, v)
    ensures WindowInv(v)
  {
    assert v.log[..|v.log| - 1] == w.log;
    if OpenWindow(w.log).Some? && OpenWindow(v.log).Some? {
      var win := OpenWindow(w.log).value;
      if Clock(v.log) < win.start + GuardSeconds(win.action) {
        WindowStep(w, v);
      }
    }
  }

  /** The run before the last event, and the step that event takes. */
  lemma RunStep(c: Settings, events: seq<Event>)
    requires Timed(events) && events != []
    ensures Timed(events[..|events| - 1])
    ensures Step(Run(c, events[..|events| - 1]), Run(c, events))
  {
    var before := events[..|events| - 1];
    if before != [] { assert before[|before| - 1] == events[|events| - 2]; }
    ApplySteps(Run(c, before), events[|events| - 1]);
  }

  lemma {:induction false} RunKeeps(c: Settings, events: seq<Event>)
    requires Timed(events)
    ensures Inv(Run(c, events))
  {
    if events != [] {
      RunStep(c, events);
      var before := events[..|events| - 1];
      RunKeeps(c, before);
      var w, v := Run(c, before), Run(c, events);
      StepKeepsArmed(w, v);
      StepKeepsWatch(w, v);
      StepKeepsAction(w, v);
      StepKeepsInhibit(w, v);
      StepKeepsWindow(w, v);
    }
  }
}
