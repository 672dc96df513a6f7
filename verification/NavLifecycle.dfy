/** The navigation job manager as interleaved steps: starters, stop calls, monitors, and a world
    in which process leaders and whole groups die at any moment. */
module NavLifecycle {
  import opened Wire

  /** A job token; the process group and the job directory it owns bear the same name. */
  type Token = nat

  datatype Phase = Idle | Starting | Running | Stopping | Failed

  datatype Refusal = ShuttingDown | AlreadyActive | NotReady

  // ----- the record under the manager's lock ----------------------------------------------

  datatype Manager = Manager(state: Phase, token: Option<Token>, stopRequested: bool, closing: bool,
                             pgid: Option<Token>, dir: Option<Token>, notified: Option<Token>)

  const NEW := Manager(Idle, None, false, false, None, None, None)

  predicate Active(m: Manager) {
    m.state.Starting? || m.state.Running? || m.state.Stopping?
  }

  function Admit(m: Manager, t: Token, ready: bool): Result<Manager, Refusal> {
    if m.closing then Err(ShuttingDown)
    else if Active(m) then Err(AlreadyActive)
    else if !ready then Err(NotReady)
    else Ok(m.(state := Starting, token := Some(t), stopRequested := false, notified := None))
  }

  predicate Cancelled(m: Manager, t: Token) {
    m.token != Some(t) || m.stopRequested
  }

  function Register(m: Manager, t: Token): Manager {
    m.(pgid := Some(t), dir := Some(t))
  }

  function Confirm(m: Manager): Manager {
    m.(state := Running)
  }

  /** The end of a failed start: only the current token's record is touched. */
  function SettleFailure(m: Manager, t: Token): Manager {
    if m.token == Some(t) then m.(state := Failed, pgid := None, dir := None) else m
  }

  predicate Stoppable(m: Manager) {
    !m.state.Idle?
  }

  function BeginStop(m: Manager): Manager {
    m.(state := Stopping, stopRequested := true)
  }

  /** The last section of a stop: no token is compared. */
  function FinishStop(m: Manager): Manager {
    m.(state := Idle, pgid := None, dir := None)
  }

  /** Whether a monitor whose leader has exited leaves the record alone. */
  predicate Unconcerned(m: Manager, t: Token) {
    m.token != Some(t) || m.state.Idle? || m.stopRequested || m.state.Stopping?
  }

  function TakeOver(m: Manager, t: Token): Manager {
    m.(state := Failed, pgid := None, dir := None, notified := Some(t))
  }

  // ----- the whole world ---------------------------------------------------------------------

  /** Where a start call stands. `Confirmed` has published the running state, `Watched` has
      launched the monitor; the last four are the exception path. */
  datatype StartPc =
    | Admitted | HasDir | Spawned | Registered | Confirmed | Watched
    | Killing | Cleaning | Settling | Finished

  datatype MonitorPc = Waiting | WillKill(dir: Option<Token>) | WillClean(dir: Option<Token>) | Gone

  /** Where a stop call stands, with what it captured in its first locked section. */
  datatype StopPc =
    | Called(closing: bool)
    | StopKill(token: Option<Token>, group: Option<Token>, dir: Option<Token>)
    | StopClean(token: Option<Token>, dir: Option<Token>)
    | StopFinish(token: Option<Token>)

  datatype World = World(m: Manager, live: set<Token>, leaders: set<Token>, dirs: set<Token>,
                         starters: map<Token, StartPc>, monitors: map<Token, MonitorPc>,
                         stops: map<nat, StopPc>)

  const BEGINNING := World(NEW, {}, {}, {}, map[], map[], map[])

  datatype Move =
    | Start(t: Token, ready: bool) | MakeDir(t: Token) | Spawn(t: Token) | RegisterStep(t: Token)
    | ConfirmStep(t: Token) | Launch(t: Token) | Return(t: Token)
    | Throw(t: Token) | KillStep(t: Token) | CleanStep(t: Token) | SettleStep(t: Token)
    | StopCall(id: nat, closing: bool) | BeginStopStep(id: nat) | StopKillStep(id: nat)
    | StopCleanStep(id: nat) | FinishStopStep(id: nat)
    | LeaderDies(t: Token) | GroupDies(t: Token)
    | Wake(t: Token) | MonitorKills(t: Token) | MonitorCleans(t: Token)

  predicate StarterAt(w: World, t: Token, pc: StartPc) {
    t in w.starters && w.starters[t] == pc
  }

  function Go(w: World, t: Token, pc: StartPc): World {
    w.(starters := w.starters[t := pc])
  }

  function Without(s: set<Token>, o: Option<Token>): set<Token> {
    if o.Some? then s - {o.value} else s
  }

  /** One step. A move that is not enabled leaves the world as it is. A start is not admitted
      while a stop call is running: callers hold one coordination lock around both. */
  function Perform(w: World, mv: Move): World {
    match mv
    case Start(t, ready) =>
      if t in w.starters || w.stops != map[] then w
      else (match Admit(w.m, t, ready)
            case Ok(m) => Go(w, t, Admitted).(m := m)
            case Err(_) => w)
    case MakeDir(t) =>
      if StarterAt(w, t, Admitted) then Go(w, t, HasDir).(dirs := w.dirs + {t}) else w
    case Spawn(t) =>
      if StarterAt(w, t, HasDir)
      then Go(w, t, Spawned).(live := w.live + {t}, leaders := w.leaders + {t}) else w
    case RegisterStep(t) =>
      if !StarterAt(w, t, Spawned) then w
      else if Cancelled(w.m, t) then Go(w, t, Killing)
      else Go(w, t, Registered).(m := Register(w.m, t))
    case ConfirmStep(t) =>
      if !StarterAt(w, t, Registered) then w
      else if Cancelled(w.m, t) then Go(w, t, Killing)
      else Go(w, t, Confirmed).(m := Confirm(w.m))
    case Launch(t) =>
      if StarterAt(w, t, Confirmed) then Go(w, t, Watched).(monitors := w.monitors[t := Waiting]) else w
    case Return(t) =>
      if StarterAt(w, t, Watched) then Go(w, t, Finished) else w
    case Throw(t) =>
      if t !in w.starters then w
      else (match w.starters[t]
            case Admitted => Go(w, t, Settling)
            case HasDir => Go(w, t, Cleaning)
            case Spawned | Registered | Confirmed | Watched => Go(w, t, Killing)
            case _ => w)
    case KillStep(t) =>
      if StarterAt(w, t, Killing)
      then Go(w, t, Cleaning).(live := w.live - {t}, leaders := w.leaders - {t}) else w
    case CleanStep(t) =>
      if StarterAt(w, t, Cleaning) then Go(w, t, Settling).(dirs := w.dirs - {t}) else w
    case SettleStep(t) =>
      if StarterAt(w, t, Settling) then Go(w, t, Finished).(m := SettleFailure(w.m, t)) else w
    case StopCall(id, closing) =>
      if id in w.stops then w
      else w.(stops := w.stops[id := Called(closing)], m := w.m.(closing := w.m.closing || closing))
    case BeginStopStep(id) =>
      if id !in w.stops || !w.stops[id].Called? then w
      else if !Stoppable(w.m) then w.(stops := w.stops - {id})
      else w.(stops := w.stops[id := StopKill(w.m.token, w.m.pgid, w.m.dir)], m := BeginStop(w.m))
    case StopKillStep(id) =>
      if id !in w.stops || !w.stops[id].StopKill? then w
      else w.(stops := w.stops[id := StopClean(w.stops[id].token, w.stops[id].dir)],
              live := Without(w.live, w.stops[id].group), leaders := Without(w.leaders, w.stops[id].group))
    case StopCleanStep(id) =>
      if id !in w.stops || !w.stops[id].StopClean? then w
      else w.(stops := w.stops[id := StopFinish(w.stops[id].token)],
              dirs := Without(w.dirs, w.stops[id].dir))
    case FinishStopStep(id) =>
      if id !in w.stops || !w.stops[id].StopFinish? then w
      else w.(stops := w.stops - {id}, m := FinishStop(w.m))
    case LeaderDies(t) => w.(leaders := w.leaders - {t})
    case GroupDies(t) => w.(live := w.live - {t}, leaders := w.leaders - {t})
    case Wake(t) =>
      if t !in w.monitors || !w.monitors[t].Waiting? || t in w.leaders then w
      else if Unconcerned(w.m, t) then w.(monitors := w.monitors[t := Gone])
      else w.(monitors := w.monitors[t := WillKill(w.m.dir)], m := TakeOver(w.m, t))
    case MonitorKills(t) =>
      if t !in w.monitors || !w.monitors[t].WillKill? then w
      else w.(monitors := w.monitors[t := WillClean(w.monitors[t].dir)],
              live := w.live - {t}, leaders := w.leaders - {t})
    case MonitorCleans(t) =>
      if t !in w.monitors || !w.monitors[t].WillClean? then w
      else w.(monitors := w.monitors[t := Gone], dirs := Without(w.dirs, w.monitors[t].dir))
  }

  function Run(moves: seq<Move>): World {
    if moves == [] then BEGINNING
    else Perform(Run(moves[..|moves| - 1]), moves[|moves| - 1])
  }

  // ----- who will take a group or a directory down ----------------------------------------------

  predicate StarterHolds(starters: map<Token, StartPc>, t: Token) {
    t in starters && (starters[t].Spawned? || starters[t].Killing?)
  }

  predicate MonitorHolds(monitors: map<Token, MonitorPc>, t: Token) {
    t in monitors && monitors[t].WillKill?
  }

  predicate Kills(pc: StopPc, t: Token) {
    pc.StopKill? && pc.group == Some(t)
  }

  ghost predicate StopHolds(stops: map<nat, StopPc>, t: Token) {
    exists id :: id in stops && Kills(stops[id], t)
  }

  ghost predicate GroupOwned(w: World, t: Token) {
    w.m.pgid == Some(t) || StarterHolds(w.starters, t) || MonitorHolds(w.monitors, t) || StopHolds(w.stops, t)
  }

  predicate StarterKeepsDir(starters: map<Token, StartPc>, t: Token) {
    t in starters && (starters[t].HasDir? || starters[t].Spawned? || starters[t].Killing? || starters[t].Cleaning?)
  }

  predicate MonitorKeepsDir(monitors: map<Token, MonitorPc>, t: Token) {
    && t in monitors && (monitors[t].WillKill? || monitors[t].WillClean?)
    && monitors[t].dir == Some(t)
  }

  predicate Cleans(pc: StopPc, t: Token) {
    (pc.StopKill? || pc.StopClean?) && pc.dir == Some(t)
  }

  ghost predicate StopKeepsDir(stops: map<nat, StopPc>, t: Token) {
    exists id :: id in stops && Cleans(stops[id], t)
  }

  ghost predicate DirOwned(w: World, t: Token) {
    w.m.dir == Some(t) || StarterKeepsDir(w.starters, t) || MonitorKeepsDir(w.monitors, t) ||
    StopKeepsDir(w.stops, t)
  }

  ghost predicate NothingForgotten(w: World) {
    && (forall t :: t in w.live ==> GroupOwned(w, t))
    && (forall t :: t in w.dirs ==> DirOwned(w, t))
    && w.leaders <= w.live
  }

  // ----- how the record, the calls and the threads fit together ------------------------------------

  predicate BeforeRunning(pc: StartPc) {
    pc.Admitted? || pc.HasDir? || pc.Spawned? || pc.Registered?
  }

  predicate Unregistered(pc: StartPc) {
    pc.Admitted? || pc.HasDir? || pc.Spawned?
  }

  predicate OnTheWayDown(pc: StartPc) {
    pc.Killing? || pc.Cleaning? || pc.Settling?
  }

  predicate Acting(pc: StopPc) {
    !pc.Called?
  }

  /** The record itself. */
  ghost predicate RecordFits(w: World) {
    && w.m.dir == w.m.pgid
    && (w.m.pgid.Some? ==> w.m.pgid == w.m.token && Active(w.m))
    && (w.m.state.Starting? || w.m.state.Running? ==> !w.m.stopRequested)
    && (w.m.token.Some? ==> w.m.token.value in w.starters)
    && (w.m.state.Starting? ==>
          w.m.token.Some? &&
          var pc := w.starters[w.m.token.value]; BeforeRunning(pc) || OnTheWayDown(pc))
    && (w.m.state.Running? ==>
          w.m.token.Some? && w.m.pgid == w.m.token && !BeforeRunning(w.starters[w.m.token.value]))
  }

  /** A starter that may still register or confirm finds the state it expects. */
  ghost predicate StarterFits(w: World, t: Token)
    requires t in w.starters
  {
    var pc := w.starters[t];
    && (BeforeRunning(pc) && !Cancelled(w.m, t) ==> w.m.state.Starting?)
    && (pc.Registered? && !Cancelled(w.m, t) ==> w.m.pgid == Some(t))
    && (pc.HasDir? || pc.Spawned? ==> t in w.dirs)
    && (Unregistered(pc) ==> w.m.pgid != Some(t))
    && (pc.Admitted? || pc.HasDir? || pc.Cleaning? || pc.Settling? ==> t !in w.live)
    && (pc.Admitted? || pc.Settling? ==> t !in w.dirs)
    && (BeforeRunning(pc) || pc.Confirmed? ==> t !in w.monitors)
    && (w.m.token == Some(t) && w.m.state.Running? && (pc.Watched? || pc.Finished?) ==> t in w.monitors)
    && (w.m.dir == Some(t) && !w.m.state.Stopping? && !OnTheWayDown(pc) ==> t in w.dirs)
  }

  /** A monitor that has woken no longer belongs to a running job. */
  ghost predicate MonitorFits(w: World, t: Token)
    requires t in w.monitors
  {
    && t in w.starters
    && (w.m.token == Some(t) && w.m.state.Running? ==> w.monitors[t].Waiting?)
    && (w.monitors[t].WillKill? || w.monitors[t].WillClean? ==>
          w.monitors[t].dir.None? || w.monitors[t].dir == Some(t))
    && (w.m.token == Some(t) && w.m.pgid.Some? && !w.m.stopRequested ==> w.monitors[t].Waiting?)
  }

  /** A stop call past its first section still sees the token it began with, and what it was
      to take down of the registered job is down when it says so. */
  ghost predicate StopFits(w: World, id: nat)
    requires id in w.stops
  {
    Acting(w.stops[id]) ==>
      && w.stops[id].token == w.m.token && w.m.stopRequested
      && !w.m.state.Starting? && !w.m.state.Running?
      && (w.m.pgid.Some? ==> HasSeen(w, w.stops[id], w.m.pgid.value))
      && Captured(w, w.stops[id])
  }

  predicate HasSeen(w: World, pc: StopPc, t: Token) {
    match pc
    case Called(_) => true
    case StopKill(_, group, dir) => group == Some(t) && dir == Some(t)
    case StopClean(_, dir) => t !in w.live && dir == Some(t)
    case StopFinish(_) => t !in w.live && t !in w.dirs
  }

  predicate Captured(w: World, pc: StopPc) {
    && (pc.StopKill? ==> pc.group == pc.dir)
    && ((pc.StopKill? || pc.StopClean?) && pc.dir.Some? ==>
          pc.dir == w.m.token && pc.dir.value in w.starters && !Unregistered(w.starters[pc.dir.value]))
  }

  ghost predicate AnyActing(stops: map<nat, StopPc>) {
    exists id :: id in stops && Acting(stops[id])
  }

  predicate Closes(pc: StopPc) {
    pc.Called? && pc.closing
  }

  ghost predicate AnyClosing(stops: map<nat, StopPc>) {
    exists id :: id in stops && Closes(stops[id])
  }

  ghost predicate CallsFit(w: World) {
    && (w.m.state.Stopping? ==> AnyActing(w.stops))
    && (w.m.closing && (w.m.state.Starting? || w.m.state.Running?) ==> AnyClosing(w.stops))
  }

  ghost predicate Inv(w: World) {
    && NothingForgotten(w) && RecordFits(w) && CallsFit(w)
    && (forall t :: t in w.starters ==> StarterFits(w, t))
    && (forall t :: t in w.monitors ==> MonitorFits(w, t))
    && (forall id :: id in w.stops ==> StopFits(w, id))
  }

  lemma StartKeeps(w: World, mv: Move)
    requires Inv(w) && (mv.Start? || mv.MakeDir? || mv.Spawn?)
    ensures Inv(Perform(w, mv))
  {}

  lemma RegisterKeeps(w: World, t: Token)
    requires Inv(w)
    ensures Inv(Perform(w, RegisterStep(t)))
  {}

  lemma ConfirmKeeps(w: World, t: Token)
    requires Inv(w)
    ensures Inv(Perform(w, ConfirmStep(t)))
  {}

  lemma LaunchKeeps(w: World, t: Token)
    requires Inv(w)
    ensures Inv(Perform(w, Launch(t)))
  {}

  lemma ReturnKeeps(w: World, t: Token)
    requires Inv(w)
    ensures Inv(Perform(w, Return(t)))
  {}

  lemma ThrowEarlyKeeps(w: World, t: Token)
    requires Inv(w) && (StarterAt(w, t, Admitted) || StarterAt(w, t, HasDir))
    ensures Inv(Perform(w, Throw(t)))
  {}

  lemma ThrowLateKeeps(w: World, t: Token)
    requires Inv(w) && !StarterAt(w, t, Admitted) && !StarterAt(w, t, HasDir)
    ensures Inv(Perform(w, Throw(t)))
  {}

  lemma WayDownKeeps(w: World, mv: Move)
    requires Inv(w) && (mv.KillStep? || mv.CleanStep?)
    ensures Inv(Perform(w, mv))
  {}

  lemma SettleKeeps(w: World, t: Token)
    requires Inv(w)
    ensures Inv(Perform(w, SettleStep(t)))
  {}

  /** Moving one stop call on changes no other. */
  lemma OtherStops(stops: map<nat, StopPc>, after: map<nat, StopPc>, id: nat)
    requires forall k :: k in stops && k != id ==> k in after && after[k] == stops[k]
    ensures forall t :: StopHolds(stops, t) && (id in stops ==> !Kills(stops[id], t)) ==> StopHolds(after, t)
    ensures forall t :: StopKeepsDir(stops, t) && (id in stops ==> !Cleans(stops[id], t)) ==> StopKeepsDir(after, t)
    ensures AnyActing(stops) && (id in stops ==> !Acting(stops[id])) ==> AnyActing(after)
    ensures AnyClosing(stops) && (id in stops ==> !Closes(stops[id])) ==> AnyClosing(after)
  {}

  lemma ThisStop(stops: map<nat, StopPc>, id: nat)
    requires id in stops
    ensures forall t :: Kills(stops[id], t) ==> StopHolds(stops, t)
    ensures forall t :: Cleans(stops[id], t) ==> StopKeepsDir(stops, t)
    ensures Acting(stops[id]) ==> AnyActing(stops)
    ensures Closes(stops[id]) ==> AnyClosing(stops)
  {}

  lemma StopCallKeeps(w: World, mv: Move)
    requires Inv(w) && mv.StopCall?
    ensures Inv(Perform(w, mv))
  {
    var after := Perform(w, mv);
    OtherStops(w.stops, after.stops, mv.id);
    if mv.id in after.stops {
      ThisStop(after.stops, mv.id);
    }
  }

  lemma StopBeginKeeps(w: World, mv: Move)
    requires Inv(w) && mv.BeginStopStep?
    ensures Inv(Perform(w, mv))
  {
    var after := Perform(w, mv);
    OtherStops(w.stops, after.stops, mv.id);
    if mv.id in after.stops {
      ThisStop(after.stops, mv.id);
    }
  }

  lemma StopKillKeeps(w: World, mv: Move)
    requires Inv(w) && mv.StopKillStep?
    ensures Inv(Perform(w, mv))
  {
    var after := Perform(w, mv);
    OtherStops(w.stops, after.stops, mv.id);
    if mv.id in after.stops {
      ThisStop(after.stops, mv.id);
    }
  }

  lemma StopEndKeeps(w: World, mv: Move)
    requires Inv(w) && (mv.StopCleanStep? || mv.FinishStopStep?)
    ensures Inv(Perform(w, mv))
  {
    var after := Perform(w, mv);
    OtherStops(w.stops, after.stops, mv.id);
    if mv.id in after.stops {
      ThisStop(after.stops, mv.id);
    }
  }

  lemma WakeKeeps(w: World, t: Token)
    requires Inv(w)
    ensures Inv(Perform(w, Wake(t)))
  {}

  lemma MonitorWorkKeeps(w: World, mv: Move)
    requires Inv(w) && (mv.MonitorKills? || mv.MonitorCleans?)
    ensures Inv(Perform(w, mv))
  {}

  lemma DeathKeeps(w: World, mv: Move)
    requires Inv(w) && (mv.LeaderDies? || mv.GroupDies?)
    ensures Inv(Perform(w, mv))
  {}

  lemma StepKeeps(w: World, mv: Move)
    requires Inv(w)
    ensures Inv(Perform(w, mv))
  {
    match mv
    case Start(_, _) | MakeDir(_) | Spawn(_) => StartKeeps(w, mv);
    case RegisterStep(t) => RegisterKeeps(w, t);
    case ConfirmStep(t) => ConfirmKeeps(w, t);
    case Launch(t) => LaunchKeeps(w, t);
    case Return(t) => ReturnKeeps(w, t);
    case Throw(t) =>
      if StarterAt(w, t, Admitted) || StarterAt(w, t, HasDir) { ThrowEarlyKeeps(w, t); } else { ThrowLateKeeps(w, t); }
    case KillStep(_) | CleanStep(_) => WayDownKeeps(w, mv);
    case SettleStep(t) => SettleKeeps(w, t);
    case StopCall(_, _) => StopCallKeeps(w, mv);
    case BeginStopStep(_) => StopBeginKeeps(w, mv);
    case StopKillStep(_) => StopKillKeeps(w, mv);
    case StopCleanStep(_) | FinishStopStep(_) => StopEndKeeps(w, mv);
    case LeaderDies(_) | GroupDies(_) => DeathKeeps(w, mv);
    case Wake(t) => WakeKeeps(w, t);
    case MonitorKills(_) | MonitorCleans(_) => MonitorWorkKeeps(w, mv);
  }

  lemma {:induction false} RunKeeps(moves: seq<Move>)
    ensures Inv(Run(moves))
  {
    if moves != [] {
      RunKeeps(moves[..|moves| - 1]);
      StepKeeps(Run(moves[..|moves| - 1]), moves[|moves| - 1]);
    }
  }

  // ----- what holds in every run -----------------------------------------------------------------

  /** No call is running and no monitor has work: it is gone, or waits on a living leader. */
  predicate Quiescent(w: World) {
    && w.stops == map[]
    && (forall t :: t in w.starters ==> w.starters[t].Finished?)
    && (forall t :: t in w.monitors ==> w.monitors[t].Gone? || (w.monitors[t].Waiting? && t in w.leaders))
  }

  /** Whatever the interleaving, a live group is the registered one of the current token, or
      some starter, stop call or monitor stands right before terminating it. */
  lemma EveryGroupHasAnOwner(moves: seq<Move>, t: Token)
    requires t in Run(moves).live
    ensures var w := Run(moves);
            || (w.m.pgid == Some(t) && w.m.token == Some(t) && Active(w.m))
            || (StarterAt(w, t, Spawned) || StarterAt(w, t, Killing))
            || (t in w.monitors && w.monitors[t].WillKill?)
            || (exists id :: id in w.stops && Kills(w.stops[id], t))
  {
    RunKeeps(moves);
  }

  /** At rest the live groups and the job directories are exactly those of the running job, its
      leader among the living; with no job running there are none. */
  lemma NoOrphans(moves: seq<Move>)
    requires Quiescent(Run(moves))
    ensures var w := Run(moves);
            match w.m.state
            case Running => w.m.token.Some? && var t := w.m.token.value;
                            w.live == {t} && w.leaders == {t} && w.dirs == {t} && w.m.pgid == Some(t)
            case Idle | Failed => w.live == {} && w.dirs == {}
            case Starting | Stopping => false
  {
    RunKeeps(moves);
    var w := Run(moves);
    NothingHeld(w);
    if w.m.state.Running? {
      var t := w.m.token.value;
      assert StarterFits(w, t) && w.starters[t].Finished?;
      assert MonitorFits(w, t) && t in w.leaders;
    }
  }

  lemma NothingHeld(w: World)
    requires Inv(w) && Quiescent(w)
    ensures forall t :: t in w.live ==> w.m.pgid == Some(t)
    ensures forall t :: t in w.dirs ==> w.m.dir == Some(t)
    ensures !w.m.state.Starting? && !w.m.state.Stopping?
  {
    assert w.m.token.Some? ==> w.starters[w.m.token.value].Finished?;
  }

  /** After the manager is closed no job is running at rest. */
  lemma ClosedIsEmpty(moves: seq<Move>)
    requires Quiescent(Run(moves)) && Run(moves).m.closing
    ensures Run(moves).live == {} && Run(moves).dirs == {}
  {
    RunKeeps(moves);
    NoOrphans(moves);
  }

  /** The token a starter's or monitor's step belongs to. */
  function Actor(mv: Move): Option<Token> {
    match mv
    case MakeDir(t) => Some(t) case Spawn(t) => Some(t) case RegisterStep(t) => Some(t)
    case ConfirmStep(t) => Some(t) case Launch(t) => Some(t) case Return(t) => Some(t)
    case Throw(t) => Some(t) case KillStep(t) => Some(t) case CleanStep(t) => Some(t)
    case SettleStep(t) => Some(t) case Wake(t) => Some(t) case MonitorKills(t) => Some(t)
    case MonitorCleans(t) => Some(t)
    case _ => None
  }

  /** A starter or monitor of an older token changes nothing of the manager's record, and of the
      world only its own group and directory. */
  lemma StaleActorsAreHarmless(moves: seq<Move>, mv: Move, t: Token)
    requires Actor(mv) == Some(t) && Run(moves).m.token != Some(t)
    ensures var w, after := Run(moves), Perform(Run(moves), mv);
            && after.m == w.m && after.stops == w.stops
            && forall u :: u != t ==> (u in after.live <==> u in w.live) && (u in after.dirs <==> u in w.dirs)
  {
    RunKeeps(moves);
    StaleMove(Run(moves), mv, t);
  }

  lemma StaleMove(w: World, mv: Move, t: Token)
    requires Inv(w) && Actor(mv) == Some(t) && w.m.token != Some(t)
    ensures var after := Perform(w, mv);
            && after.m == w.m && after.stops == w.stops
            && forall u :: u != t ==> (u in after.live <==> u in w.live) && (u in after.dirs <==> u in w.dirs)
  {
    if mv.MonitorCleans? && t in w.monitors {
      assert MonitorFits(w, t);
    }
  }

  /** The unguarded last section of a stop only ever clears the token the stop began with, and
      leaves neither its group nor its directory behind. */
  lemma StopEndsItsOwnJob(moves: seq<Move>, id: nat)
    requires var w := Run(moves); id in w.stops && w.stops[id].StopFinish?
    ensures var w := Run(moves);
            && w.stops[id].token == w.m.token
            && (w.m.pgid.Some? ==> w.m.pgid.value !in w.live && w.m.pgid.value !in w.dirs)
  {
    RunKeeps(moves);
    assert StopFits(Run(moves), id);
  }

  // ----- a stop takes its job down ----------------------------------------------------------------

  /** The first section of a stop acts exactly when there is a job to stop, running, on its way up
      or down, or failed; it then captures the registered group and directory. */
  lemma StopActsOnAnyJob(moves: seq<Move>, id: nat)
    requires id in Run(moves).stops && Run(moves).stops[id].Called?
    ensures var w, after := Run(moves), Perform(Run(moves), BeginStopStep(id));
            if w.m.state.Starting? || w.m.state.Running? || w.m.state.Stopping? || w.m.state.Failed? then
              && id in after.stops && after.stops[id] == StopKill(w.m.token, w.m.pgid, w.m.dir)
              && after.m.state.Stopping? && after.m.stopRequested
            else id !in after.stops && after.m == w.m
  {}

  /** The last section of a stop leaves no job behind. */
  lemma StopEndsIdle(moves: seq<Move>, id: nat)
    requires id in Run(moves).stops && Run(moves).stops[id].StopFinish?
    ensures var after := Perform(Run(moves), FinishStopStep(id));
            after.m.state.Idle? && after.m.pgid.None? && after.m.dir.None? && id !in after.stops
  {}

  /** The `j`-th move is a start that is admitted. */
  predicate AdmittedAt(moves: seq<Move>, j: nat)
    requires j < |moves|
  {
    moves[j].Start? && moves[j].t !in Run(moves[..j]).starters && moves[j].t in Run(moves[..j + 1]).starters
  }

  predicate NoneAdmitted(moves: seq<Move>, i: nat) {
    forall j: nat :: i <= j < |moves| ==> !AdmittedAt(moves, j)
  }

  /** A stop has been asked for and nothing has been admitted since, or nothing was ever. */
  predicate Over(w: World) {
    w.m.stopRequested || w.m.token.None?
  }

  ghost predicate IdleIsOver(w: World) {
    w.m.state.Idle? ==> Over(w)
  }

  lemma {:induction false} IdleStaysOver(moves: seq<Move>)
    ensures IdleIsOver(Run(moves))
  {
    if moves != [] {
      var before := moves[..|moves| - 1];
      IdleStaysOver(before);
      RunKeeps(before);
      IdleStep(Run(before), moves[|moves| - 1]);
    }
  }

  lemma IdleStep(w: World, mv: Move)
    requires Inv(w) && IdleIsOver(w)
    ensures IdleIsOver(Perform(w, mv))
  {
    if mv.FinishStopStep? && mv.id in w.stops {
      assert StopFits(w, mv.id);
    }
  }

  /** The stop called is still to begin, or it has had its effect. */
  predicate StopPends(w: World, id: nat) {
    (id in w.stops && w.stops[id].Called?) || Over(w)
  }

  lemma StopStep(w: World, mv: Move, id: nat)
    requires StopPends(w, id) && IdleIsOver(w)
    requires !(mv.Start? && mv.t !in w.starters && mv.t in Perform(w, mv).starters)
    ensures StopPends(Perform(w, mv), id)
  {}

  lemma {:induction false} StopTakesHold(moves: seq<Move>, i: nat, id: nat)
    requires i < |moves| && moves[i].StopCall? && moves[i].id == id && id !in Run(moves[..i]).stops
    requires NoneAdmitted(moves, i)
    ensures StopPends(Run(moves), id)
  {
    var n := |moves| - 1;
    var before := moves[..n];
    if i == n {
      assert moves[..i] == before;
    } else {
      assert before[..i] == moves[..i];
      forall j: nat | i <= j < |before| ensures !AdmittedAt(before, j) {
        assert before[..j] == moves[..j] && before[..j + 1] == moves[..j + 1] && !AdmittedAt(moves, j);
      }
      StopTakesHold(before, i, id);
      IdleStaysOver(before);
      assert !AdmittedAt(moves, n) && moves[..n + 1] == moves;
      StopStep(Run(before), moves[n], id);
    }
  }

  /** A starter's failure that settles into the record after all. */
  predicate Fails(w: World, mv: Move) {
    mv.SettleStep? && StarterAt(w, mv.t, Settling) && w.m.token == Some(mv.t)
  }

  /** The end of a stop. */
  predicate Ends(w: World, mv: Move) {
    mv.FinishStopStep? && mv.id in w.stops && w.stops[mv.id].StopFinish?
  }

  /** The last of a run's starter failures and stop ends is a failure. */
  predicate FailedLast(moves: seq<Move>) {
    moves != [] &&
    var before, mv := moves[..|moves| - 1], moves[|moves| - 1];
    Fails(Run(before), mv) || (!Ends(Run(before), mv) && FailedLast(before))
  }

  predicate OutcomeFits(w: World, failedLast: bool) {
    && (w.m.state.Idle? ==> !failedLast)
    && (w.m.state.Failed? && w.m.stopRequested ==> failedLast)
    && (w.m.token.None? ==> w.m.state.Idle?)
  }

  lemma OutcomeStep(w: World, mv: Move, failedLast: bool)
    requires OutcomeFits(w, failedLast)
    ensures OutcomeFits(Perform(w, mv), Fails(w, mv) || (!Ends(w, mv) && failedLast))
  {}

  lemma {:induction false} OutcomeIsLast(moves: seq<Move>)
    ensures OutcomeFits(Run(moves), FailedLast(moves))
  {
    if moves != [] {
      var before := moves[..|moves| - 1];
      OutcomeIsLast(before);
      OutcomeStep(Run(before), moves[|moves| - 1], FailedLast(before));
    }
  }

  lemma RestAfterStop(w: World, failedLast: bool)
    requires RecordFits(w) && OutcomeFits(w, failedLast) && Over(w) && !w.m.state.Stopping?
    ensures w.m.state == if failedLast then Failed else Idle
  {}

  /** Whatever the interleaving: at rest after a stop, with no start admitted since, no group and
      no job directory is left. The record is idle, unless the stopped start reported its own
      failure after the last stop had ended. */
  lemma StopTakesTheJobDown(moves: seq<Move>, i: nat)
    requires i < |moves| && moves[i].StopCall? && moves[i].id !in Run(moves[..i]).stops
    requires NoneAdmitted(moves, i) && Quiescent(Run(moves))
    ensures Run(moves).live == {} && Run(moves).dirs == {}
    ensures Run(moves).m.state == if FailedLast(moves) then Failed else Idle
  {
    RunKeeps(moves);
    StopTakesHold(moves, i, moves[i].id);
    OutcomeIsLast(moves);
    NothingHeld(Run(moves));
    RestAfterStop(Run(moves), FailedLast(moves));
    NoOrphans(moves);
  }

  const LATE_FAILURE: seq<Move> :=
    [Start(1, true), StopCall(0, false), BeginStopStep(0), StopKillStep(0), StopCleanStep(0), FinishStopStep(0),
     Throw(1), SettleStep(1)]

  lemma RunStep(moves: seq<Move>, k: nat)
    requires k < |moves|
    ensures Run(moves[..k + 1]) == Perform(Run(moves[..k]), moves[k])
  {
    assert moves[..k + 1][..k] == moves[..k];
  }

  /** A whole stop of a start that has registered nothing yet. */
  function StopAlone(w: World, id: nat): World {
    var called := Perform(w, StopCall(id, false));
    var begun := Perform(called, BeginStopStep(id));
    Perform(Perform(Perform(begun, StopKillStep(id)), StopCleanStep(id)), FinishStopStep(id))
  }

  lemma StopEnds(w: World, id: nat, token: Option<Token>)
    requires w.stops == map[id := StopKill(token, None, None)]
    ensures Perform(Perform(Perform(w, StopKillStep(id)), StopCleanStep(id)), FinishStopStep(id))
            == w.(stops := map[], m := FinishStop(w.m))
  {
    var killed := Perform(w, StopKillStep(id));
    assert killed == w.(stops := map[id := StopClean(token, None)]);
    var cleaned := Perform(killed, StopCleanStep(id));
    assert cleaned == w.(stops := map[id := StopFinish(token)]);
  }

  lemma StopOfUnregistered(w: World, id: nat)
    requires w.stops == map[] && w.m.state.Starting? && w.m.pgid.None? && w.m.dir.None?
    ensures StopAlone(w, id) == w.(m := w.m.(state := Idle, stopRequested := true))
  {
    var called := Perform(w, StopCall(id, false));
    assert called == w.(stops := map[id := Called(false)]);
    var begun := Perform(called, BeginStopStep(id));
    assert begun == w.(stops := map[id := StopKill(w.m.token, None, None)], m := BeginStop(w.m));
    StopEnds(begun, id, w.m.token);
  }

  lemma StopRuns(ms: seq<Move>)
    requires ms == LATE_FAILURE
    ensures Run(ms[..6]) == StopAlone(Run(ms[..1]), 0)
  {
    RunStep(ms, 1);
    RunStep(ms, 2);
    RunStep(ms, 3);
    RunStep(ms, 4);
    RunStep(ms, 5);
  }

  lemma StartRuns(ms: seq<Move>)
    requires ms == LATE_FAILURE
    ensures Run(ms[..1]) == Go(BEGINNING, 1, Admitted).(m := NEW.(state := Starting, token := Some(1)))
  {
    RunStep(ms, 0);
    assert ms[..0] == [];
  }

  lemma FailureRuns(w: World, t: Token)
    requires StarterAt(w, t, Admitted) && w.m.token == Some(t)
    ensures Perform(Perform(w, Throw(t)), SettleStep(t)) == Go(w, t, Finished).(m := SettleFailure(w.m, t))
  {
    var thrown := Perform(w, Throw(t));
    assert Perform(thrown, SettleStep(t)).starters == w.starters[t := Finished];
  }

  lemma FailureIsLast(ms: seq<Move>)
    requires ms == LATE_FAILURE
    ensures Quiescent(Run(ms)) && Run(ms).m.state.Failed?
  {
    StartRuns(ms);
    StopRuns(ms);
    StopOfUnregistered(Run(ms[..1]), 0);
    FailureRuns(Run(ms[..6]), 1);
    RunStep(ms, 6);
    RunStep(ms, 7);
    assert ms[..8] == ms;
  }

  /** A record left failed by a stopped start: its failure settles after the stop has ended, since
      the stop keeps the token. */
  lemma StopThenFailure()
    ensures Quiescent(Run(LATE_FAILURE)) && Run(LATE_FAILURE).m.state.Failed?
    ensures LATE_FAILURE[1].StopCall? && NoneAdmitted(LATE_FAILURE, 1)
  {
    var ms := LATE_FAILURE;
    assert forall j: nat :: 1 <= j < |ms| ==> !ms[j].Start?;
    FailureIsLast(ms);
  }
}
