/** What the navigation job manager gets done: when a start is admitted and comes up, what a failed or
    cancelled start leaves, and what becomes of a job whose leader dies. */
module NavStarts {
  import opened Wire
  import opened NavLifecycle

  // ----- readings of a history --------------------------------------------------------------------

  /** The start admitted last. */
  function LastAdmitted(moves: seq<Move>): Option<Token> {
    if moves == [] then None
    else if AdmittedAt(moves, |moves| - 1) then Some(moves[|moves| - 1].t)
    else LastAdmitted(moves[..|moves| - 1])
  }

  predicate Begins(w: World, mv: Move) {
    && mv.BeginStopStep? && mv.id in w.stops && w.stops[mv.id].Called?
    && mv.id in Perform(w, mv).stops && Perform(w, mv).stops[mv.id].StopKill?
  }

  /** A stop has begun since the last admission. */
  predicate StopBegun(moves: seq<Move>) {
    moves != [] &&
    var n := |moves| - 1;
    !AdmittedAt(moves, n) && (Begins(Run(moves[..n]), moves[n]) || StopBegun(moves[..n]))
  }

  /** The manager has been asked to close. */
  predicate ClosedDown(moves: seq<Move>) {
    moves != [] &&
    var n := |moves| - 1;
    || (moves[n].StopCall? && moves[n].closing && moves[n].id !in Run(moves[..n]).stops)
    || ClosedDown(moves[..n])
  }

  lemma AdmissionStep(w: World, mv: Move)
    ensures var admitted := mv.Start? && mv.t !in w.starters && mv.t in Perform(w, mv).starters;
            var v := Perform(w, mv);
            && v.m.token == (if admitted then Some(mv.t) else w.m.token)
            && v.m.stopRequested == (!admitted && (Begins(w, mv) || w.m.stopRequested))
            && v.m.closing == ((mv.StopCall? && mv.closing && mv.id !in w.stops) || w.m.closing)
  {}

  /** The record's token and its two flags are readings of the history. */
  lemma {:induction false} HistoryTells(moves: seq<Move>)
    ensures var m := Run(moves).m;
            m.token == LastAdmitted(moves) && m.stopRequested == StopBegun(moves) && m.closing == ClosedDown(moves)
  {
    if moves != [] {
      var n := |moves| - 1;
      HistoryTells(moves[..n]);
      AdmissionStep(Run(moves[..n]), moves[n]);
      assert moves[..n + 1] == moves;
    }
  }

  /** A new start is admitted exactly when no stop call is running, the manager has not been asked
      to close, the state is idle or failed, and the prerequisites are there. */
  lemma AdmitsExactly(moves: seq<Move>, t: Token, ready: bool)
    requires t !in Run(moves).starters
    ensures var w, v := Run(moves), Perform(Run(moves), Start(t, ready));
            && (t in v.starters <==>
                  w.stops == map[] && !ClosedDown(moves) && (w.m.state.Idle? || w.m.state.Failed?) && ready)
            && (t in v.starters ==> v.m.state.Starting? && v.starters == w.starters[t := Admitted])
            && (t !in v.starters ==> v == w)
  {
    HistoryTells(moves);
  }

  /** A start is cancelled exactly when another was admitted or a stop has begun since its own
      admission. */
  lemma CancelledExactly(moves: seq<Move>, t: Token)
    ensures Cancelled(Run(moves).m, t) <==> LastAdmitted(moves) != Some(t) || StopBegun(moves)
  {
    HistoryTells(moves);
  }

  // ----- stretches of moves -------------------------------------------------------------------------

  function After(w: World, ms: seq<Move>): World
    decreases |ms|
  {
    if ms == [] then w else After(Perform(w, ms[0]), ms[1..])
  }

  lemma {:induction false} RunOn(moves: seq<Move>, ms: seq<Move>)
    ensures Run(moves + ms) == After(Run(moves), ms)
    decreases |ms|
  {
    if ms == [] {
      assert moves + ms == moves;
    } else {
      var longer := moves + [ms[0]];
      assert longer[..|moves|] == moves;
      RunOn(longer, ms[1..]);
      assert longer + ms[1..] == moves + ms;
    }
  }

  lemma AfterOne(w: World, a: Move, ms: seq<Move>)
    ensures After(w, [a] + ms) == After(Perform(w, a), ms)
  {
    assert ([a] + ms)[1..] == ms;
  }

  lemma AfterTwo(w: World, a: Move, b: Move)
    ensures After(w, [a, b]) == Perform(Perform(w, a), b)
  {
    AfterOne(w, a, [b]);
    AfterOne(Perform(w, a), b, []);
    assert [a] + [b] == [a, b] && [b] + [] == [b];
  }

  lemma AfterThree(w: World, a: Move, b: Move, c: Move)
    ensures After(w, [a, b, c]) == Perform(Perform(Perform(w, a), b), c)
  {
    AfterOne(w, a, [b, c]);
    AfterTwo(Perform(w, a), b, c);
    assert [a] + [b, c] == [a, b, c];
  }

  lemma AfterFour(w: World, a: Move, b: Move, c: Move, d: Move)
    ensures After(w, [a, b, c, d]) == Perform(Perform(Perform(Perform(w, a), b), c), d)
  {
    AfterOne(w, a, [b, c, d]);
    AfterThree(Perform(w, a), b, c, d);
    assert [a] + [b, c, d] == [a, b, c, d];
  }

  lemma {:induction false} AfterJoins(w: World, a: seq<Move>, b: seq<Move>)
    ensures After(w, a + b) == After(After(w, a), b)
    decreases |a|
  {
    if a == [] {
      assert a + b == b;
    } else {
      assert (a + b)[1..] == a[1..] + b;
      AfterJoins(Perform(w, a[0]), a[1..], b);
    }
  }

  // ----- a start comes up --------------------------------------------------------------------------------

  lemma Spawns(w: World, t: Token)
    requires StarterAt(w, t, Admitted)
    ensures After(w, [MakeDir(t), Spawn(t)]) ==
            Go(w, t, Spawned).(dirs := w.dirs + {t}, live := w.live + {t}, leaders := w.leaders + {t})
  {
    AfterTwo(w, MakeDir(t), Spawn(t));
    var made := Perform(w, MakeDir(t));
    assert made.starters[t := Spawned] == w.starters[t := Spawned];
  }

  lemma Confirms(w: World, t: Token)
    requires StarterAt(w, t, Spawned) && w.m.token == Some(t) && !w.m.stopRequested
    ensures Perform(Perform(w, RegisterStep(t)), ConfirmStep(t)) ==
            Go(w, t, Confirmed).(m := w.m.(state := Running, pgid := Some(t), dir := Some(t)))
  {
    var registered := Perform(w, RegisterStep(t));
    assert registered == Go(w, t, Registered).(m := Register(w.m, t));
    assert registered.starters[t := Confirmed] == w.starters[t := Confirmed];
  }

  lemma Watches(w: World, t: Token)
    requires StarterAt(w, t, Confirmed)
    ensures Perform(Perform(w, Launch(t)), Return(t)) == Go(w, t, Finished).(monitors := w.monitors[t := Waiting])
  {
    var watched := Perform(w, Launch(t));
    assert watched.starters[t := Finished] == w.starters[t := Finished];
  }

  lemma ComesUp(w: World, t: Token)
    requires StarterAt(w, t, Spawned) && w.m.token == Some(t) && !w.m.stopRequested
    ensures After(w, [RegisterStep(t), ConfirmStep(t), Launch(t), Return(t)]) ==
            Go(w, t, Finished).(m := w.m.(state := Running, pgid := Some(t), dir := Some(t)),
                                monitors := w.monitors[t := Waiting])
  {
    AfterFour(w, RegisterStep(t), ConfirmStep(t), Launch(t), Return(t));
    Confirms(w, t);
    var confirmed := Perform(Perform(w, RegisterStep(t)), ConfirmStep(t));
    Watches(confirmed, t);
    assert confirmed.starters[t := Finished] == w.starters[t := Finished];
  }

  function StartMoves(t: Token): seq<Move> {
    [Start(t, true)] + ([MakeDir(t), Spawn(t)] + [RegisterStep(t), ConfirmStep(t), Launch(t), Return(t)])
  }

  /** In any history, a start that is admitted and not interfered with ends with its job running:
      its group and directory are there and registered, and its monitor waits. */
  lemma StartComesUp(moves: seq<Move>, t: Token)
    requires var w := Run(moves);
             t !in w.starters && w.stops == map[] && !ClosedDown(moves) && (w.m.state.Idle? || w.m.state.Failed?)
    ensures var w, v := Run(moves), Run(moves + StartMoves(t));
            && v.m.state.Running? && v.m.token == Some(t) && v.m.pgid == Some(t) && v.m.dir == Some(t)
            && v.live == w.live + {t} && v.leaders == w.leaders + {t} && v.dirs == w.dirs + {t}
            && v.starters == w.starters[t := Finished] && v.monitors == w.monitors[t := Waiting]
            && v.stops == map[] && !v.m.stopRequested
  {
    var w := Run(moves);
    AdmitsExactly(moves, t, true);
    RunOn(moves, StartMoves(t));
    var first, rest := [MakeDir(t), Spawn(t)], [RegisterStep(t), ConfirmStep(t), Launch(t), Return(t)];
    AfterOne(w, Start(t, true), first + rest);
    var admitted := Perform(w, Start(t, true));
    AfterJoins(admitted, first, rest);
    Spawns(admitted, t);
    var spawned := After(admitted, first);
    ComesUp(spawned, t);
    assert spawned.starters[t := Finished] == w.starters[t := Finished];
  }

  /** And it leaves a world at rest at rest. */
  lemma StartComesToRest(moves: seq<Move>, t: Token)
    requires var w := Run(moves);
             t !in w.starters && Quiescent(w) && !ClosedDown(moves) && (w.m.state.Idle? || w.m.state.Failed?)
    ensures Quiescent(Run(moves + StartMoves(t))) && Run(moves + StartMoves(t)).m.state.Running?
  {
    StartComesUp(moves, t);
  }

  // ----- a start fails -------------------------------------------------------------------------------------

  predicate CanThrow(pc: StartPc) {
    !OnTheWayDown(pc) && !pc.Finished?
  }

  function WayDown(t: Token): seq<Move> {
    [KillStep(t), CleanStep(t), SettleStep(t)]
  }

  predicate CleanedUp(w: World, v: World, t: Token) {
    && StarterAt(v, t, Finished) && v.live == w.live - {t} && v.dirs == w.dirs - {t}
    && v.monitors == w.monitors && v.stops == w.stops
    && v.m == SettleFailure(w.m, t)
  }

  lemma KillsOwn(w: World, t: Token)
    requires t in w.starters && OnTheWayDown(w.starters[t]) && StarterFits(w, t)
    ensures var v := Perform(w, KillStep(t));
            && t in v.starters && (v.starters[t].Cleaning? || (v.starters[t].Settling? && t !in w.dirs))
            && v.live == w.live - {t} && v.dirs == w.dirs && v.m == w.m
            && v.monitors == w.monitors && v.stops == w.stops
  {}

  lemma CleansOwn(w: World, t: Token)
    requires t in w.starters && (w.starters[t].Cleaning? || (w.starters[t].Settling? && t !in w.dirs))
    ensures var v := Perform(Perform(w, CleanStep(t)), SettleStep(t));
            && StarterAt(v, t, Finished) && v.live == w.live && v.dirs == w.dirs - {t} && v.m == SettleFailure(w.m, t)
            && v.monitors == w.monitors && v.stops == w.stops
  {}

  lemma GoesDown(w: World, t: Token)
    requires t in w.starters && OnTheWayDown(w.starters[t]) && StarterFits(w, t)
    ensures CleanedUp(w, After(w, WayDown(t)), t)
  {
    AfterThree(w, KillStep(t), CleanStep(t), SettleStep(t));
    KillsOwn(w, t);
    CleansOwn(Perform(w, KillStep(t)), t);
  }

  lemma ThrowsDown(w: World, t: Token)
    requires t in w.starters && CanThrow(w.starters[t])
    ensures var v := Perform(w, Throw(t));
            && t in v.starters && OnTheWayDown(v.starters[t]) && v == w.(starters := v.starters)
  {}

  lemma ChecksDown(w: World, t: Token, check: Move)
    requires StarterAt(w, t, Spawned) || StarterAt(w, t, Registered)
    requires check == (if StarterAt(w, t, Spawned) then RegisterStep(t) else ConfirmStep(t)) && Cancelled(w.m, t)
    ensures Perform(w, check) == Go(w, t, Killing)
  {}

  /** In any history, a start that throws wherever it stands takes its own group and directory down
      and nothing else, and the record is failed if it is still its own. */
  lemma FailureCleansUp(moves: seq<Move>, t: Token)
    requires t in Run(moves).starters && CanThrow(Run(moves).starters[t])
    ensures var w, v := Run(moves), Run(moves + ([Throw(t)] + WayDown(t)));
            && CleanedUp(w, v, t)
            && (LastAdmitted(moves) == Some(t) ==> v.m.state.Failed? && v.m.pgid.None?)
  {
    var w := Run(moves);
    HistoryTells(moves);
    RunOn(moves, [Throw(t)] + WayDown(t));
    AfterOne(w, Throw(t), WayDown(t));
    ThrowsDown(w, t);
    StillFits(moves, Throw(t), t);
    GoesDown(Perform(w, Throw(t)), t);
  }

  lemma StillFits(moves: seq<Move>, mv: Move, t: Token)
    requires t in Perform(Run(moves), mv).starters
    ensures StarterFits(Perform(Run(moves), mv), t)
  {
    RunKeeps(moves);
    StepKeeps(Run(moves), mv);
  }

  /** A start that a stop has begun to cancel, or that another has replaced, goes down at its next
      check. */
  lemma CancelledStartGoesDown(moves: seq<Move>, t: Token)
    requires StarterAt(Run(moves), t, Spawned) || StarterAt(Run(moves), t, Registered)
    requires LastAdmitted(moves) != Some(t) || StopBegun(moves)
    ensures var check := if StarterAt(Run(moves), t, Spawned) then RegisterStep(t) else ConfirmStep(t);
            CleanedUp(Run(moves), Run(moves + ([check] + WayDown(t))), t)
  {
    var w := Run(moves);
    var check := if StarterAt(w, t, Spawned) then RegisterStep(t) else ConfirmStep(t);
    CancelledExactly(moves, t);
    RunOn(moves, [check] + WayDown(t));
    AfterOne(w, check, WayDown(t));
    ChecksDown(w, t, check);
    StillFits(moves, check, t);
    GoesDown(Perform(w, check), t);
  }

  // ----- a leader dies ---------------------------------------------------------------------------------------

  /** The terminal notice of a job has gone out only if its monitor has woken. */
  ghost predicate NoticeFits(w: World) {
    w.m.notified.Some? ==> w.m.notified.value in w.monitors && !w.monitors[w.m.notified.value].Waiting?
  }

  lemma NoticeStep(w: World, mv: Move)
    requires Inv(w) && NoticeFits(w)
    ensures NoticeFits(Perform(w, mv))
  {
    if mv.Launch? && StarterAt(w, mv.t, Confirmed) {
      assert StarterFits(w, mv.t);
    }
  }

  lemma {:induction false} NoticesFit(moves: seq<Move>)
    ensures NoticeFits(Run(moves))
  {
    if moves != [] {
      NoticesFit(moves[..|moves| - 1]);
      RunKeeps(moves[..|moves| - 1]);
      NoticeStep(Run(moves[..|moves| - 1]), moves[|moves| - 1]);
    }
  }

  /** The monitor that finds its running job's leader dead has not given notice before, and does so
      then: there is exactly one notice for each job that ends by itself. */
  lemma NoticeIsGivenOnce(moves: seq<Move>, t: Token)
    requires t in Run(moves).monitors && Run(moves).monitors[t].Waiting? && t !in Run(moves).leaders
    ensures Run(moves).m.notified != Some(t)
    ensures var v := Perform(Run(moves), Wake(t));
            (v.m.notified == Some(t) <==> v.monitors[t].WillKill?) && !v.monitors[t].Waiting?
  {
    NoticesFit(moves);
  }

  function EndMoves(t: Token): seq<Move> {
    [LeaderDies(t), Wake(t), MonitorKills(t), MonitorCleans(t)]
  }

  lemma WakesUp(w: World, t: Token)
    requires RecordFits(w) && w.m.state.Running? && w.m.token == Some(t) && w.m.dir == Some(t)
    requires t in w.monitors && w.monitors[t].Waiting?
    ensures Perform(Perform(w, LeaderDies(t)), Wake(t)) ==
            w.(leaders := w.leaders - {t}, monitors := w.monitors[t := WillKill(Some(t))], m := TakeOver(w.m, t))
  {}

  lemma MonitorEnds(w: World, t: Token)
    requires t in w.monitors && w.monitors[t] == WillKill(Some(t))
    ensures var v := Perform(Perform(w, MonitorKills(t)), MonitorCleans(t));
            && v.m == w.m && v.live == w.live - {t} && v.dirs == w.dirs - {t} && v.monitors == w.monitors[t := Gone]
  {
    var killed := Perform(w, MonitorKills(t));
    assert killed.monitors == w.monitors[t := WillClean(Some(t))];
    assert killed.monitors[t := Gone] == w.monitors[t := Gone];
  }

  lemma TornDown(w: World, t: Token)
    requires RecordFits(w) && w.m.state.Running? && w.m.token == Some(t) && w.m.dir == Some(t)
    requires t in w.monitors && w.monitors[t].Waiting?
    ensures var v := After(w, EndMoves(t));
            && v.m.state.Failed? && v.m.pgid.None? && v.m.dir.None? && v.m.notified == Some(t)
            && v.live == w.live - {t} && v.dirs == w.dirs - {t} && v.monitors == w.monitors[t := Gone]
  {
    AfterFour(w, LeaderDies(t), Wake(t), MonitorKills(t), MonitorCleans(t));
    WakesUp(w, t);
    var woken := Perform(Perform(w, LeaderDies(t)), Wake(t));
    MonitorEnds(woken, t);
    assert w.monitors[t := WillKill(Some(t))][t := Gone] == w.monitors[t := Gone];
  }

  /** In any history, when the leader of the running job dies at rest, its monitor takes the rest of
      the group and the directory down, and leaves the record failed and noticed. */
  lemma DeadLeaderIsCleanedUp(moves: seq<Move>, t: Token)
    requires Quiescent(Run(moves)) && Run(moves).m.state.Running? && Run(moves).m.token == Some(t)
    ensures var v := Run(moves + EndMoves(t));
            && v.m.state.Failed? && v.m.notified == Some(t) && v.live == {} && v.dirs == {} && Quiescent(v)
  {
    var w := Run(moves);
    RunKeeps(moves);
    NoOrphans(moves);
    assert StarterFits(w, t) && w.starters[t].Finished?;
    assert MonitorFits(w, t);
    RunOn(moves, EndMoves(t));
    TornDown(w, t);
    var v := Run(moves + EndMoves(t));
    OnlyMonitorsMove(w, t);
    forall u | u in v.monitors
      ensures v.monitors[u].Gone? || (v.monitors[u].Waiting? && u in v.leaders)
    {
      assert u in w.monitors && w.monitors[u].Waiting? ==> u in w.leaders;
    }
  }

  lemma OnlyMonitorsMove(w: World, t: Token)
    ensures After(w, EndMoves(t)).stops == w.stops && After(w, EndMoves(t)).starters == w.starters
  {
    AfterFour(w, LeaderDies(t), Wake(t), MonitorKills(t), MonitorCleans(t));
  }
}
