/** What the watchdog promises over whole runs, read off the log of any run. */
module BridgeTheorems {
  import opened Wire
  import opened SportApi
  import opened BridgeCore
  import opened BridgeRuns

  // ----- runs and their prefixes ------------------------------------------------------

  /** The log of some run at nondecreasing times. */
  ghost predicate IsLog(c: Settings, log: seq<Entry>) {
    exists events :: Timed(events) && Run(c, events).log == log
  }

  lemma {:induction false} LogShape(c: Settings, events: seq<Event>)
    ensures |Run(c, events).log| == |events|
    ensures forall i | 0 <= i < |events| :: Run(c, events).log[i].at == events[i].at
  {
    if events != [] {
      LogShape(c, events[..|events| - 1]);
    }
  }

  lemma {:induction false} LogPrefix(c: Settings, events: seq<Event>, n: nat)
    requires n <= |events|
    ensures |Run(c, events).log| == |events|
    ensures Run(c, events[..n]).log == Run(c, events).log[..n]
  {
    LogShape(c, events);
    if n == |events| {
      assert events[..n] == events;
    } else {
      var before, last := events[..|events| - 1], events[|events| - 1];
      LogPrefix(c, before, n);
      assert before[..n] == events[..n];
      ApplyAppends(Run(c, before), last);
      assert Run(c, events) == Apply(Run(c, before), last);
      assert Run(c, before).log[..n] == Run(c, events).log[..n];
    }
  }

  lemma ApplyAppends(w: World, e: Event)
    ensures |Apply(w, e).log| == |w.log| + 1 && Apply(w, e).log[..|w.log|] == w.log
  {
  }

  lemma TimedPrefix(events: seq<Event>, n: nat)
    requires Timed(events) && n <= |events|
    ensures Timed(events[..n])
  {
  }

  lemma {:induction false} RunKeepsSettings(c: Settings, events: seq<Event>)
    requires Timed(events)
    ensures Run(c, events).core.cfg == c
  {
    if events != [] {
      TimedPrefix(events, |events| - 1);
      RunStep(c, events);
      RunKeepsSettings(c, events[..|events| - 1]);
    }
  }

  /** The `i`-th entry of a log: the world before it and the step it records. */
  lemma StepAt(c: Settings, log: seq<Entry>, i: nat) returns (w: World, v: World)
    requires IsLog(c, log) && i < |log|
    ensures Inv(w) && Step(w, v) && Inv(v)
    ensures w.core.cfg == c && w.log == log[..i] && v.log == log[..i + 1]
  {
    var events :| Timed(events) && Run(c, events).log == log;
    LogShape(c, events);
    TimedPrefix(events, i);
    TimedPrefix(events, i + 1);
    RunKeeps(c, events[..i]);
    RunKeeps(c, events[..i + 1]);
    RunKeepsSettings(c, events[..i]);
    RunStep(c, events[..i + 1]);
    assert events[..i + 1][..i] == events[..i];
    LogPrefix(c, events, i);
    LogPrefix(c, events, i + 1);
    w, v := Run(c, events[..i]), Run(c, events[..i + 1]);
  }

  // ----- the movement watchdog --------------------------------------------------------

  /** `ArmedBy` in plain words: an accepted deadman drive with nothing after it that arms
      again, stops or queues an action, and no unready tick. */
  lemma {:induction false} ArmedByMeans(log: seq<Entry>, d: Drive)
    ensures ArmedBy(log) == Some(d) <==>
            exists j :: 0 <= j < |log| && ArmedAt(log, j, d)
  {
    if log != [] {
      var n := |log| - 1;
      ArmedByMeans(log[..n], d);
      if ArmedBy(log) == Some(d) {
        if Arms(log[n]) {
          assert ArmedAt(log, n, d);
        } else {
          var j :| 0 <= j < n && ArmedAt(log[..n], j, d);
          assert ArmedAt(log, j, d);
        }
      }
      if j :| 0 <= j < |log| && ArmedAt(log, j, d) {
        if j < n {
          assert ArmedAt(log[..n], j, d);
        }
      }
    }
  }

  ghost predicate ArmedAt(log: seq<Entry>, j: nat, d: Drive)
    requires j < |log|
  {
    && Arms(log[j]) && log[j].effect == Armed(d.issued, d.target)
    && forall m | j < m < |log| :: !Arms(log[m]) && !Disarms(log[m]) && !IsUnready(log[m])
  }

  /** What a movement published by the tick at `i` must rest on. */
  ghost predicate Justified(c: Settings, log: seq<Entry>, i: nat, r: SportRequest)
    requires i < |log| && log[i].Pulsed?
  {
    && log[i].ready
    && ArmedBy(log[..i]).Some?
    && var drive := ArmedBy(log[..i]).value;
       && r == MoveRequest(drive.target)
       && WithinLimits(c, drive.target)
       && log[i].at - drive.issued <= c.commandTimeout
  }

  lemma MoveStep(w: World, v: World, k: nat)
    requires ArmedInv(w) && Step(w, v)
    requires var e := v.log[|w.log|]; e.Pulsed? && k < |e.published| && IsMove(e.published[k])
    ensures Justified(w.core.cfg, v.log, |w.log|, v.log[|w.log|].published[k])
    ensures k == |v.log[|w.log|].published| - 1
  {
    var e := v.log[|w.log|];
    assert e.published[k] in e.published;
    if e.ready {
      assert ReadyStep(w.core, v.core, e.at, e.published);
      var owed := if w.core.pendingStop then 1 else 0;
      assert k >= owed;
      assert e.published[k] == e.published[owed..][k - owed];
    }
  }

  /** A MOVE is published only on a ready tick, and only for the latest accepted deadman
      drive, not stopped or pre-empted since, no older than the command timeout. */
  lemma MoveIsJustified(c: Settings, log: seq<Entry>, i: nat, k: nat)
    requires IsLog(c, log) && i < |log|
    requires log[i].Pulsed? && k < |log[i].published| && IsMove(log[i].published[k])
    ensures Justified(c, log, i, log[i].published[k])
    ensures k == |log[i].published| - 1
  {
    var w, v := StepAt(c, log, i);
    assert v.log[i] == log[i];
    MoveStep(w, v, k);
  }

  /** While the last published request is a nonzero movement, the next tick either opens with
      StopMove or publishes exactly one more justified movement. */
  lemma MotionIsRenewedOrStopped(c: Settings, log: seq<Entry>, i: nat)
    requires IsLog(c, log) && i < |log|
    requires && log[i].Pulsed?
             && LastPublished(log[..i]).Some? && IsNonzeroMove(LastPublished(log[..i]).value)
    ensures || StartsWithStop(log[i])
            || (|log[i].published| == 1 && Justified(c, log, i, log[i].published[0]))
  {
    var w, v := StepAt(c, log, i);
    var e := v.log[i];
    assert e == log[i];
    if !e.ready {
      assert e.published != [];
      assert e.published[0] in e.published;
    } else if !w.core.pendingStop {
      assert e.published[0..] == e.published;
      if CommandFresh(w.core, e.at) {
        assert e.published == [MoveRequest(w.core.target)];
      } else {
        assert StartsWithStop(e);
      }
    }
  }

  /** Consecutive ticks from entry `from` on are never more than `gap` apart. */
  ghost predicate TickGap(log: seq<Entry>, from: nat, gap: real) {
    forall i, j | from <= i < j < |log| && log[i].Pulsed? && log[j].Pulsed?
                  && (forall m | i < m < j :: !log[m].Pulsed?)
      :: log[j].at - log[i].at <= gap
  }

  /** The first tick after entry `i`, given that there is one. */
  lemma NextTick(log: seq<Entry>, i: nat, n: nat) returns (j: nat)
    requires i < n < |log| && log[n].Pulsed?
    ensures i < j <= n && log[j].Pulsed? && forall m | i < m < j :: !log[m].Pulsed?
  {
    j := i + 1;
    while !log[j].Pulsed?
      decreases n - j
      invariant i < j <= n && forall m | i < m < j :: !log[m].Pulsed?
    {
      j := j + 1;
    }
  }

  lemma {:induction false} QuietTail(log: seq<Entry>, i: nat, j: nat)
    requires i < j <= |log| && log[i].Pulsed? && log[i].published != []
    requires forall m | i < m < j :: !log[m].Pulsed?
    ensures LastPublished(log[..j]) == Some(log[i].published[|log[i].published| - 1])
  {
    if j > i + 1 {
      QuietTail(log, i, j - 1);
      assert log[..j][..j - 1] == log[..j - 1];
    }
  }

  lemma {:induction false} ArmedStays(log: seq<Entry>, i: nat, j: nat)
    requires i <= j <= |log|
    requires forall m | i <= m < j :: !Arms(log[m])
    ensures ArmedBy(log[..j]).Some? ==> ArmedBy(log[..j]) == ArmedBy(log[..i])
  {
    if i < j {
      ArmedStays(log, i, j - 1);
      assert log[..j][..j - 1] == log[..j - 1];
    }
  }

  /** From a tick that moved the robot to the next one, with no drive accepted in between. */
  lemma StopOrRenewal(c: Settings, log: seq<Entry>, i: nat, n: nat) returns (j: nat)
    requires IsLog(c, log) && i < n < |log| && log[n].Pulsed?
    requires log[i].Pulsed? && log[i].published != []
    requires IsNonzeroMove(log[i].published[|log[i].published| - 1])
    requires forall m | i < m < |log| :: !Arms(log[m])
    ensures i < j <= n && log[j].Pulsed? && forall m | i < m < j :: !log[m].Pulsed?
    ensures Justified(c, log, i, log[i].published[|log[i].published| - 1])
    ensures StartsWithStop(log[j])
            || (|log[j].published| == 1 && log[j].published[0] == log[i].published[|log[i].published| - 1]
                && ArmedBy(log[..j]) == ArmedBy(log[..i])
                && log[j].at <= ArmedBy(log[..i]).value.issued + c.commandTimeout)
  {
    MoveIsJustified(c, log, i, |log[i].published| - 1);
    j := NextTick(log, i, n);
    QuietTail(log, i, j);
    MotionIsRenewedOrStopped(c, log, j);
    if !StartsWithStop(log[j]) {
      ArmedStays(log, i + 1, j);
      assert log[..i + 1][..i] == log[..i];
    }
  }

  /** The stopping distance in time. After the tick at `i` moved the robot, if no further
      drive is accepted, ticks are at most `gap` apart and the run outlasts the command, the
      tick at `j` opens with StopMove within the command timeout plus one gap of the drive's
      issue. */
  lemma {:induction false} StopComesInTime(c: Settings, log: seq<Entry>, i: nat, n: nat, gap: real)
    returns (j: nat)
    requires IsLog(c, log) && i < n < |log| && 0.0 <= gap
    requires log[i].Pulsed? && log[i].published != []
    requires IsNonzeroMove(log[i].published[|log[i].published| - 1])
    requires ArmedBy(log[..i]).Some?
    requires log[n].Pulsed? && log[n].at > ArmedBy(log[..i]).value.issued + c.commandTimeout
    requires TickGap(log, i, gap)
    requires forall m | i < m < |log| :: !Arms(log[m])
    ensures i < j <= n && StartsWithStop(log[j])
    ensures log[j].at <= ArmedBy(log[..i]).value.issued + c.commandTimeout + gap
    decreases n - i
  {
    j := StopOrRenewal(c, log, i, n);
    GapFrom(log, i, j, gap);
    if !StartsWithStop(log[j]) {
      j := StopComesInTime(c, log, j, n, gap);
    }
  }

  lemma GapFrom(log: seq<Entry>, i: nat, j: nat, gap: real)
    requires TickGap(log, i, gap) && i < j < |log| && log[i].Pulsed? && log[j].Pulsed?
    requires forall m | i < m < j :: !log[m].Pulsed?
    ensures log[j].at - log[i].at <= gap
    ensures TickGap(log, j, gap)
  {
  }

  /** The first tick after a stop, a forced stop or an action opens with StopMove. */
  lemma StopIsFlushed(c: Settings, log: seq<Entry>, j: nat, i: nat)
    requires IsLog(c, log) && j < i < |log|
    requires Disarms(log[j]) && log[i].Pulsed? && forall m | j < m < i :: !log[m].Pulsed?
    ensures StartsWithStop(log[i])
  {
    var w, v := StepAt(c, log, i);
    StillOwed(log, j, i);
    var e := v.log[i];
    assert e == log[i];
    if !e.ready {
      assert e.published[0] in e.published;
    }
  }

  lemma {:induction false} StillOwed(log: seq<Entry>, j: nat, i: nat)
    requires j < i <= |log| && Disarms(log[j]) && forall m | j < m < i :: !log[m].Pulsed?
    ensures StopOwed(log[..i])
  {
    if j + 1 < i {
      StillOwed(log, j, i - 1);
      assert log[..i][..i - 1] == log[..i - 1];
    }
  }

  /** After any stop, forced stop, action or unready tick, a movement needs a newly accepted drive. */
  lemma MovementNeedsNewDrive(c: Settings, log: seq<Entry>, j: nat, i: nat, k: nat)
    requires IsLog(c, log) && j < i < |log|
    requires Disarms(log[j]) || IsUnready(log[j])
    requires log[i].Pulsed? && k < |log[i].published| && IsMove(log[i].published[k])
    ensures exists m :: j < m < i && Arms(log[m])
  {
    MoveIsJustified(c, log, i, k);
    assert log[..j + 1][..j] == log[..j];
    assert ArmedBy(log[..j + 1]).None?;
    if forall m | j < m < i :: !Arms(log[m]) {
      ArmedStays(log, j + 1, i);
    }
  }

  // ----- the action window ------------------------------------------------------------

  function Flatten(log: seq<Entry>): seq<int> {
    if log == [] then []
    else
      Flatten(log[..|log| - 1])
      + if log[|log| - 1].Pulsed? then ApiIds(log[|log| - 1].published) else []
  }

  /** Nothing between `j` and `i` (inclusive) stops the robot by force. */
  ghost predicate Undisturbed(log: seq<Entry>, j: nat, i: nat)
    requires i < |log|
  {
    forall m | j < m <= i :: !log[m].Forced? && !(log[m].Received? && log[m].effect.Stopped?)
                             && (log[m].Pulsed? ==> log[m].ready)
  }

  /** What one more entry of an undisturbed window adds to the output so far. */
  function NextOutput(before: seq<int>, e: Entry, accepted: real, action: Action): seq<int> {
    if !e.Pulsed? || |before| == 2 then before
    else (if before == [] then [API_STOP_MOVE] else before)
         + if e.at >= accepted + ACTION_DELAY_S then [ApiId(action)] else []
  }

  /** What an undisturbed action window publishes, from the acceptance at `j` through `i`. */
  function WindowOutput(log: seq<Entry>, j: nat, i: nat, action: Action): seq<int>
    requires j <= i < |log|
  {
    if i == j then [] else NextOutput(WindowOutput(log, j, i - 1, action), log[i], log[j].at, action)
  }

  /** One entry of an open window that nothing disturbs. */
  lemma WindowGoesOn(c: Settings, log: seq<Entry>, i: nat, start: real, action: Action, before: seq<int>)
    requires IsLog(c, log) && 0 < i < |log| && log[i].at < start + GuardSeconds(action)
    requires OpenWindow(log[..i]) == Some(Window(start, action, before))
    requires !log[i].Forced? && !(log[i].Received? && log[i].effect.Stopped?) && (log[i].Pulsed? ==> log[i].ready)
    ensures OpenWindow(log[..i + 1]) == Some(Window(start, action, NextOutput(before, log[i], start, action)))
    ensures NextOutput(before, log[i], start, action)
            == before + if log[i].Pulsed? then ApiIds(log[i].published) else []
  {
    var w, v := StepAt(c, log, i);
    assert v.log[i] == log[i];
    assert Clock(v.log) == log[i].at;
    WindowStep(w, v);
    assert before + [] == before;
  }

  lemma FlattenStep(log: seq<Entry>, j: nat, i: nat)
    requires j < i < |log|
    ensures Flatten(log[j + 1..i + 1])
            == Flatten(log[j + 1..i]) + if log[i].Pulsed? then ApiIds(log[i].published) else []
  {
    assert log[j + 1..i + 1][..i - j - 1] == log[j + 1..i];
  }

  /** From acceptance to the end of its hold, an action that nothing stops by force yields
      exactly one StopMove and then, from 0.10 s on, exactly one action request: no movement,
      no second action and no idle StopMove that would cut it short. */
  lemma {:induction false} ActionWindow(c: Settings, log: seq<Entry>, j: nat, i: nat, action: Action)
    requires IsLog(c, log) && j <= i < |log|
    requires log[j].Received? && log[j].effect == Queued(action)
    requires log[i].at < log[j].at + GuardSeconds(action)
    requires Undisturbed(log, j, i)
    ensures Flatten(log[j + 1..i + 1]) == WindowOutput(log, j, i, action)
    ensures OpenWindow(log[..i + 1]) == Some(Window(log[j].at, action, WindowOutput(log, j, i, action)))
  {
    if i == j {
      assert log[..i + 1][i] == log[i];
    } else {
      var before := WindowOutput(log, j, i - 1, action);
      TimesRise(c, log, i);
      assert Undisturbed(log, j, i - 1);
      ActionWindow(c, log, j, i - 1, action);
      assert log[..i - 1 + 1] == log[..i];
      WindowGoesOn(c, log, i, log[j].at, action, before);
      FlattenStep(log, j, i);
    }
  }

  lemma TimesRise(c: Settings, log: seq<Entry>, i: nat)
    requires IsLog(c, log) && 0 < i < |log|
    ensures log[i - 1].at <= log[i].at
  {
    var w, v := StepAt(c, log, i);
    assert Clock(w.log) == log[i - 1].at && v.log[i] == log[i];
  }

  /** Every action request answers the one accepted action still waiting, at least 0.10 s after
      its acceptance, with a StopMove already out; publishing it uses the acceptance up. */
  lemma ActionIsOwed(c: Settings, log: seq<Entry>, i: nat, k: nat)
    requires IsLog(c, log) && i < |log|
    requires var e := log[i];
             e.Pulsed? && k < |e.published| && IsAction(e.published[k])
    ensures && Waiting(log[..i]).Some?
            && var wait := Waiting(log[..i]).value;
               && log[i].published[k] == ActionRequest(wait.action)
               && wait.at + ACTION_DELAY_S <= log[i].at
               && (wait.stopped || (k == 1 && IsStop(log[i].published[0])))
    ensures k == |log[i].published| - 1
    ensures Waiting(log[..i + 1]).None?
  {
    var w, v := StepAt(c, log, i);
    var e := v.log[i];
    assert e == log[i];
    assert e.published[k] in e.published;
    if e.ready {
      var owed := if w.core.pendingStop then 1 else 0;
      assert k >= owed;
      assert e.published[k] == e.published[owed..][k - owed];
    }
    assert v.log[..|v.log| - 1] == w.log;
    assert log[..i + 1][..i] == log[..i];
    assert exists r :: r in e.published && IsAction(r);
  }

  // ----- each accepted action is published at most once -------------------------------

  function CountActions(published: seq<SportRequest>): nat {
    if published == [] then 0
    else CountActions(published[..|published| - 1])
         + if IsAction(published[|published| - 1]) then 1 else 0
  }

  function ActionsPublished(log: seq<Entry>): nat {
    if log == [] then 0
    else ActionsPublished(log[..|log| - 1])
         + if log[|log| - 1].Pulsed? then CountActions(log[|log| - 1].published) else 0
  }

  function ActionsAccepted(log: seq<Entry>): nat {
    if log == [] then 0
    else ActionsAccepted(log[..|log| - 1])
         + if log[|log| - 1].Received? && log[|log| - 1].effect.Queued? then 1 else 0
  }

  lemma {:induction false} NoActionsCounted(published: seq<SportRequest>)
    requires forall k | 0 <= k < |published| :: !IsAction(published[k])
    ensures CountActions(published) == 0
  {
    if published != [] {
      NoActionsCounted(published[..|published| - 1]);
    }
  }

  /** In every run the action requests published are at most the actions accepted, and an
      accepted action still waiting leaves room for its own. */
  lemma {:induction false} ActionsAreNotRepeated(c: Settings, log: seq<Entry>, n: nat)
    requires IsLog(c, log) && n <= |log|
    ensures ActionsPublished(log[..n]) + (if Waiting(log[..n]).Some? then 1 else 0) <= ActionsAccepted(log[..n])
  {
    if n > 0 {
      ActionsAreNotRepeated(c, log, n - 1);
      assert log[..n][..n - 1] == log[..n - 1];
      var e := log[n - 1];
      if e.Pulsed? {
        if k :| 0 <= k < |e.published| && IsAction(e.published[k]) {
          ActionIsOwed(c, log, n - 1, k);
          OnlyLastActionCounted(c, log, n - 1);
        } else {
          NoActionsCounted(e.published);
        }
      }
    }
  }

  lemma OnlyLastActionCounted(c: Settings, log: seq<Entry>, i: nat)
    requires IsLog(c, log) && i < |log| && log[i].Pulsed? && log[i].published != []
    ensures CountActions(log[i].published) <= 1
  {
    var front := log[i].published[..|log[i].published| - 1];
    forall k | 0 <= k < |front| ensures !IsAction(front[k]) {
      if IsAction(front[k]) {
        ActionIsOwed(c, log, i, k);
      }
    }
    NoActionsCounted(front);
  }

  // ----- the observation inhibit ------------------------------------------------------

  /** The inhibit in force, in plain words: taken at `j`, not released since, and voided
      exactly by a stop, a blocked command or an unready tick in between. */
  ghost predicate HeldSince(log: seq<Entry>, j: nat, h: Inhibit)
    requires j < |log|
  {
    && log[j].Received? && log[j].effect == InhibitTaken(h.token, h.source)
    && (forall m | j < m < |log| ::
          !(log[m].Received? && (log[m].effect.InhibitTaken? || log[m].effect.InhibitReleased?)))
    && (h.violated <==> exists m :: j < m < |log| && Voids(log[m]))
  }

  lemma {:induction false} HolderMeans(log: seq<Entry>, h: Inhibit)
    ensures Holder(log) == Some(h) ==> exists j :: 0 <= j < |log| && HeldSince(log, j, h)
    ensures (exists j :: 0 <= j < |log| && HeldSince(log, j, h)) ==> Holder(log) == Some(h)
  {
    if log != [] {
      var n := |log| - 1;
      var taken := log[n].Received? && log[n].effect.InhibitTaken?;
      var released := log[n].Received? && log[n].effect.InhibitReleased?;
      if Holder(log) == Some(h) {
        if taken {
          assert HeldSince(log, n, h);
        } else {
          var before := Holder(log[..n]).value;
          HolderMeans(log[..n], before);
          var j :| 0 <= j < n && HeldSince(log[..n], j, before);
          HeldExtends(log, j, before, h);
        }
      }
      if j :| 0 <= j < |log| && HeldSince(log, j, h) {
        if j < n {
          var before := h.(violated := exists m :: j < m < n && Voids(log[m]));
          assert HeldSince(log[..n], j, before);
          HolderMeans(log[..n], before);
        }
      }
    }
  }

  lemma HeldExtends(log: seq<Entry>, j: nat, before: Inhibit, h: Inhibit)
    requires j < |log| - 1 && HeldSince(log[..|log| - 1], j, before)
    requires var e := log[|log| - 1]; !(e.Received? && (e.effect.InhibitTaken? || e.effect.InhibitReleased?))
    requires h == before.(violated := before.violated || Voids(log[|log| - 1]))
    ensures HeldSince(log, j, h)
  {
    var n := |log| - 1;
    if before.violated {
      var m :| j < m < n && Voids(log[..n][m]);
      assert Voids(log[m]);
    }
  }

  lemma InhibitedStep(w: World, v: World)
    requires InhibitInv(w) && Step(w, v) && w.core.inhibit.Some? && v.log[|w.log|].Pulsed?
    ensures AllStops(v.log[|w.log|].published)
  {
    var e := v.log[|w.log|];
    if e.ready {
      assert ReadyStep(w.core, v.core, e.at, e.published);
      var owed := if w.core.pendingStop then 1 else 0;
      assert e.published == e.published[..owed] + e.published[owed..];
    }
  }

  /** While an inhibit is in force every published request is StopMove. */
  lemma InhibitedTicksOnlyStop(c: Settings, log: seq<Entry>, i: nat)
    requires IsLog(c, log) && i < |log| && log[i].Pulsed? && Holder(log[..i]).Some?
    ensures AllStops(log[i].published)
  {
    var w, v := StepAt(c, log, i);
    assert v.log[i] == log[i];
    InhibitedStep(w, v);
  }

  /** The inhibit is taken only when free and released only by its own token and source, and
      the watchdog's record of it, violated flag included, is the one the log determines. */
  lemma InhibitIsExclusive(c: Settings, log: seq<Entry>, i: nat)
    requires IsLog(c, log) && i < |log| && log[i].Received?
    ensures log[i].effect.InhibitTaken? ==> Holder(log[..i]).None?
    ensures log[i].effect.InhibitReleased? ==>
              && Holder(log[..i]).Some?
              && Holder(log[..i]).value.token == log[i].effect.token
              && Holder(log[..i]).value.source == log[i].effect.source
    ensures log[i].effect.Blocked? ==> Holder(log[..i]).Some?
    ensures log[i].effect.Armed? || log[i].effect.Queued? ==> Holder(log[..i]).None?
  {
    var w, v := StepAt(c, log, i);
    assert v.log[i] == log[i];
  }

  lemma InhibitRecordIsExact(c: Settings, events: seq<Event>)
    requires Timed(events)
    ensures Run(c, events).core.inhibit == Holder(Run(c, events).log)
  {
    RunKeeps(c, events);
  }
}
