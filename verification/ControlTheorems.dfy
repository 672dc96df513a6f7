/** What the control manager promises over whole runs, read off the log of any run. */
module ControlTheorems {
  import opened Wire
  import opened SportApi
  import opened ControlCore
  import opened ControlRuns

  ghost predicate IsLog(c: Policy, log: seq<Entry>) {
    exists startStopped, calls :: Timed(calls) && Run(c, startStopped, calls).log == log
  }

  // ----- runs and their prefixes ------------------------------------------------------

  lemma TimedPrefix(calls: seq<Call>, n: nat)
    requires Timed(calls) && n <= |calls|
    ensures Timed(calls[..n])
  {
  }

  lemma {:induction false} RunKeepsPolicy(c: Policy, startStopped: bool, calls: seq<Call>)
    requires Timed(calls)
    ensures Run(c, startStopped, calls).m.cfg == c
  {
    if calls != [] {
      var before := calls[..|calls| - 1];
      TimedPrefix(calls, |before|);
      RunKeepsPolicy(c, startStopped, before);
      RunKeeps(c, startStopped, before);
      assert |before| > 0 ==> before[|before| - 1] == calls[|calls| - 2];
      var o := ApplyKeeps(Run(c, startStopped, before), calls[|calls| - 1]);
    }
  }

  lemma ApplyAppends(w: World, call: Call)
    ensures |Apply(w, call).log| == |w.log| + 1 && Apply(w, call).log[..|w.log|] == w.log
    ensures Apply(w, call).log[|w.log|].call == call
  {
  }

  lemma {:induction false} LogPrefix(c: Policy, startStopped: bool, calls: seq<Call>, n: nat)
    requires n <= |calls|
    ensures |Run(c, startStopped, calls).log| == |calls|
    ensures Run(c, startStopped, calls[..n]).log == Run(c, startStopped, calls).log[..n]
  {
    if calls == [] {
    } else if n == |calls| {
      assert calls[..n] == calls;
      LogPrefix(c, startStopped, calls, n - 1);
    } else {
      var before := calls[..|calls| - 1];
      LogPrefix(c, startStopped, before, n);
      assert before[..n] == calls[..n];
      ApplyAppends(Run(c, startStopped, before), calls[|calls| - 1]);
      PrefixOfPrefix(Run(c, startStopped, calls).log, Run(c, startStopped, before).log, n);
    }
  }

  lemma PrefixOfPrefix(whole: seq<Entry>, part: seq<Entry>, n: nat)
    requires n <= |part| <= |whole| && whole[..|part|] == part
    ensures whole[..n] == part[..n]
  {
  }

  /** The world before the `i`-th call of a run, and the log up to it. */
  lemma WorldBefore(c: Policy, startStopped: bool, calls: seq<Call>, i: nat)
    requires Timed(calls) && i < |calls|
    ensures var w, log := Run(c, startStopped, calls[..i]), Run(c, startStopped, calls).log;
            && Inv(w) && w.m.cfg == c && |log| == |calls| && w.log == log[..i]
            && log[..i + 1] == Apply(w, calls[i]).log && Clock(w.log) <= calls[i].at
  {
    TimedPrefix(calls, i);
    TimedPrefix(calls, i + 1);
    RunKeeps(c, startStopped, calls);
    RunKeeps(c, startStopped, calls[..i]);
    RunKeepsPolicy(c, startStopped, calls[..i]);
    LogPrefix(c, startStopped, calls, i);
    LogPrefix(c, startStopped, calls, i + 1);
    if i > 0 { assert calls[..i][i - 1] == calls[i - 1]; }
    assert calls[..i + 1][..i] == calls[..i];
  }

  /** The `i`-th entry of a log: the world before it, and what the call did. */
  lemma StepAt(c: Policy, log: seq<Entry>, i: nat) returns (w: World, o: Outcome)
    requires IsLog(c, log) && i < |log|
    ensures Inv(w) && w.m.cfg == c && w.log == log[..i]
    ensures Step(w.m, log[i].call, o) && Emits(w.m, log[i].call, o)
    ensures log[i] == Record(log[i].call, o) && Clock(w.log) <= log[i].call.at
    ensures Inv(World(o.m, log[..i + 1]))
  {
    var startStopped, calls :| Timed(calls) && Run(c, startStopped, calls).log == log;
    RunKeeps(c, startStopped, calls);
    WorldBefore(c, startStopped, calls, i);
    w := Run(c, startStopped, calls[..i]);
    o := ApplyKeeps(w, calls[i]);
    assert log[..i + 1] == w.log + [Record(calls[i], o)];
    assert log[i] == log[..i + 1][i];
  }

  // ----- the lease --------------------------------------------------------------------

  /** Without a lease there is no intent and no velocity, and the stream is empty or ends in a
      stop or an action; a latched stop and a closed manager hold no lease. */
  lemma UnleasedIsStill(c: Policy, startStopped: bool, calls: seq<Call>)
    requires Timed(calls)
    ensures var w := Run(c, startStopped, calls);
            && (w.m.lease.None? ==> w.m.drive.None? && w.m.velocity == ZERO && Quiet(Stream(w.log)))
            && (w.m.estop || w.m.closed ==> w.m.lease.None?)
            && ActionsFollowStops(Stream(w.log))
  {
    RunKeeps(c, startStopped, calls);
  }

  lemma {:induction false} StreamSplits(log: seq<Entry>, i: nat, n: nat)
    requires i <= n <= |log|
    ensures Stream(log[..i]) <= Stream(log[..n])
  {
    if i < n {
      StreamSplits(log, i, n - 1);
      assert log[..n][..n - 1] == log[..n - 1];
    }
  }

  /** A lease is granted only over a stream at rest, so every drive put out before it is
      followed by a stop: drives of two leases are always separated by one. */
  lemma LeasesAreSeparated(c: Policy, log: seq<Entry>, m: nat, x: nat)
    requires IsLog(c, log) && m < |log| && log[m].call.AcquireCall? && IsDone(log[m])
    requires x < |Stream(log[..m])| && Stream(log[..m])[x].DriveOut?
    ensures x < |Stream(log[..m + 1])| && HasStop(Stream(log[..m + 1])[x + 1..])
  {
    var w, o := StepAt(c, log, m);
    var before, after := Stream(log[..m]), Stream(log[..m + 1]);
    assert log[..m + 1][..m] == log[..m];
    assert after == before + o.out;
    assert after[x] == before[x];
    assert Quiet(after);
    var last := |after| - 1;
    var stop := if after[last].StopOut? then last else last - 1;
    assert x < stop && after[stop].StopOut?;
    assert after[x + 1..][stop - x - 1] == after[stop];
  }

  /** A message is accepted only under the latest grant, by its token, while that grant lasts. */
  lemma MessagesNeedTheGrant(c: Policy, log: seq<Entry>, j: nat, token: string)
    requires IsLog(c, log) && j < |log| && IsDone(log[j]) && Presents(log[j].call, token)
    ensures Leased(log[..j])
    ensures CurrentGrant(log[..j]).Some? && CurrentGrant(log[..j]).value.token == token
  {
    var w, o := StepAt(c, log, j);
  }

  predicate Presents(call: Call, token: string) {
    match call
    case BindCall(_, t, _) => t == token
    case HeartbeatCall(_, t, _, _) => t == token
    case DriveCall(_, t, _, _, _) => t == token
    case ActionCall(_, t, _, _, _, _) => t == token
    case ReleaseCall(_, t, _) => t == token
    case _ => false
  }

  lemma {:induction false} NoLeaseWithoutGrant(c: Policy, log: seq<Entry>, k: nat, j: nat)
    requires IsLog(c, log) && k <= j <= |log| && !Leased(log[..k])
    requires forall m | k <= m < j :: !(log[m].call.AcquireCall? && IsDone(log[m]))
    ensures !Leased(log[..j])
  {
    if k < j {
      NoLeaseWithoutGrant(c, log, k, j - 1);
      var w, o := StepAt(c, log, j - 1);
      assert log[..j][j - 1] == log[j - 1];
    }
  }

  lemma {:induction false} GrantComesFrom(log: seq<Entry>, g: Grant) returns (m: nat)
    requires CurrentGrant(log) == Some(g)
    ensures m < |log| && Grants(log[m], g.token)
    ensures forall n | m < n < |log| :: !(log[n].call.AcquireCall? && IsDone(log[n]))
  {
    var last := |log| - 1;
    if Grants(log[last], g.token) {
      m := last;
    } else {
      m := GrantComesFrom(log[..last], g);
    }
  }

  predicate Grants(e: Entry, token: string) {
    e.call.AcquireCall? && IsDone(e) && e.call.token == token
  }

  /** Once a lease is gone, no message with its token is accepted unless that token is granted
      again first. */
  lemma GoneForGood(c: Policy, log: seq<Entry>, k: nat, j: nat, token: string)
    requires IsLog(c, log) && k < j < |log| && !log[k].leased
    requires IsDone(log[j]) && Presents(log[j].call, token)
    ensures exists m :: k < m < j && Grants(log[m], token)
  {
    MessagesNeedTheGrant(c, log, j, token);
    var m := GrantComesFrom(log[..j], CurrentGrant(log[..j]).value);
    assert log[..k + 1][k] == log[k];
    if m <= k {
      NoLeaseWithoutGrant(c, log, k + 1, j);
    }
  }

  // ----- drives -----------------------------------------------------------------------

  /** Every drive put out is fresh and smooth: it serves the latest accepted intent of the
      current lease, a pressed deadman younger than its source's timeout with the client's own
      delay counted in; it lies within the limits, between the velocity the stream last showed
      (zero after any stop) and the target, and each axis moves by at most its slew times the
      time since the last tick, counted as at most 0.25 s. */
  lemma DriveIsFreshAndSmooth(c: Policy, log: seq<Entry>, i: nat, k: nat)
    requires IsLog(c, log) && i < |log| && k < |log[i].out| && log[i].out[k].DriveOut?
    ensures log[i].call.TickCall? && log[i].out == [log[i].out[k]]
    ensures CurrentGrant(log[..i]).Some? && CurrentIntent(c, log[..i]).Some?
    ensures var intent, at, drive := CurrentIntent(c, log[..i]).value, log[i].call.at, log[i].out[k];
            && intent.deadman && at - intent.issued < CommandTimeoutFor(c, intent.source)
            && drive.at == at && drive.serial == intent.serial && drive.source == intent.source
            && intent.source == CurrentGrant(log[..i]).value.source
            && WithinPolicy(c, drive.velocity)
            && Slewed(LastVelocity(Stream(log[..i])), drive.velocity, intent.target,
                      Reach(c, Elapsed(LastTickAt(log[..i]), at)))
  {
    var w, o := StepAt(c, log, i);
    assert Drives(w.m, log[i].call.at, o);
    var reach := Reach(c, Elapsed(w.m.lastTick, log[i].call.at));
    ReachIsForward(c, Elapsed(w.m.lastTick, log[i].call.at));
    SlewIsGentle(w.m.velocity, w.m.drive.value.target, reach);
    SlewIsWithin(c, w.m.velocity, w.m.drive.value.target, reach);
  }

  lemma {:induction false} IntentStays(c: Policy, log: seq<Entry>, i: nat, k: nat)
    requires IsLog(c, log) && i <= k <= |log|
    requires forall m | i <= m < k :: IsDone(log[m]) ==> !log[m].call.DriveCall? && !log[m].call.AcquireCall?
    ensures Leased(log[..k]) ==> CurrentIntent(c, log[..k]) == CurrentIntent(c, log[..i])
  {
    if i < k {
      var w, o := StepAt(c, log, k - 1);
      assert log[..k][k - 1] == log[k - 1];
      IntentStays(c, log, i, k - 1);
      assert log[..k][..k - 1] == log[..k - 1];
    }
  }

  // ----- what a drive request asks for ------------------------------------------------

  predicate IsNumber(v: Value) { v.Int? || v.Float? }

  function NumberOf(v: Value): real
    requires IsNumber(v)
  {
    if v.Int? then v.whole as real else v.decimal
  }

  predicate IsAxis(v: Value) {
    IsNumber(v) && -1.0 <= NumberOf(v) <= 1.0
  }

  /** A request the manager takes: three axes between -1 and 1, a scale and an age that are
      numbers too, the age at most the source's timeout, and a boolean deadman. */
  predicate Takeable(c: Policy, source: InputSource, r: DriveRequest) {
    && IsAxis(r.vx) && IsAxis(r.vy) && IsAxis(r.wz) && IsNumber(r.speedScale) && r.deadman.Bool?
    && IsNumber(r.clientAge)
    && 0.0 <= NumberOf(r.clientAge) <= (if source == Navigation then c.navigationTimeout else c.commandTimeout)
  }

  /** The scale asked for, cut to between a tenth and one. */
  function ScaleOf(r: DriveRequest): (s: real)
    requires IsNumber(r.speedScale)
    ensures 0.1 <= s <= 1.0
  {
    var asked := NumberOf(r.speedScale);
    if asked < 0.1 then 0.1 else if asked > 1.0 then 1.0 else asked
  }

  function Fraction(n: real, limit: real, s: real): real {
    n * limit * s
  }

  /** The velocity asked for: each axis its own fraction of its own limit, scaled. */
  function AskedVelocity(c: Policy, r: DriveRequest): Velocity
    requires IsAxis(r.vx) && IsAxis(r.vy) && IsAxis(r.wz) && IsNumber(r.speedScale)
  {
    var s := ScaleOf(r);
    Velocity(Fraction(NumberOf(r.vx), c.vxLimit, s), Fraction(NumberOf(r.vy), c.vyLimit, s),
             Fraction(NumberOf(r.wz), c.wzLimit, s))
  }

  lemma Product(a: real, b: real)
    requires 0.0 <= a && 0.0 <= b
    ensures 0.0 <= a * b
  {}

  lemma Shrinks(p: real, s: real, product: real)
    requires 0.0 <= p && 0.0 <= s <= 1.0 && product == p * s
    ensures 0.0 <= product <= p
  {
    Product(p, s);
    Product(p, 1.0 - s);
    assert p * (1.0 - s) == p - p * s;
  }

  lemma Negated(p: real, q: real, s: real)
    requires q == -p
    ensures q * s == -(p * s)
  {
    assert (p + q) * s == p * s + q * s;
  }

  lemma SignedShrinks(p: real, limit: real, s: real, product: real)
    requires -limit <= p <= limit && 0.0 <= s <= 1.0 && product == p * s
    ensures -limit <= product <= limit
  {
    if p >= 0.0 {
      Shrinks(p, s, product);
    } else {
      var q := -p;
      Negated(p, q, s);
      Shrinks(q, s, q * s);
    }
  }

  /** A fraction of a limit, scaled, stays inside the limit: nothing is cut. */
  lemma ScaledIs(n: real, limit: real, s: real, part: real, product: real)
    requires -1.0 <= n <= 1.0 && 0.0 <= limit && 0.0 <= s <= 1.0 && part == n * limit && product == part * s
    ensures Scaled(n, limit, s) == product
  {
    if n >= 0.0 {
      Shrinks(limit, n, part);
    } else {
      var m := -n;
      Negated(n, m, limit);
      Shrinks(limit, m, limit * m);
      assert limit * m == m * limit;
    }
    SignedShrinks(part, limit, s, product);
  }

  lemma ScaledAxisIs(n: real, limit: real, s: real)
    requires -1.0 <= n <= 1.0 && 0.0 <= limit && 0.0 <= s <= 1.0
    ensures Scaled(n, limit, s) == Fraction(n, limit, s)
  {
    ScaledIs(n, limit, s, n * limit, n * limit * s);
  }

  lemma AxesAreAsked(c: Policy, r: DriveRequest, s: real, x: real, y: real, z: real)
    requires IsAxis(r.vx) && IsAxis(r.vy) && IsAxis(r.wz) && IsNumber(r.speedScale) && s == ScaleOf(r)
    requires x == Fraction(NumberOf(r.vx), c.vxLimit, s) && y == Fraction(NumberOf(r.vy), c.vyLimit, s)
    requires z == Fraction(NumberOf(r.wz), c.wzLimit, s)
    ensures Velocity(x, y, z) == AskedVelocity(c, r)
  {}

  lemma TargetIsAsked(c: Policy, r: DriveRequest, scale: real)
    requires IsAxis(r.vx) && IsAxis(r.vy) && IsAxis(r.wz) && IsNumber(r.speedScale) && scale == ScaleOf(r)
    ensures Velocity(Scaled(NumberOf(r.vx), c.vxLimit, scale), Scaled(NumberOf(r.vy), c.vyLimit, scale),
                     Scaled(NumberOf(r.wz), c.wzLimit, scale)) == AskedVelocity(c, r)
  {
    var x, y, z := NumberOf(r.vx), NumberOf(r.vy), NumberOf(r.wz);
    ScaledAxisIs(x, c.vxLimit, scale);
    ScaledAxisIs(y, c.vyLimit, scale);
    ScaledAxisIs(z, c.wzLimit, scale);
    AxesAreAsked(c, r, scale, Scaled(x, c.vxLimit, scale), Scaled(y, c.vyLimit, scale), Scaled(z, c.wzLimit, scale));
  }

  /** A drive request is taken exactly when it is takeable, and then asks for just what it says. */
  lemma ParseIsExact(c: Policy, source: InputSource, r: DriveRequest)
    ensures ParseDrive(c, source, r).Some? <==> Takeable(c, source, r)
    ensures Takeable(c, source, r) ==>
              ParseDrive(c, source, r) == Some(Parsed(r.deadman.flag, AskedVelocity(c, r), NumberOf(r.clientAge)))
  {
    if Takeable(c, source, r) {
      var scale := Clamp(NumberOf(r.speedScale), MIN_SPEED_SCALE, MAX_SPEED_SCALE);
      assert scale == ScaleOf(r);
      TargetIsAsked(c, r, scale);
    }
  }

  /** An accepted drive request makes the intent the stream will be judged by: its own number,
      deadman and velocity, issued as long before the call as the client says. */
  lemma RequestMakesIntent(c: Policy, log: seq<Entry>, i: nat) returns (intent: Intent)
    requires IsLog(c, log) && i < |log| && log[i].call.DriveCall? && IsDone(log[i])
    ensures CurrentIntent(c, log[..i + 1]) == Some(intent)
    ensures CurrentGrant(log[..i]).Some? && intent.source == CurrentGrant(log[..i]).value.source
    ensures var request := log[i].call.request;
            && log[i].call.serial == Int(intent.serial)
            && Takeable(c, intent.source, request)
            && intent.deadman == request.deadman.flag
            && intent.target == AskedVelocity(c, request)
            && intent.issued == log[i].call.at - NumberOf(request.clientAge)
    ensures log[i].call.at - CommandTimeoutFor(c, intent.source) <= intent.issued <= log[i].call.at
    ensures WithinPolicy(c, intent.target) && log[i].leased
  {
    var w, o := StepAt(c, log, i);
    intent := o.m.drive.value;
    ParseIsExact(c, intent.source, log[i].call.request);
    assert log[..i + 1][..i] == log[..i];
  }

  /** A tick at or past the timeout of a pressed intent that nothing renewed leaves no lease, and
      a stop has been put out since. */
  lemma SilenceRevokes(c: Policy, log: seq<Entry>, i: nat, k: nat)
    requires IsLog(c, log) && i < k < |log| && Presses(c, log, i) && IsTick(log[k])
    requires log[k].call.at >= Deadline(c, log, i) && Unrenewed(log, i, k)
    ensures !log[k].leased
    ensures exists m :: i < m <= k && HasStop(log[m].out)
  {
    var w, o := StepAt(c, log, k);
    IntentStays(c, log, i + 1, k);
    var made := RequestMakesIntent(c, log, i);
    assert log[..k + 1][k] == log[k];
    assert log[..i + 1][i] == log[i];
    StopOnTheWay(c, log, i + 1, k + 1);
  }

  predicate IsTick(e: Entry) { e.call.TickCall? && IsDone(e) }

  /** The `i`-th call is an accepted drive request with the deadman pressed. */
  predicate Presses(c: Policy, log: seq<Entry>, i: nat)
    requires i < |log|
  {
    log[i].call.DriveCall? && IsDone(log[i])
    && CurrentIntent(c, log[..i + 1]).Some? && CurrentIntent(c, log[..i + 1]).value.deadman
  }

  /** When the intent made by the `i`-th call runs out. */
  function Deadline(c: Policy, log: seq<Entry>, i: nat): real
    requires i < |log| && Presses(c, log, i)
  {
    var intent := CurrentIntent(c, log[..i + 1]).value;
    intent.issued + CommandTimeoutFor(c, intent.source)
  }

  predicate Unrenewed(log: seq<Entry>, i: nat, k: nat)
    requires k <= |log|
  {
    forall m | i < m < k :: IsDone(log[m]) ==> !log[m].call.DriveCall? && !log[m].call.AcquireCall?
  }

  predicate NoTick(log: seq<Entry>, a: nat, b: nat)
    requires b <= |log|
  {
    forall m | a < m < b :: !IsTick(log[m])
  }

  /** From entry `i` on, entry `i` counted as a tick, no two consecutive ticks are further than
      `gap` apart. */
  ghost predicate TicksWithin(log: seq<Entry>, i: nat, gap: real) {
    forall a: nat, b: nat | i <= a < b < |log| && (a == i || IsTick(log[a])) && IsTick(log[b]) && NoTick(log, a, b)
      :: log[b].call.at - log[a].call.at <= gap
  }

  /** The first tick after entry `a`, given that there is one. */
  lemma {:induction false} FirstTick(log: seq<Entry>, a: nat, n: nat) returns (k: nat)
    requires a < n < |log| && IsTick(log[n])
    ensures a < k <= n && IsTick(log[k]) && NoTick(log, a, k)
  {
    k := a + 1;
    while !IsTick(log[k])
      invariant a < k <= n && NoTick(log, a, k)
      decreases n - k
    {
      k := k + 1;
    }
  }

  lemma GapTo(log: seq<Entry>, a: nat, k: nat, gap: real)
    requires a < k < |log| && IsTick(log[k]) && NoTick(log, a, k) && TicksWithin(log, a, gap)
    ensures log[k].call.at - log[a].call.at <= gap
    ensures TicksWithin(log, k, gap)
  {
  }

  lemma {:induction false} TickInTime(log: seq<Entry>, a: nat, n: nat, deadline: real, gap: real) returns (k: nat)
    requires a < n < |log| && TicksWithin(log, a, gap) && log[a].call.at <= deadline
    requires IsTick(log[n]) && deadline <= log[n].call.at
    ensures a < k <= n && IsTick(log[k]) && deadline <= log[k].call.at <= deadline + gap
    decreases n - a
  {
    k := FirstTick(log, a, n);
    GapTo(log, a, k, gap);
    if log[k].call.at < deadline {
      k := TickInTime(log, k, n, deadline, gap);
    }
  }

  /** The dead-man's promise in time. After a pressed drive request that nothing renews, with
      ticks at most `gap` apart and the run outlasting the intent, some tick within the timeout
      plus one gap of its issue leaves no lease; a stop has been put out by then, and from there
      on no message with any token is accepted unless that token is granted anew. */
  lemma SilenceEndsTheLease(c: Policy, log: seq<Entry>, i: nat, n: nat, gap: real) returns (k: nat)
    requires IsLog(c, log) && i < n < |log| && Presses(c, log, i) && IsTick(log[n])
    requires log[n].call.at >= Deadline(c, log, i) && Unrenewed(log, i, n) && TicksWithin(log, i, gap)
    ensures i < k <= n && IsTick(log[k]) && log[k].call.at <= Deadline(c, log, i) + gap
    ensures !log[k].leased
    ensures exists m :: i < m <= k && HasStop(log[m].out)
    ensures forall j, token | k < j < |log| && IsDone(log[j]) && Presents(log[j].call, token) ::
              exists m :: k < m < j && Grants(log[m], token)
  {
    var made := RequestMakesIntent(c, log, i);
    k := TickInTime(log, i, n, Deadline(c, log, i), gap);
    SilenceRevokes(c, log, i, k);
    forall j, token | k < j < |log| && IsDone(log[j]) && Presents(log[j].call, token)
      ensures exists m :: k < m < j && Grants(log[m], token)
    {
      GoneForGood(c, log, k, j, token);
    }
  }

  lemma {:induction false} StopOnTheWay(c: Policy, log: seq<Entry>, i: nat, k: nat)
    requires IsLog(c, log) && i < k <= |log| && Leased(log[..i]) && !Leased(log[..k])
    ensures exists m :: i <= m < k && HasStop(log[m].out)
  {
    var w, o := StepAt(c, log, k - 1);
    assert log[..k][k - 1] == log[k - 1];
    if !Leased(log[..k - 1]) {
      StopOnTheWay(c, log, i, k - 1);
    }
  }

  // ----- actions ----------------------------------------------------------------------

  /** An action goes out only for an accepted action call, right after the stop that call puts
      out, and the call ends its lease. */
  lemma ActionEndsLease(c: Policy, log: seq<Entry>, i: nat)
    requires IsLog(c, log) && i < |log|
    ensures log[i].call.ActionCall? && IsDone(log[i]) ==>
              && !log[i].leased && 2 <= |log[i].out|
              && log[i].out[|log[i].out| - 2].StopOut?
              && log[i].out[|log[i].out| - 1].ActionOut?
              && log[i].call.action == Some(log[i].out[|log[i].out| - 1].action)
    ensures (exists k :: 0 <= k < |log[i].out| && log[i].out[k].ActionOut?) ==>
              log[i].call.ActionCall? && IsDone(log[i])
  {
    var w, o := StepAt(c, log, i);
  }

  predicate EndsGuard(call: Call) { call.StopCall? || call.CloseCall? }

  lemma {:induction false} GuardStays(log: seq<Entry>, i: nat, k: nat)
    requires i < k <= |log| && log[i].call.ActionCall? && IsDone(log[i]) && log[i].call.action.Some?
    requires forall m | i < m < k :: IsDone(log[m]) ==> !EndsGuard(log[m].call) && !log[m].call.ActionCall?
    ensures GuardEnd(log[..k]) == log[i].call.at + GuardSeconds(log[i].call.action.value)
  {
    if k == i + 1 {
      assert log[..k][i] == log[i];
    } else {
      GuardStays(log, i, k - 1);
      assert log[..k][..k - 1] == log[..k - 1];
    }
  }

  lemma ApplyKeepsClosed(w: World, call: Call)
    ensures w.m.closed || call.CloseCall? ==> Apply(w, call).m.closed
  {
  }

  lemma {:induction false} ClosedForGood(c: Policy, startStopped: bool, calls: seq<Call>, i: nat, k: nat)
    requires i < k <= |calls| && calls[i].CloseCall?
    ensures Run(c, startStopped, calls[..k]).m.closed
  {
    ApplyKeepsClosed(Run(c, startStopped, calls[..k - 1]), calls[k - 1]);
    assert calls[..k][..k - 1] == calls[..k - 1];
    if i < k - 1 {
      ClosedForGood(c, startStopped, calls, i, k - 1);
    }
  }

  lemma RunHoldsNoLease(w: World)
    requires Inv(w) && w.m.closed
    ensures !Leased(w.log)
  {
  }

  /** A closed manager never holds a lease again. */
  lemma ClosedIsUnleased(c: Policy, log: seq<Entry>, i: nat, k: nat)
    requires IsLog(c, log) && i < k <= |log| && log[i].call.CloseCall?
    ensures !Leased(log[..k])
  {
    var startStopped, calls :| Timed(calls) && Run(c, startStopped, calls).log == log;
    RunKeeps(c, startStopped, calls);
    WorldBefore(c, startStopped, calls, i);
    assert log[..i + 1][i].call == calls[i];
    ClosedForGood(c, startStopped, calls, i, k);
    TimedPrefix(calls, k);
    RunKeeps(c, startStopped, calls[..k]);
    LogPrefix(c, startStopped, calls, k);
    RunHoldsNoLease(Run(c, startStopped, calls[..k]));
  }

  /** No action is accepted, and no lease exists, right before or after a call made past closing. */
  lemma ClosedIsIdle(c: Policy, log: seq<Entry>, i: nat, k: nat)
    requires IsLog(c, log) && i < k < |log| && log[i].call.CloseCall?
    ensures !Leased(log[..k + 1]) && !(log[k].call.ActionCall? && IsDone(log[k]))
  {
    ClosedIsUnleased(c, log, i, k);
    ClosedIsUnleased(c, log, i, k + 1);
    if log[k].call.ActionCall? && IsDone(log[k]) {
      MessagesNeedTheGrant(c, log, k, log[k].call.token);
    }
  }

  /** Unless an emergency stop comes in between, no lease exists from an accepted action until
      its guard has run out, and no other action is accepted. */
  lemma {:induction false} NoLeaseDuringGuard(c: Policy, log: seq<Entry>, i: nat, k: nat)
    requires IsLog(c, log) && i < k <= |log| && log[i].call.ActionCall? && IsDone(log[i]) && log[i].call.action.Some?
    requires forall m | i < m < k :: IsDone(log[m]) ==> !log[m].call.StopCall?
    requires log[k - 1].call.at < log[i].call.at + GuardSeconds(log[i].call.action.value)
    ensures !Leased(log[..k])
    ensures forall m | i < m < k :: !(log[m].call.ActionCall? && IsDone(log[m]))
  {
    assert log[..k][k - 1] == log[k - 1];
    if k == i + 1 {
      ActionEndsLease(c, log, i);
    } else {
      TimesRise(c, log, k - 1);
      NoLeaseDuringGuard(c, log, i, k - 1);
      UnderGuard(c, log, i, k - 1);
    }
  }

  lemma UnderGuard(c: Policy, log: seq<Entry>, i: nat, k: nat)
    requires IsLog(c, log) && i < k < |log| && log[i].call.ActionCall? && IsDone(log[i]) && log[i].call.action.Some?
    requires forall m | i < m < k :: IsDone(log[m]) ==> !log[m].call.StopCall? && !log[m].call.ActionCall?
    requires log[k].call.at < log[i].call.at + GuardSeconds(log[i].call.action.value) && !Leased(log[..k])
    ensures !log[k].leased && !(log[k].call.ActionCall? && IsDone(log[k]))
  {
    if m :| i < m < k && log[m].call.CloseCall? {
      ClosedIsIdle(c, log, m, k);
      assert log[..k + 1][k] == log[k];
    } else {
      GuardStays(log, i, k);
      GuardStep(c, log, k);
    }
  }

  /** With no lease and a guard still running, a call neither grants a lease nor acts. */
  lemma GuardStep(c: Policy, log: seq<Entry>, k: nat)
    requires IsLog(c, log) && k < |log|
    ensures !Leased(log[..k]) && log[k].call.at < GuardEnd(log[..k]) ==>
              !log[k].leased && !(log[k].call.ActionCall? && IsDone(log[k]))
  {
    var w, o := StepAt(c, log, k);
  }

  lemma TimesRise(c: Policy, log: seq<Entry>, k: nat)
    requires IsLog(c, log) && 0 < k < |log|
    ensures log[k - 1].call.at <= log[k].call.at
  {
    var w, o := StepAt(c, log, k);
    assert log[..k][k - 1] == log[k - 1];
  }
}
