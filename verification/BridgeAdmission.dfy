/** Which commands the watchdog lets take effect, and how its table of numbers changes. */
module BridgeAdmission {
  import opened Wire
  import opened SportApi
  import opened BridgeCore
  import opened BridgeRuns

  // ----- who may move the robot -------------------------------------------------------

  /** A command of this process, from a named source, numbered, and young enough unless a stop. */
  predicate WellFormed(c: Settings, p: Payload, age: Value) {
    && p.kind.Some?
    && p.epoch.Text? && p.epoch.text == c.epoch
    && p.source.Text? && 8 <= |p.source.text| <= 128
    && p.sequence.Int? && p.sequence.whole >= 0
    && FiniteNumber(age).Some? && FiniteNumber(age).value >= 0.0
    && (p.kind.value != StopKind ==> FiniteNumber(age).value <= c.commandTimeout)
  }

  /** A well formed command with a new number. */
  predicate Current(s: Bridge, p: Payload, age: Value) {
    WellFormed(s.cfg, p, age) && p.sequence.whole > LastSeq(s.seen, p.source.text)
  }

  /** The source is the owner, or the owner has been silent for the source timeout. */
  predicate MayOwn(s: Bridge, p: Payload, now: real) {
    s.sourceId == "" || (p.source.Text? && p.source.text == s.sourceId)
    || now - s.lastReceived > s.cfg.sourceTimeout
  }

  predicate WindowsClosed(s: Bridge, now: real) {
    s.guardUntil <= now && s.holdUntil <= now
  }

  /** The velocity a drive asks for, cut to the limits. */
  function TargetOf(c: Settings, p: Payload): Velocity
    requires FiniteNumber(p.linearX).Some? && FiniteNumber(p.linearY).Some? && FiniteNumber(p.angularZ).Some?
  {
    Velocity(Clamp(FiniteNumber(p.linearX).value, -c.maxX, c.maxX),
             Clamp(FiniteNumber(p.linearY).value, -c.maxY, c.maxY),
             Clamp(FiniteNumber(p.angularZ).value, -c.maxZ, c.maxZ))
  }

  /** A drive arms the robot exactly when it is current, comes from the owner, no inhibit is
      held, no action window runs, its deadman is pressed and its three axes are finite. */
  lemma ArmsExactly(s: Bridge, p: Payload, now: real, age: Value)
    ensures Accept(s, p, now, age).effect.Armed? <==>
            && Current(s, p, age) && p.kind == Some(DriveKind)
            && MayOwn(s, p, now) && s.inhibit.None? && WindowsClosed(s, now)
            && p.deadman == Bool(true)
            && FiniteNumber(p.linearX).Some? && FiniteNumber(p.linearY).Some? && FiniteNumber(p.angularZ).Some?
    ensures Accept(s, p, now, age).effect.Armed? ==>
              Accept(s, p, now, age).effect == Armed(now - FiniteNumber(age).value, TargetOf(s.cfg, p))
  {
  }

  /** An action is taken exactly when it is current, owned, allow-listed, not inhibited and no
      earlier action still holds the robot. */
  lemma QueuesExactly(s: Bridge, p: Payload, now: real, age: Value)
    ensures Accept(s, p, now, age).effect.Queued? <==>
            && Current(s, p, age) && p.kind == Some(ActionKind)
            && MayOwn(s, p, now) && s.inhibit.None? && s.holdUntil <= now && p.action.Some?
  {
  }

  /** A stop needs no ownership, no readiness and no freshness: only a current number. */
  lemma StopsExactly(s: Bridge, p: Payload, now: real, age: Value)
    ensures p.kind == Some(StopKind) ==>
              && (Accept(s, p, now, age).effect.Stopped? <==> Current(s, p, age))
              && (Accept(s, p, now, age).effect.Stopped? || Accept(s, p, now, age).effect.Rejected?)
  {
  }

  // ----- the table of numbers --------------------------------------------------------------------

  lemma {:induction false} StoredSeq(seen: seq<Seen>, source: string, n: int, other: string)
    ensures LastSeq(Store(seen, source, n), other) == if other == source then n else LastSeq(seen, other)
  {
    if seen != [] && seen[0].source != source {
      StoredSeq(seen[1..], source, n, other);
    }
  }

  ghost predicate Distinct(seen: seq<Seen>, sources: set<string>) {
    && (forall i | 0 <= i < |seen| :: seen[i].source in sources)
    && (forall i, j | 0 <= i < j < |seen| :: seen[i].source != seen[j].source)
  }

  predicate Knows(seen: seq<Seen>, source: string) {
    exists i :: 0 <= i < |seen| && seen[i].source == source
  }

  /** Storing a number keeps the table's order and either replaces an entry or adds the last. */
  lemma {:induction false} StoreShape(seen: seq<Seen>, source: string, n: int)
    ensures !Knows(seen, source) ==> Store(seen, source, n) == seen + [Seen(source, n)]
    ensures Knows(seen, source) ==>
              && |Store(seen, source, n)| == |seen|
              && forall i :: 0 <= i < |seen| ==> Store(seen, source, n)[i].source == seen[i].source
  {
    if seen != [] && seen[0].source != source {
      StoreShape(seen[1..], source, n);
      assert Knows(seen, source) ==> Knows(seen[1..], source) by {
        if Knows(seen, source) {
          var i :| 0 <= i < |seen| && seen[i].source == source;
          assert seen[1..][i - 1].source == source;
        }
      }
      assert Knows(seen[1..], source) ==> Knows(seen, source) by {
        if Knows(seen[1..], source) {
          var i :| 0 <= i < |seen[1..]| && seen[1..][i].source == source;
          assert seen[i + 1].source == source;
        }
      }
    }
  }

  lemma StoreKeepsDistinct(seen: seq<Seen>, source: string, n: int, sources: set<string>)
    requires Distinct(seen, sources) && source in sources
    ensures Distinct(Store(seen, source, n), sources)
  {
    StoreShape(seen, source, n);
  }

  lemma {:induction false} DistinctFits(seen: seq<Seen>, sources: set<string>)
    requires Distinct(seen, sources)
    ensures |seen| <= |sources|
  {
    if seen != [] {
      DistinctFits(seen[1..], sources - {seen[0].source});
    }
  }

  function SourceOf(e: Event): set<string> {
    if e.Receive? && e.payload.source.Text? then {e.payload.source.text} else {}
  }

  /** One event keeps the table free of duplicates and lowers no number in it; a command that
      takes any effect leaves its own number there. */
  lemma TableStep(w: World, e: Event, sources: set<string>)
    requires Distinct(w.core.seen, sources) && SourceOf(e) <= sources && |sources| <= MAX_KNOWN_SOURCES
    ensures Distinct(Apply(w, e).core.seen, sources)
    ensures forall x :: LastSeq(Apply(w, e).core.seen, x) >= LastSeq(w.core.seen, x)
    ensures e.Receive? && !Apply(w, e).log[|w.log|].effect.Rejected? ==>
              && e.payload.source.Text? && e.payload.sequence.Int?
              && LastSeq(Apply(w, e).core.seen, e.payload.source.text) == e.payload.sequence.whole
  {
    if e.Receive? {
      AcceptTable(w.core, e.payload, e.at, e.age, sources);
    } else if e.Pulse? {
      TickTable(w.core, e.at, e.surroundings);
    }
  }

  lemma TickTable(s: Bridge, now: real, e: Surroundings)
    ensures Tick(s, now, e).state.seen == s.seen
  {
  }

  lemma AcceptTable(s: Bridge, p: Payload, now: real, age: Value, sources: set<string>)
    requires Distinct(s.seen, sources) && |sources| <= MAX_KNOWN_SOURCES
    requires p.source.Text? ==> p.source.text in sources
    ensures var t := Accept(s, p, now, age);
            && Distinct(t.state.seen, sources)
            && (forall x :: LastSeq(t.state.seen, x) >= LastSeq(s.seen, x))
            && (!t.effect.Rejected? ==>
                  && p.source.Text? && p.sequence.Int?
                  && LastSeq(t.state.seen, p.source.text) == p.sequence.whole)
  {
    var checked := Validate(s.cfg, p, age);
    if checked.Ok? {
      var h := checked.value;
      var admitted := AcceptSource(s, h, now);
      if admitted.Ok? {
        DispatchTable(admitted.value, p, h, now);
        var stored := Store(s.seen, h.source, h.serial);
        StoreKeepsDistinct(s.seen, h.source, h.serial, sources);
        DistinctFits(stored, sources);
        assert Evict(stored, h.source) == stored;
        forall x ensures LastSeq(stored, x) >= LastSeq(s.seen, x) {
          StoredSeq(s.seen, h.source, h.serial, x);
        }
        StoredSeq(s.seen, h.source, h.serial, h.source);
      }
    }
  }

  lemma DispatchTable(s: Bridge, p: Payload, h: Header, now: real)
    ensures Dispatch(s, p, h, now).state.seen == s.seen
  {
  }

  // ----- what the table forgets -----------------------------------------------------------

  /** A source is forgotten, and its numbers may then be taken again, exactly when it is the
      oldest of sixteen and a command from a seventeenth is stored. */
  lemma ForgottenExactly(seen: seq<Seen>, sources: set<string>, source: string, n: int, other: string)
    requires Distinct(seen, sources) && |seen| <= MAX_KNOWN_SOURCES && Knows(seen, other)
    ensures !Knows(Evict(Store(seen, source, n), source), other) <==>
              |seen| == MAX_KNOWN_SOURCES && !Knows(seen, source) && other == seen[0].source
  {
    var stored := Store(seen, source, n);
    var after := Evict(stored, source);
    StoreShape(seen, source, n);
    var i :| 0 <= i < |seen| && seen[i].source == other;
    assert stored[i].source == other;
    if |seen| == MAX_KNOWN_SOURCES && !Knows(seen, source) {
      assert after == stored[1..];
      if i > 0 {
        assert after[i - 1].source == other;
      }
    }
  }
}
