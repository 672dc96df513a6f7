/** Replays over whole runs. The watchdog remembers the numbers of sixteen sources; this module
    says, for any run and any number of sources, exactly which replayed numbers are refused,
    and exhibits one that is taken. */
module BridgeReplay {
  import opened Wire
  import opened SportApi
  import opened BridgeCore
  import opened BridgeRuns
  import opened BridgeAdmission

  // ----- what a run stores ----------------------------------------------------------------

  /** The number a command leaves in the table: those of refused copies and of commands from a
      source that does not own the robot are not stored, every other valid one is, whatever
      becomes of the command afterwards. */
  function Stored(s: Bridge, e: Event): Option<Seen> {
    if !e.Receive? then None
    else
      match Validate(s.cfg, e.payload, e.age)
      case Err(_) => None
      case Ok(h) => if AcceptSource(s, h, e.at).Ok? then Some(Seen(h.source, h.serial)) else None
  }

  /** Everything a run stores, in order. */
  function Stores(c: Settings, events: seq<Event>): seq<Seen> {
    if events == [] then []
    else
      var before, e := events[..|events| - 1], events[|events| - 1];
      match Stored(Run(c, before).core, e)
      case None => Stores(c, before)
      case Some(x) => Stores(c, before) + [x]
  }

  // ----- reference readings, without a table ------------------------------------------------

  function Recent(arrivals: seq<string>): seq<string> {
    if |arrivals| <= MAX_KNOWN_SOURCES then arrivals else arrivals[|arrivals| - MAX_KNOWN_SOURCES..]
  }

  /** The sources in the order of their arrival: a source arrives with a stored number when it
      is not among the last sixteen that arrived. */
  function Arrivals(stores: seq<Seen>): seq<string> {
    if stores == [] then []
    else
      var a, x := Arrivals(stores[..|stores| - 1]), stores[|stores| - 1].source;
      if x in Recent(a) then a else a + [x]
  }

  /** The last number stored from a source. */
  function LatestNumber(stores: seq<Seen>, source: string): int {
    if stores == [] then -1
    else if stores[|stores| - 1].source == source then stores[|stores| - 1].serial
    else LatestNumber(stores[..|stores| - 1], source)
  }

  // ----- the table is the last sixteen arrivals ------------------------------------------------

  lemma CommandStores(s: Bridge, p: Payload, at: real, age: Value)
    ensures Accept(s, p, at, age).state.cfg == s.cfg
    ensures Accept(s, p, at, age).state.seen ==
            match Stored(s, Receive(at, p, age))
            case None => s.seen
            case Some(x) => Evict(Store(s.seen, x.source, x.serial), x.source)
    ensures !Accept(s, p, at, age).effect.Rejected? ==> Stored(s, Receive(at, p, age)).Some?
  {
    var checked := Validate(s.cfg, p, age);
    if checked.Ok? && AcceptSource(s, checked.value, at).Ok? {
      DispatchTable(AcceptSource(s, checked.value, at).value, p, checked.value, at);
      DispatchSettings(AcceptSource(s, checked.value, at).value, p, checked.value, at);
    }
  }

  lemma DispatchSettings(s: Bridge, p: Payload, h: Header, now: real)
    ensures Dispatch(s, p, h, now).state.cfg == s.cfg
  {}

  lemma EventStores(w: World, e: Event)
    ensures Apply(w, e).core.cfg == w.core.cfg
    ensures Apply(w, e).core.seen ==
            match Stored(w.core, e)
            case None => w.core.seen
            case Some(x) => Evict(Store(w.core.seen, x.source, x.serial), x.source)
  {
    if e.Receive? {
      CommandStores(w.core, e.payload, e.at, e.age);
    } else if e.Pulse? {
      TickTable(w.core, e.at, e.surroundings);
    }
  }

  /** A table lists the given sources in order, each once and with its last number. */
  ghost predicate Matches(seen: seq<Seen>, recent: seq<string>, stores: seq<Seen>) {
    && |seen| == |recent|
    && (forall i :: 0 <= i < |seen| ==> seen[i].source == recent[i])
    && (forall i :: 0 <= i < |seen| ==> seen[i].serial == LatestNumber(stores, seen[i].source))
    && forall i, j :: 0 <= i < j < |seen| ==> seen[i].source != seen[j].source
  }

  ghost predicate Lists(seen: seq<Seen>, stores: seq<Seen>) {
    Matches(seen, Recent(Arrivals(stores)), stores)
  }

  /** Where a source stands in a table decides what is found there. */
  lemma {:induction false} LastSeqAt(seen: seq<Seen>, i: nat)
    requires i < |seen| && forall j, k :: 0 <= j < k < |seen| ==> seen[j].source != seen[k].source
    ensures LastSeq(seen, seen[i].source) == seen[i].serial
  {
    if i > 0 {
      LastSeqAt(seen[1..], i - 1);
    }
  }

  lemma {:induction false} LastSeqAbsent(seen: seq<Seen>, source: string)
    requires !Knows(seen, source)
    ensures LastSeq(seen, source) == -1
  {
    if seen != [] {
      assert seen[0].source != source;
      forall i | 0 <= i < |seen[1..]| ensures seen[1..][i].source != source {
        assert seen[i + 1].source != source;
      }
      LastSeqAbsent(seen[1..], source);
    }
  }

  /** Storing the number of a listed source renumbers its entry and no other. */
  lemma {:induction false} StoreKnown(seen: seq<Seen>, source: string, n: int, i: nat)
    requires i < |seen| && seen[i].source == source
    requires forall j, k :: 0 <= j < k < |seen| ==> seen[j].source != seen[k].source
    ensures Store(seen, source, n) == seen[i := Seen(source, n)]
  {
    if i > 0 {
      StoreKnown(seen[1..], source, n, i - 1);
    }
  }

  lemma LatestGrows(stores: seq<Seen>, x: Seen, source: string)
    ensures LatestNumber(stores + [x], source) == if source == x.source then x.serial else LatestNumber(stores, source)
  {
    assert (stores + [x])[..|stores|] == stores;
  }

  lemma RecentGrows(arrivals: seq<string>, source: string)
    ensures var recent := Recent(arrivals);
            Recent(arrivals + [source]) == (if |recent| < MAX_KNOWN_SOURCES then recent else recent[1..]) + [source]
  {
    var n := |arrivals|;
    if n >= MAX_KNOWN_SOURCES {
      assert (arrivals + [source])[n + 1 - MAX_KNOWN_SOURCES..] == arrivals[n - MAX_KNOWN_SOURCES..][1..] + [source];
    }
  }

  /** How the recent arrivals change with one more stored number. */
  lemma ArrivalsGrow(stores: seq<Seen>, x: Seen)
    ensures var recent, grown := Recent(Arrivals(stores)), Arrivals(stores + [x]);
            if x.source in recent then grown == Arrivals(stores)
            else
              && grown == Arrivals(stores) + [x.source]
              && Recent(grown) == (if |recent| < MAX_KNOWN_SOURCES then recent else recent[1..]) + [x.source]
  {
    assert (stores + [x])[..|stores|] == stores;
    RecentGrows(Arrivals(stores), x.source);
  }

  lemma KnownStoreMatches(seen: seq<Seen>, recent: seq<string>, stores: seq<Seen>, x: Seen, i: nat)
    requires Matches(seen, recent, stores) && i < |seen| && seen[i].source == x.source
    ensures Matches(seen[i := x], recent, stores + [x])
  {
    var after := seen[i := x];
    forall k | 0 <= k < |after| ensures after[k].serial == LatestNumber(stores + [x], after[k].source) {
      LatestGrows(stores, x, after[k].source);
    }
  }

  lemma KnownStoreLists(seen: seq<Seen>, stores: seq<Seen>, x: Seen, i: nat)
    requires Lists(seen, stores) && |seen| <= MAX_KNOWN_SOURCES && i < |seen| && seen[i].source == x.source
    ensures Lists(Evict(Store(seen, x.source, x.serial), x.source), stores + [x])
  {
    ArrivalsGrow(stores, x);
    StoreKnown(seen, x.source, x.serial, i);
    KnownStoreMatches(seen, Recent(Arrivals(stores)), stores, x, i);
  }

  lemma OldestLeaves(seen: seq<Seen>, recent: seq<string>, stores: seq<Seen>)
    requires Matches(seen, recent, stores) && seen != []
    ensures Matches(seen[1..], recent[1..], stores)
  {}

  lemma NewcomerJoins(seen: seq<Seen>, recent: seq<string>, stores: seq<Seen>, x: Seen)
    requires Matches(seen, recent, stores) && !Knows(seen, x.source)
    ensures Matches(seen + [x], recent + [x.source], stores + [x])
  {
    var after := seen + [x];
    forall k | 0 <= k < |after| ensures after[k].serial == LatestNumber(stores + [x], after[k].source) {
      LatestGrows(stores, x, after[k].source);
      if k < |seen| {
        assert seen[k].source != x.source;
      }
    }
  }

  /** A newcomer goes last, and the oldest of sixteen makes room for it. */
  lemma NewcomerStores(seen: seq<Seen>, x: Seen)
    requires !Knows(seen, x.source) && |seen| <= MAX_KNOWN_SOURCES
    ensures Evict(Store(seen, x.source, x.serial), x.source) ==
            (if |seen| < MAX_KNOWN_SOURCES then seen else seen[1..]) + [x]
  {
    StoreShape(seen, x.source, x.serial);
    if |seen| == MAX_KNOWN_SOURCES {
      assert seen[0].source != x.source;
    }
  }

  lemma NewStoreLists(seen: seq<Seen>, stores: seq<Seen>, x: Seen)
    requires Lists(seen, stores) && |seen| <= MAX_KNOWN_SOURCES && !Knows(seen, x.source)
    ensures Lists(Evict(Store(seen, x.source, x.serial), x.source), stores + [x])
  {
    var recent := Recent(Arrivals(stores));
    forall i | 0 <= i < |recent| ensures recent[i] != x.source {
      assert seen[i].source == recent[i];
    }
    NewcomerStores(seen, x);
    ArrivalsGrow(stores, x);
    if |seen| < MAX_KNOWN_SOURCES {
      NewcomerJoins(seen, recent, stores, x);
    } else {
      OldestLeaves(seen, recent, stores);
      forall i | 0 <= i < |seen[1..]| ensures seen[1..][i].source != x.source {
        assert seen[i + 1].source == recent[i + 1];
      }
      NewcomerJoins(seen[1..], recent[1..], stores, x);
    }
  }

  /** After any run the table is the last sixteen arrivals with their last numbers. */
  lemma {:induction false} TableIsRecent(c: Settings, events: seq<Event>)
    ensures Lists(Run(c, events).core.seen, Stores(c, events)) && Run(c, events).core.cfg == c
  {
    if events != [] {
      var before, e := events[..|events| - 1], events[|events| - 1];
      var w := Run(c, before);
      TableIsRecent(c, before);
      EventStores(w, e);
      var stored := Stored(w.core, e);
      if stored.Some? {
        assert |w.core.seen| <= MAX_KNOWN_SOURCES;
        if Knows(w.core.seen, stored.value.source) {
          var i :| 0 <= i < |w.core.seen| && w.core.seen[i].source == stored.value.source;
          KnownStoreLists(w.core.seen, Stores(c, before), stored.value, i);
        } else {
          NewStoreLists(w.core.seen, Stores(c, before), stored.value);
        }
      }
    }
  }

  /** The number remembered for a source: its last one while it is recent, and none after. */
  function Remembered(stores: seq<Seen>, source: string): int {
    if source in Recent(Arrivals(stores)) then LatestNumber(stores, source) else -1
  }

  lemma TableRemembers(c: Settings, events: seq<Event>, source: string)
    ensures LastSeq(Run(c, events).core.seen, source) == Remembered(Stores(c, events), source)
    ensures Knows(Run(c, events).core.seen, source) <==> source in Recent(Arrivals(Stores(c, events)))
  {
    TableIsRecent(c, events);
    var seen, recent := Run(c, events).core.seen, Recent(Arrivals(Stores(c, events)));
    if Knows(seen, source) {
      var i :| 0 <= i < |seen| && seen[i].source == source;
      LastSeqAt(seen, i);
      assert recent[i] == source;
    } else {
      LastSeqAbsent(seen, source);
      forall i | 0 <= i < |recent| ensures recent[i] != source {
        assert seen[i].source == recent[i];
      }
    }
  }

  lemma AcceptReplays(s: Bridge, p: Payload, at: real, age: Value)
    requires Validate(s.cfg, p, age).Ok?
    ensures var h := Validate(s.cfg, p, age).value;
            Accept(s, p, at, age).effect == Rejected(Replayed) <==> h.serial <= LastSeq(s.seen, h.source)
  {
    var h := Validate(s.cfg, p, age).value;
    if AcceptSource(s, h, at).Ok? {
      NeverReplayed(AcceptSource(s, h, at).value, p, h, at);
    }
  }

  /** Past the table no command is refused as a replay. */
  lemma NeverReplayed(s: Bridge, p: Payload, h: Header, now: real)
    ensures Dispatch(s, p, h, now).effect != Rejected(Replayed)
  {}

  lemma ValidNumber(c: Settings, p: Payload, age: Value)
    ensures Validate(c, p, age).Ok? ==> Validate(c, p, age).value.serial >= 0
  {}

  /** A valid command is refused as a replay exactly when its source is among the last sixteen
      that arrived and the last number stored from it is that number or a higher one. */
  lemma ReplayIsExact(c: Settings, events: seq<Event>, p: Payload, at: real, age: Value)
    requires Validate(c, p, age).Ok?
    ensures var h, stores := Validate(c, p, age).value, Stores(c, events);
            Accept(Run(c, events).core, p, at, age).effect == Rejected(Replayed) <==>
              h.source in Recent(Arrivals(stores)) && h.serial <= LatestNumber(stores, h.source)
  {
    TableIsRecent(c, events);
    TableRemembers(c, events, Validate(c, p, age).value.source);
    AcceptReplays(Run(c, events).core, p, at, age);
    ValidNumber(c, p, age);
  }

  // ----- how long a source is remembered -----------------------------------------------------

  function Place(recent: seq<string>, source: string): (p: nat)
    requires source in recent
    ensures p < |recent| && recent[p] == source
  {
    if recent[0] == source then 0 else 1 + Place(recent[1..], source)
  }

  /** The place of a recent source in the order of arrival. */
  function Rank(arrivals: seq<string>, source: string): int
    requires source in Recent(arrivals)
  {
    |arrivals| - |Recent(arrivals)| + Place(Recent(arrivals), source)
  }

  /** How many newcomers a recent source outlasts: the free entries and those older than it. */
  function Room(arrivals: seq<string>, source: string): (room: int)
    requires source in Recent(arrivals)
    ensures 0 <= room == Rank(arrivals, source) + MAX_KNOWN_SOURCES - |arrivals|
  {
    MAX_KNOWN_SOURCES - |Recent(arrivals)| + Place(Recent(arrivals), source)
  }

  /** One event brings at most one newcomer, which was not recent. */
  predicate Extends(a: seq<string>, b: seq<string>) {
    b == a || (|b| == |a| + 1 && b[..|a|] == a && b[|a|] !in Recent(a))
  }

  predicate Unrepeated(a: seq<string>) {
    forall i, j :: 0 <= i < j < |a| ==> a[i] != a[j]
  }

  /** The arrivals after each event of a run, from none on. */
  ghost predicate Growing(history: seq<seq<string>>) {
    && (forall k :: 0 <= k < |history| ==> Unrepeated(Recent(history[k])))
    && forall k :: 0 <= k && k + 1 < |history| ==> ExtendsAt(history, k)
  }

  predicate ExtendsAt(history: seq<seq<string>>, k: nat)
    requires k + 1 < |history|
  {
    Extends(history[k], history[k + 1])
  }

  predicate StandsAt(b: seq<string>, rank: int, source: string) {
    && 0 <= rank < |b| && b[rank] == source && |b| - MAX_KNOWN_SOURCES <= rank
    && forall k :: rank < k < |b| ==> b[k] != source
  }

  lemma StandingIsRecent(b: seq<string>, rank: int, source: string)
    requires StandsAt(b, rank, source)
    ensures source in Recent(b)
  {
    assert b[rank] == Recent(b)[rank - (|b| - |Recent(b)|)];
  }

  lemma RecentStands(a: seq<string>, source: string)
    requires source in Recent(a) && Unrepeated(Recent(a))
    ensures StandsAt(a, Rank(a, source), source)
  {
    var rank := Rank(a, source);
    forall k | rank < k < |a| ensures a[k] != source {
      assert a[k] == Recent(a)[k - (|a| - |Recent(a)|)];
    }
  }

  lemma StandsOn(a: seq<string>, b: seq<string>, rank: int, source: string)
    requires StandsAt(a, rank, source) && Extends(a, b) && |b| - MAX_KNOWN_SOURCES <= rank
    ensures StandsAt(b, rank, source)
  {
    StandingIsRecent(a, rank, source);
    if b != a {
      assert b[rank] == b[..|a|][rank];
      forall k | rank < k < |b| ensures b[k] != source {
        assert k < |a| ==> b[k] == b[..|a|][k];
      }
    }
  }

  /** While the newcomers fit its room, a source stays at its place in the order of arrival. */
  lemma {:induction false} StandsThrough(history: seq<seq<string>>, i: nat, j: nat, source: string, rank: int)
    requires Growing(history) && i <= j < |history| && StandsAt(history[i], rank, source)
    requires |history[j]| - MAX_KNOWN_SOURCES <= rank
    ensures StandsAt(history[j], rank, source)
    decreases j - i
  {
    if i < j {
      assert ExtendsAt(history, j - 1);
      StandsThrough(history, i, j - 1, source, rank);
      StandsOn(history[j - 1], history[j], rank, source);
    }
  }

  /** The newcomer that exceeds the room pushes the source out. */
  lemma PushedOut(a: seq<string>, b: seq<string>, rank: int, source: string)
    requires StandsAt(a, rank, source) && Extends(a, b) && b != a && |b| - MAX_KNOWN_SOURCES == rank + 1
    ensures source !in Recent(b)
  {
    StandingIsRecent(a, rank, source);
    forall x | 0 <= x < |Recent(b)| ensures Recent(b)[x] != source {
      var k := |b| - |Recent(b)| + x;
      assert Recent(b)[x] == b[k];
      assert k < |a| ==> b[k] == b[..|a|][k];
    }
  }

  lemma OverflowsNow(a: seq<string>, b: seq<string>, rank: int, source: string)
    requires StandsAt(a, rank, source) && Extends(a, b) && rank < |b| - MAX_KNOWN_SOURCES
    ensures source !in Recent(b)
  {
    PushedOut(a, b, rank, source);
  }

  lemma {:induction false} Overflows(history: seq<seq<string>>, i: nat, j: nat, source: string, rank: int)
    returns (k: nat)
    requires Growing(history) && i <= j < |history| && StandsAt(history[i], rank, source)
    requires rank < |history[j]| - MAX_KNOWN_SOURCES
    ensures i < k <= j && source !in Recent(history[k])
    decreases j - i
  {
    assert ExtendsAt(history, j - 1);
    if rank < |history[j - 1]| - MAX_KNOWN_SOURCES {
      k := Overflows(history, i, j - 1, source, rank);
    } else {
      StandsThrough(history, i, j - 1, source, rank);
      OverflowsNow(history[j - 1], history[j], rank, source);
      k := j;
    }
  }

  lemma {:induction false} HistoryGrows(history: seq<seq<string>>, i: nat, j: nat)
    requires Growing(history) && i <= j < |history|
    ensures |history[i]| <= |history[j]|
    decreases j - i
  {
    if i < j {
      assert ExtendsAt(history, j - 1);
      HistoryGrows(history, i, j - 1);
    }
  }

  ghost predicate RecentThroughout(history: seq<seq<string>>, i: nat, j: nat, source: string)
    requires i <= j < |history|
  {
    forall k :: i <= k <= j ==> source in Recent(history[k])
  }

  lemma RecentExactly(history: seq<seq<string>>, i: nat, j: nat, source: string)
    requires Growing(history) && i <= j < |history| && source in Recent(history[i])
    ensures RecentThroughout(history, i, j, source) <==>
              |history[j]| - |history[i]| <= Room(history[i], source)
  {
    var rank := Rank(history[i], source);
    RecentStands(history[i], source);
    if |history[j]| - MAX_KNOWN_SOURCES <= rank {
      forall k | i <= k <= j ensures source in Recent(history[k]) {
        HistoryGrows(history, k, j);
        StandsThrough(history, i, k, source, rank);
        StandingIsRecent(history[k], rank, source);
      }
    } else {
      var k := Overflows(history, i, j, source, rank);
    }
  }

  // ----- the same for runs ----------------------------------------------------------------------

  function ArrivalsBefore(c: Settings, events: seq<Event>, k: nat): seq<string>
    requires k <= |events|
  {
    Arrivals(Stores(c, events[..k]))
  }

  function History(c: Settings, events: seq<Event>): (history: seq<seq<string>>)
    ensures |history| == |events| + 1
    ensures forall k :: 0 <= k <= |events| ==> history[k] == ArrivalsBefore(c, events, k)
  {
    seq(|events| + 1, k requires 0 <= k <= |events| => ArrivalsBefore(c, events, k))
  }

  /** How many sources arrive from before event `i` to before event `j`. */
  function Newcomers(c: Settings, events: seq<Event>, i: nat, j: nat): int
    requires i <= |events| && j <= |events|
  {
    |ArrivalsBefore(c, events, j)| - |ArrivalsBefore(c, events, i)|
  }

  /** The source is in the table before each of the events `i` to `j`. */
  ghost predicate KnownThroughout(c: Settings, events: seq<Event>, i: nat, j: nat, source: string)
    requires i <= j <= |events|
  {
    forall k :: i <= k <= j ==> KnownBefore(c, events, k, source)
  }

  predicate KnownBefore(c: Settings, events: seq<Event>, k: nat, source: string)
    requires k <= |events|
  {
    source in Recent(ArrivalsBefore(c, events, k))
  }

  lemma ArrivalStep(c: Settings, events: seq<Event>, k: nat)
    requires k < |events|
    ensures Extends(ArrivalsBefore(c, events, k), ArrivalsBefore(c, events, k + 1))
  {
    assert events[..k + 1][..k] == events[..k];
    var stored := Stored(Run(c, events[..k]).core, events[k]);
    if stored.Some? {
      ArrivalsGrow(Stores(c, events[..k]), stored.value);
    }
  }

  lemma RecentAreDistinct(c: Settings, events: seq<Event>)
    ensures Unrepeated(Recent(Arrivals(Stores(c, events))))
  {
    TableIsRecent(c, events);
    var seen, recent := Run(c, events).core.seen, Recent(Arrivals(Stores(c, events)));
    forall i, j | 0 <= i < j < |recent| ensures recent[i] != recent[j] {
      assert seen[i].source == recent[i] && seen[j].source == recent[j];
    }
  }

  lemma HistoryIsGrowing(c: Settings, events: seq<Event>)
    ensures Growing(History(c, events))
  {
    var history := History(c, events);
    forall k | 0 <= k < |history| ensures Unrepeated(Recent(history[k])) {
      RecentAreDistinct(c, events[..k]);
    }
    forall k | 0 <= k && k + 1 < |history| ensures ExtendsAt(history, k) {
      ArrivalStep(c, events, k);
    }
  }

  /** A source is remembered without a break exactly as long as no more newcomers arrive than
      there are free entries and entries older than its own. */
  lemma RememberedExactly(c: Settings, events: seq<Event>, i: nat, j: nat, source: string)
    requires i <= j <= |events| && KnownBefore(c, events, i, source)
    ensures KnownThroughout(c, events, i, j, source) <==>
              Newcomers(c, events, i, j) <= Room(ArrivalsBefore(c, events, i), source)
  {
    var history := History(c, events);
    HistoryIsGrowing(c, events);
    RecentExactly(history, i, j, source);
    assert forall k :: i <= k <= j ==> (source in Recent(history[k]) <==> KnownBefore(c, events, k, source));
  }

  // ----- no replay ----------------------------------------------------------------------------

  function StoredBy(c: Settings, events: seq<Event>, i: nat): Option<Seen>
    requires i < |events|
  {
    Stored(Run(c, events[..i]).core, events[i])
  }

  function StoresBefore(c: Settings, events: seq<Event>, k: nat): seq<Seen>
    requires k <= |events|
  {
    Stores(c, events[..k])
  }

  lemma StoresStep(c: Settings, events: seq<Event>, k: nat)
    requires k < |events|
    ensures StoresBefore(c, events, k + 1) ==
            match StoredBy(c, events, k)
            case None => StoresBefore(c, events, k)
            case Some(x) => StoresBefore(c, events, k) + [x]
  {
    assert events[..k + 1][..k] == events[..k];
  }

  /** A stored number is above the one remembered for its source. */
  lemma StoredIsNew(c: Settings, events: seq<Event>, k: nat)
    requires k < |events| && StoredBy(c, events, k).Some?
    ensures var x := StoredBy(c, events, k).value;
            x.serial > Remembered(StoresBefore(c, events, k), x.source) && x.serial >= 0
  {
    var x := StoredBy(c, events, k).value;
    TableRemembers(c, events[..k], x.source);
    ValidNumber(Run(c, events[..k]).core.cfg, events[k].payload, events[k].age);
  }

  /** The source of a stored number is recent right after it. */
  lemma StoredIsRecent(c: Settings, events: seq<Event>, k: nat)
    requires k < |events| && StoredBy(c, events, k).Some?
    ensures var x := StoredBy(c, events, k).value;
            && KnownBefore(c, events, k + 1, x.source)
            && LatestNumber(StoresBefore(c, events, k + 1), x.source) == x.serial
  {
    var x, stores := StoredBy(c, events, k).value, StoresBefore(c, events, k);
    StoresStep(c, events, k);
    ArrivalsGrow(stores, x);
    LatestGrows(stores, x, x.source);
  }

  /** While a source is known, its last number does not fall. */
  lemma {:induction false} LatestRises(c: Settings, events: seq<Event>, i: nat, j: nat, source: string)
    requires i <= j <= |events| && KnownThroughout(c, events, i, j, source)
    ensures LatestNumber(StoresBefore(c, events, i), source) <= LatestNumber(StoresBefore(c, events, j), source)
    decreases j - i
  {
    if i < j {
      LatestRises(c, events, i, j - 1, source);
      LatestStep(c, events, j - 1, source);
    }
  }

  lemma LatestStep(c: Settings, events: seq<Event>, k: nat, source: string)
    requires k < |events| && KnownBefore(c, events, k, source)
    ensures LatestNumber(StoresBefore(c, events, k), source) <= LatestNumber(StoresBefore(c, events, k + 1), source)
  {
    StoresStep(c, events, k);
    var stored := StoredBy(c, events, k);
    if stored.Some? {
      LatestGrows(StoresBefore(c, events, k), stored.value, source);
      StoredIsNew(c, events, k);
    }
  }

  predicate NoneStored(c: Settings, events: seq<Event>, i: nat, j: nat, source: string)
    requires i <= j <= |events|
  {
    forall k :: i <= k < j ==> !StoresFrom(c, events, k, source)
  }

  predicate StoresFrom(c: Settings, events: seq<Event>, k: nat, source: string)
    requires k < |events|
  {
    StoredBy(c, events, k).Some? && StoredBy(c, events, k).value.source == source
  }

  lemma QuietStep(c: Settings, events: seq<Event>, k: nat, source: string)
    requires k < |events| && !StoresFrom(c, events, k, source)
    ensures LatestNumber(StoresBefore(c, events, k + 1), source) == LatestNumber(StoresBefore(c, events, k), source)
    ensures KnownBefore(c, events, k + 1, source) ==> KnownBefore(c, events, k, source)
  {
    StoresStep(c, events, k);
    var stored := StoredBy(c, events, k);
    if stored.Some? {
      LatestGrows(StoresBefore(c, events, k), stored.value, source);
      ArrivalsGrow(StoresBefore(c, events, k), stored.value);
    }
  }

  /** What is known of one source before each event of a run. */
  datatype Standing = Standing(known: bool, latest: int)

  function StandingBefore(c: Settings, events: seq<Event>, k: nat, source: string): Standing
    requires k <= |events|
  {
    Standing(KnownBefore(c, events, k, source), LatestNumber(StoresBefore(c, events, k), source))
  }

  function Standings(c: Settings, events: seq<Event>, source: string): (all: seq<Standing>)
    ensures |all| == |events| + 1
    ensures forall k :: 0 <= k <= |events| ==> all[k] == StandingBefore(c, events, k, source)
  {
    seq(|events| + 1, k requires 0 <= k <= |events| => StandingBefore(c, events, k, source))
  }

  predicate QuietAt(all: seq<Standing>, k: nat)
    requires k + 1 < |all|
  {
    all[k + 1].latest == all[k].latest && (all[k + 1].known ==> all[k].known)
  }

  lemma {:induction false} QuietStretch(all: seq<Standing>, i: nat, j: nat)
    requires i <= j < |all| && forall k :: i <= k < j ==> QuietAt(all, k)
    ensures all[j].latest == all[i].latest
    ensures all[j].known ==> forall k :: i <= k <= j ==> all[k].known
    decreases j - i
  {
    if i < j {
      QuietStretch(all, i, j - 1);
      assert QuietAt(all, j - 1);
    }
  }

  /** Without new numbers from it a forgotten source stays forgotten. */
  lemma QuietRun(c: Settings, events: seq<Event>, i: nat, j: nat, source: string)
    requires i <= j <= |events| && NoneStored(c, events, i, j, source)
    ensures LatestNumber(StoresBefore(c, events, j), source) == LatestNumber(StoresBefore(c, events, i), source)
    ensures KnownBefore(c, events, j, source) ==> KnownThroughout(c, events, i, j, source)
  {
    var all := Standings(c, events, source);
    forall k | i <= k < j ensures QuietAt(all, k) {
      QuietStep(c, events, k, source);
    }
    QuietStretch(all, i, j);
    if KnownBefore(c, events, j, source) {
      forall k | i <= k <= j ensures KnownBefore(c, events, k, source) {
        assert all[k] == StandingBefore(c, events, k, source);
      }
    }
  }

  /** The source of event `i` outlasts the newcomers up to event `j`. */
  predicate Outlasts(c: Settings, events: seq<Event>, i: nat, j: nat, source: string)
    requires i <= |events| && j <= |events|
  {
    && KnownBefore(c, events, i, source)
    && Newcomers(c, events, i, j) <= Room(ArrivalsBefore(c, events, i), source)
  }

  lemma RememberedRises(c: Settings, events: seq<Event>, i: nat, j: nat, source: string)
    requires i <= j <= |events| && Outlasts(c, events, i, j, source)
    ensures Remembered(StoresBefore(c, events, i), source) <= Remembered(StoresBefore(c, events, j), source)
  {
    RememberedExactly(c, events, i, j, source);
    LatestRises(c, events, i, j, source);
    assert KnownBefore(c, events, j, source) && KnownBefore(c, events, i, source);
  }

  /** No remembered number falls before its source has been forgotten. */
  lemma NumbersNeverRewind(c: Settings, events: seq<Event>, i: nat, j: nat, source: string)
    requires i <= j <= |events|
    ensures LastSeq(Run(c, events[..j]).core.seen, source) < LastSeq(Run(c, events[..i]).core.seen, source) ==>
              KnownBefore(c, events, i, source) && !Outlasts(c, events, i, j, source)
  {
    TableRemembers(c, events[..i], source);
    TableRemembers(c, events[..j], source);
    TableFloor(c, events[..j], source);
    if Outlasts(c, events, i, j, source) {
      RememberedRises(c, events, i, j, source);
    } else {
      assert LastSeq(Run(c, events[..j]).core.seen, source) >= -1;
    }
  }

  lemma {:induction false} TableFloor(c: Settings, events: seq<Event>, source: string)
    ensures LatestNumber(Stores(c, events), source) >= -1
  {
    if events != [] {
      var n := |events| - 1;
      assert events[..n + 1] == events;
      TableFloor(c, events[..n], source);
      StoresStep(c, events, n);
      if StoredBy(c, events, n).Some? {
        StoredIsNew(c, events, n);
        LatestGrows(Stores(c, events[..n]), StoredBy(c, events, n).value, source);
      }
    }
  }

  /** Once a command has left its number, that number and every lower one is refused from its
      source for as long as the source outlasts the newcomers, in runs with any number of
      sources; and a valid copy is refused as a replay for exactly that long, unless a later
      number from the same source was stored in between. */
  lemma NoReplay(c: Settings, events: seq<Event>, i: nat, j: nat)
    requires i < j < |events| && events[j].Receive? && StoredBy(c, events, i).Some?
    requires var p, x := events[j].payload, StoredBy(c, events, i).value;
             p.source.Text? && p.source.text == x.source && p.sequence.Int? && p.sequence.whole <= x.serial
    ensures var x := StoredBy(c, events, i).value;
            var effect := Accept(Run(c, events[..j]).core, events[j].payload, events[j].at, events[j].age).effect;
            && (Outlasts(c, events, i + 1, j, x.source) ==> effect.Rejected?)
            && (Validate(c, events[j].payload, events[j].age).Ok? && NoneStored(c, events, i + 1, j, x.source) ==>
                  (effect == Rejected(Replayed) <==> Outlasts(c, events, i + 1, j, x.source)))
  {
    var x := StoredBy(c, events, i).value;
    StoredIsRecent(c, events, i);
    RememberedExactly(c, events, i + 1, j, x.source);
    TableIsRecent(c, events[..j]);
    if Validate(c, events[j].payload, events[j].age).Ok? {
      ReplayIsExact(c, events[..j], events[j].payload, events[j].at, events[j].age);
      ValidHeader(c, events[j].payload, events[j].age);
      if Outlasts(c, events, i + 1, j, x.source) {
        LatestRises(c, events, i + 1, j, x.source);
        assert KnownBefore(c, events, j, x.source);
      }
      if NoneStored(c, events, i + 1, j, x.source) {
        QuietRun(c, events, i + 1, j, x.source);
      }
    } else {
      InvalidIsRejected(Run(c, events[..j]).core, events[j].payload, events[j].at, events[j].age);
    }
  }

  lemma ValidHeader(c: Settings, p: Payload, age: Value)
    requires Validate(c, p, age).Ok?
    ensures p.source.Text? && Validate(c, p, age).value.source == p.source.text
    ensures p.sequence.Int? && Validate(c, p, age).value.serial == p.sequence.whole
  {}

  lemma InvalidIsRejected(s: Bridge, p: Payload, at: real, age: Value)
    requires Validate(s.cfg, p, age).Err?
    ensures Accept(s, p, at, age).effect.Rejected?
  {}

  lemma {:induction false} UnrepeatedFits(a: seq<string>, names: set<string>)
    requires Unrepeated(a) && forall i :: 0 <= i < |a| ==> a[i] in names
    ensures |a| <= |names|
  {
    if a != [] {
      UnrepeatedFits(a[1..], names - {a[0]});
    }
  }

  lemma {:induction false} FewArrivals(stores: seq<Seen>, names: set<string>)
    requires |names| <= MAX_KNOWN_SOURCES && forall i :: 0 <= i < |stores| ==> stores[i].source in names
    ensures Unrepeated(Arrivals(stores)) && |Arrivals(stores)| <= MAX_KNOWN_SOURCES
    ensures forall i :: 0 <= i < |Arrivals(stores)| ==> Arrivals(stores)[i] in names
  {
    if stores != [] {
      FewArrivals(stores[..|stores| - 1], names);
      UnrepeatedFits(Arrivals(stores), names);
    }
  }

  /** In particular nothing is forgotten while at most sixteen sources have stored a number. */
  lemma SixteenSourcesAreKept(c: Settings, events: seq<Event>, i: nat, j: nat, names: set<string>, source: string)
    requires i <= j <= |events| && |names| <= MAX_KNOWN_SOURCES && KnownBefore(c, events, i, source)
    requires forall k :: 0 <= k < |StoresBefore(c, events, j)| ==> StoresBefore(c, events, j)[k].source in names
    ensures Outlasts(c, events, i, j, source)
  {
    FewArrivals(StoresBefore(c, events, j), names);
    assert Rank(ArrivalsBefore(c, events, i), source) >= 0;
  }

  // ----- a replay that is taken ---------------------------------------------------------------

  function Name(k: nat): (name: string)
    requires k <= MAX_KNOWN_SOURCES
    ensures |name| == 8
  {
    ['s', 'o', 'u', 'r', 'c', 'e', '-', (97 + k) as char]
  }

  lemma NamesDiffer(i: nat, k: nat)
    requires i < k <= MAX_KNOWN_SOURCES
    ensures Name(i) != Name(k)
  {
    assert Name(i)[7] != Name(k)[7];
  }

  /** A valid stop with number 0. */
  function StopFrom(c: Settings, source: string): Payload {
    Payload(Some(StopKind), Text(c.epoch, None), Text(source, None), Int(0),
            Absent, Absent, NoReason, None, Absent, Absent, Absent, Absent)
  }

  /** Stops from `n` different sources. */
  function Stops(c: Settings, n: nat): (events: seq<Event>)
    requires n <= MAX_KNOWN_SOURCES + 1
    ensures |events| == n
    ensures forall k :: 0 <= k < n ==> events[k] == Receive(0.0, StopFrom(c, Name(k)), Float(0.0))
  {
    seq(n, k requires 0 <= k < n => Receive(0.0, StopFrom(c, Name(k)), Float(0.0)))
  }

  lemma StopIsTaken(s: Bridge, source: string)
    requires |source| == 8
    ensures var r := Accept(s, StopFrom(s.cfg, source), 0.0, Float(0.0));
            && (LastSeq(s.seen, source) < 0 ==>
                  && r.effect == Stopped && r.state.cfg == s.cfg
                  && r.state.seen == Evict(Store(s.seen, source, 0), source))
            && (LastSeq(s.seen, source) >= 0 ==> r.effect == Rejected(Replayed))
  {
    CommandStores(s, StopFrom(s.cfg, source), 0.0, Float(0.0));
  }

  function Table(from: nat, to: nat): (seen: seq<Seen>)
    requires from <= to <= MAX_KNOWN_SOURCES + 1
    ensures |seen| == to - from
    ensures forall k :: 0 <= k < to - from ==> seen[k] == Seen(Name(from + k), 0)
  {
    seq(to - from, k requires 0 <= k < to - from => Seen(Name(from + k), 0))
  }

  lemma NotInTable(from: nat, to: nat, k: nat)
    requires from <= to <= MAX_KNOWN_SOURCES + 1 && k <= MAX_KNOWN_SOURCES && !(from <= k < to)
    ensures !Knows(Table(from, to), Name(k))
  {
    forall i | 0 <= i < to - from ensures Table(from, to)[i].source != Name(k) {
      if from + i < k { NamesDiffer(from + i, k); } else { NamesDiffer(k, from + i); }
    }
  }

  lemma {:induction false} StopsFillTheTable(c: Settings, n: nat)
    requires n <= MAX_KNOWN_SOURCES
    ensures Run(c, Stops(c, n)).core.seen == Table(0, n) && Run(c, Stops(c, n)).core.cfg == c
  {
    if n > 0 {
      assert Stops(c, n)[..n - 1] == Stops(c, n - 1);
      StopsFillTheTable(c, n - 1);
      NextStop(c, n - 1, Run(c, Stops(c, n - 1)).core);
      TableGrows(n - 1);
    }
  }

  lemma TableGrows(n: nat)
    requires n <= MAX_KNOWN_SOURCES
    ensures Table(0, n) + [Seen(Name(n), 0)] == Table(0, n + 1)
  {
  }

  lemma NextStop(c: Settings, n: nat, s: Bridge)
    requires n <= MAX_KNOWN_SOURCES && s.seen == Table(0, n) && s.cfg == c
    ensures var r := Accept(s, StopFrom(c, Name(n)), 0.0, Float(0.0));
            && r.effect == Stopped && r.state.cfg == c
            && r.state.seen == (if n < MAX_KNOWN_SOURCES then Table(0, n) else Table(0, n)[1..]) + [Seen(Name(n), 0)]
  {
    NotInTable(0, n, n);
    LastSeqAbsent(s.seen, Name(n));
    StopIsTaken(s, Name(n));
    NewcomerStores(s.seen, Seen(Name(n), 0));
  }

  /** Sixteen sources stop the robot, each with number 0; a second copy of the first stop is then
      refused as a replay, but after a stop from a seventeenth source it is taken. */
  lemma ReplayIsTaken(c: Settings)
    ensures var copy := StopFrom(c, Name(0));
            && Accept(Run(c, Stops(c, 16)).core, copy, 0.0, Float(0.0)).effect == Rejected(Replayed)
            && Accept(Run(c, Stops(c, 17)).core, copy, 0.0, Float(0.0)).effect == Stopped
  {
    var s := Run(c, Stops(c, 16)).core;
    StopsFillTheTable(c, 16);
    StopIsTaken(s, Name(0));
    assert Stops(c, 17)[..16] == Stops(c, 16);
    NextStop(c, 16, s);
    var t := Run(c, Stops(c, 17)).core;
    assert t.seen == Table(1, 17);
    NotInTable(1, 17, 0);
    LastSeqAbsent(t.seen, Name(0));
    StopIsTaken(t, Name(0));
  }
}
