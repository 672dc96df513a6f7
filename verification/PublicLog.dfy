/** The bounded public log: entries with increasing numbers in a ring that forgets the oldest,
    and clients that follow it with a cursor. */
module PublicLog {
  import opened Wire

  const MAX_ENTRIES := 100
  const MAX_CURSOR := 9_007_199_254_740_991

  datatype Source = Manager | Runtime | Parameters

  datatype Line = Line(source: Source, job: Option<nat>, message: string)

  datatype Entry = Entry(number: nat, line: Line)

  datatype Page = Page(entries: seq<Entry>, cursor: nat, latest: nat, truncated: bool, hasMore: bool)

  // ----- the reference: everything ever appended --------------------------------------------

  type History = seq<Entry>

  ghost predicate Numbered(h: History) {
    forall i :: 0 <= i < |h| ==> h[i].number == i + 1
  }

  function Least(a: int, b: int): int {
    if a <= b then a else b
  }

  function Most(a: int, b: int): int {
    if a >= b then a else b
  }

  /** How many entries a ring of this capacity has forgotten. */
  function Forgotten(h: History, capacity: nat): (n: nat)
    ensures n <= |h|
  {
    Most(0, |h| - capacity)
  }

  function Ring(h: History, capacity: nat): seq<Entry> {
    h[Forgotten(h, capacity)..]
  }

  /** What a poll shows of a history. A cursor of zero asks for the tail; any other for what
      follows it, as far as the ring still has it. */
  function Shown(h: History, capacity: nat, after: nat, limit: nat): Page {
    var n := |h|;
    var gone := Forgotten(h, capacity);
    if after == 0 then
      var from := Most(gone, n - limit);
      Page(h[from..], n, n, from > 0, false)
    else
      var from := Least(n, Most(after, gone));
      var to := Least(n, from + limit);
      Page(h[from..to], if from < to then to else n, n, after > n || after < gone, to < n)
  }

  class NavigationLog {
    const capacity: nat
    var logs: seq<Entry>
    var latest: nat
    ghost var history: History

    ghost predicate Valid()
      reads this
    {
      && 1 <= capacity && Numbered(history)
      && latest == |history| && logs == Ring(history, capacity)
    }

    constructor (capacity: nat)
      requires 10 <= capacity <= 5000
      ensures Valid() && history == [] && this.capacity == capacity
    {
      this.capacity := capacity;
      logs, latest, history := [], 0, [];
    }

    /** `deque.append` on a full deque drops the oldest entry. */
    method Append(line: Line)
      requires Valid()
      modifies this
      ensures Valid()
      ensures history == old(history) + [Entry(old(|history|) + 1, line)]
    {
      latest := latest + 1;
      logs := logs + [Entry(latest, line)];
      if |logs| > capacity {
        logs := logs[1..];
      }
      history := history + [Entry(latest, line)];
    }

    /** The retained entries beyond a cursor. */
    method Candidates(after: nat) returns (candidates: seq<Entry>)
      requires Valid()
      ensures candidates == history[Least(|history|, Most(after, Forgotten(history, capacity)))..]
    {
      candidates := [];
      var i := 0;
      ghost var gone := Forgotten(history, capacity);
      while i < |logs|
        invariant 0 <= i <= |logs|
        invariant candidates == history[Least(gone + i, Most(after, gone))..gone + i]
      {
        assert logs[i] == history[gone + i];
        if logs[i].number > after {
          candidates := candidates + [logs[i]];
        }
        i := i + 1;
      }
    }

    /** Whether a cursor points outside what the ring can continue. */
    method IsTruncated(after: nat) returns (truncated: bool, oldest: nat)
      requires Valid()
      ensures oldest == Forgotten(history, capacity) + 1
      ensures truncated <==> after > |history| || (after > 0 && after < Forgotten(history, capacity))
    {
      assert |logs| > 0 ==> logs[0] == history[Forgotten(history, capacity)];
      oldest := if |logs| > 0 then logs[0].number else latest + 1;
      truncated := after > latest || (after > 0 && after < oldest - 1);
    }

    method Tail(limit: nat) returns (page: Page)
      requires Valid() && 1 <= limit
      ensures page == Shown(history, capacity, 0, limit)
    {
      var selected := if |logs| > limit then logs[|logs| - limit..] else logs;
      assert selected == history[Most(Forgotten(history, capacity), |history| - limit)..];
      var truncated, oldest := IsTruncated(0);
      truncated := truncated || oldest > 1 || |logs| > limit;
      var cursor := if |selected| > 0 then selected[|selected| - 1].number else latest;
      return Page(selected, cursor, latest, truncated, false);
    }

    lemma FirstOf(h: History, from: nat, limit: nat)
      requires from <= |h|
      ensures (if |h[from..]| > limit then h[from..][..limit] else h[from..]) == h[from..Least(|h|, from + limit)]
    {
      if from + limit < |h| {
        assert h[from..][..limit] == h[from..from + limit];
      }
    }

    method Continuation(after: nat, limit: nat) returns (page: Page)
      requires Valid() && 1 <= after && 1 <= limit
      ensures page == Shown(history, capacity, after, limit)
    {
      ghost var n, gone := |history|, Forgotten(history, capacity);
      ghost var from := Least(n, Most(after, gone));
      var truncated, oldest := IsTruncated(after);
      var candidates := Candidates(after);
      var selected := if |candidates| > limit then candidates[..limit] else candidates;
      FirstOf(history, from, limit);
      assert selected != [] ==> selected[|selected| - 1] == history[Least(n, from + limit) - 1];
      var cursor := if |selected| > 0 then selected[|selected| - 1].number else latest;
      return Page(selected, cursor, latest, truncated, |candidates| > |selected|);
    }

    method ProgressSnapshot(after: int, limit: int) returns (r: Result<Page, string>)
      requires Valid()
      ensures r.Ok? <==> 0 <= after <= MAX_CURSOR && 1 <= limit <= MAX_ENTRIES
      ensures r.Ok? ==> r.value == Shown(history, capacity, after, limit)
    {
      if !(0 <= after <= MAX_CURSOR) {
        return Err("navigation log cursor is outside the supported range");
      }
      if !(1 <= limit <= MAX_ENTRIES) {
        return Err("navigation log limit must be from 1 to 100");
      }
      var page;
      if after == 0 {
        page := Tail(limit);
      } else {
        page := Continuation(after, limit);
      }
      return Ok(page);
    }
  }

  // ----- one poll ------------------------------------------------------------------------------

  /** A response that is not flagged continues exactly where the cursor stood, and the new
      cursor is where it ends; it says there is more exactly when there is. */
  lemma PageContinues(h: History, capacity: nat, after: nat, limit: nat)
    requires 1 <= capacity && 1 <= limit && after <= |h|
    ensures var p := Shown(h, capacity, after, limit);
            && p.cursor <= |h| && after <= p.cursor
            && (p.hasMore <==> p.cursor < |h|)
            && (!p.truncated ==> p.entries == h[after..p.cursor])
  {}

  /** A page is as full as it may be: it holds at most the limit, stops short of the end only when it
      holds that many, and starts right after the cursor or, if that is forgotten, at the oldest
      entry left; a first poll gets the newest entries. */
  lemma PageIsFull(h: History, capacity: nat, after: nat, limit: nat)
    requires 1 <= capacity && 1 <= limit
    ensures var p, gone := Shown(h, capacity, after, limit), Forgotten(h, capacity);
            && |p.entries| <= limit && p.latest == |h|
            && (after == 0 ==> p.entries == h[|h| - |p.entries|..] && |p.entries| == Least(limit, |h| - gone))
            && (0 < after <= |h| ==>
                  && p.entries == h[Most(after, gone)..Most(after, gone) + |p.entries|]
                  && (Most(after, gone) + |p.entries| == |h| || |p.entries| == limit))
            && (after > |h| ==> p.entries == [] && p.cursor == |h|)
  {}

  /** Numbered entries are retained exactly from the first not forgotten on. */
  lemma RetainedExactly(h: History, capacity: nat, i: nat)
    requires 1 <= capacity && Numbered(h) && i < |h|
    ensures h[i] in Ring(h, capacity) <==> Forgotten(h, capacity) <= i
  {
    var gone, ring := Forgotten(h, capacity), Ring(h, capacity);
    if gone <= i {
      assert ring[i - gone] == h[i];
    } else {
      forall k | 0 <= k < |ring| ensures ring[k] != h[i] {
        assert ring[k] == h[k + gone];
      }
    }
  }

  /** A response to a nonzero cursor is flagged exactly when the cursor is not one of this
      log's, or some entry after it has been forgotten; what it leaves out is then exactly what
      was forgotten. */
  lemma FlagIsExact(h: History, capacity: nat, after: nat, limit: nat)
    requires 1 <= capacity && 1 <= limit && 0 < after && Numbered(h)
    ensures var p := Shown(h, capacity, after, limit);
            && (p.truncated <==> after > |h| || exists i :: after <= i < |h| && h[i] !in Ring(h, capacity))
            && (p.truncated && after <= |h| ==>
                  p.entries == h[Forgotten(h, capacity)..p.cursor] && Forgotten(h, capacity) < p.cursor)
  {
    forall i | after <= i < |h| ensures h[i] in Ring(h, capacity) <==> Forgotten(h, capacity) <= i {
      RetainedExactly(h, capacity, i);
    }
    if after < Forgotten(h, capacity) {
      assert h[after] !in Ring(h, capacity);
    }
  }

  /** A tail request is flagged exactly when it does not show the whole history. */
  lemma TailFlagIsExact(h: History, capacity: nat, limit: nat)
    requires 1 <= capacity && 1 <= limit
    ensures var p := Shown(h, capacity, 0, limit);
            (p.truncated <==> p.entries != h) && p.entries == h[|h| - |p.entries|..] && p.cursor == |h|
  {
    var p := Shown(h, capacity, 0, limit);
    if p.truncated {
      assert |p.entries| < |h|;
    }
  }

  // ----- whole sessions ---------------------------------------------------------------------------

  datatype Event = Append(line: Line) | Poll(limit: nat)

  /** A client that feeds its cursor back, beside the log it follows. */
  datatype Session = Session(history: History, cursor: nat, received: seq<Entry>, flagged: bool)

  function Handle(s: Session, e: Event, capacity: nat): Session {
    match e
    case Append(line) => s.(history := s.history + [Entry(|s.history| + 1, line)])
    case Poll(limit) =>
      var p := Shown(s.history, capacity, s.cursor, limit);
      s.(cursor := p.cursor, received := s.received + p.entries, flagged := s.flagged || p.truncated)
  }

  function Follow(s: Session, events: seq<Event>, capacity: nat): Session {
    if events == [] then s
    else Handle(Follow(s, events[..|events| - 1], capacity), events[|events| - 1], capacity)
  }

  ghost predicate Proper(events: seq<Event>) {
    forall i :: 0 <= i < |events| ==> events[i].Poll? ==> 1 <= events[i].limit <= MAX_ENTRIES
  }

  /** What is received is in order and without repetition, and lies between the cursors. */
  ghost predicate Ordered(received: seq<Entry>, low: nat, high: nat) {
    && (forall i :: 0 <= i < |received| ==> low < received[i].number <= high)
    && forall i, j :: 0 <= i < j < |received| ==> received[i].number < received[j].number
  }

  lemma PageIsOrdered(h: History, capacity: nat, after: nat, limit: nat)
    requires Numbered(h) && 1 <= capacity && 1 <= limit && after <= |h|
    ensures var p := Shown(h, capacity, after, limit); Ordered(p.entries, after, p.cursor)
  {
    var p := Shown(h, capacity, after, limit);
    var gone := Forgotten(h, capacity);
    var from := if after == 0 then Most(gone, |h| - limit) else Least(|h|, Most(after, gone));
    forall i | 0 <= i < |p.entries| ensures p.entries[i].number == from + i + 1 {
      assert p.entries[i] == h[from + i];
    }
  }

  ghost predicate Delivered(start: Session, s: Session) {
    && Numbered(s.history) && start.history <= s.history
    && start.cursor <= s.cursor <= |s.history|
    && Ordered(s.received, start.cursor, s.cursor)
    && (!s.flagged ==> s.received == s.history[start.cursor..s.cursor])
  }

  lemma AppendDelivers(start: Session, s: Session, line: Line, capacity: nat)
    requires Delivered(start, s)
    ensures Delivered(start, Handle(s, Append(line), capacity))
  {
    assert (s.history + [Entry(|s.history| + 1, line)])[start.cursor..s.cursor] == s.history[start.cursor..s.cursor];
  }

  lemma OrderedJoin(a: seq<Entry>, b: seq<Entry>, low: nat, middle: nat, high: nat)
    requires low <= middle <= high && Ordered(a, low, middle) && Ordered(b, middle, high)
    ensures Ordered(a + b, low, high)
  {}

  lemma PollDelivers(start: Session, s: Session, limit: nat, capacity: nat)
    requires Delivered(start, s) && 1 <= capacity && 1 <= limit
    ensures Delivered(start, Handle(s, Poll(limit), capacity))
  {
    var p := Shown(s.history, capacity, s.cursor, limit);
    PageContinues(s.history, capacity, s.cursor, limit);
    PageIsOrdered(s.history, capacity, s.cursor, limit);
    OrderedJoin(s.received, p.entries, start.cursor, s.cursor, p.cursor);
    if !s.flagged && !p.truncated {
      assert s.history[start.cursor..s.cursor] + s.history[s.cursor..p.cursor] == s.history[start.cursor..p.cursor];
    }
  }

  /** Under any interleaving of appends and polls the client receives each entry after its first
      cursor at most once and in order; and unless some response was flagged, it has received
      every entry up to its cursor, exactly. */
  lemma {:induction false} Delivery(start: Session, events: seq<Event>, capacity: nat)
    requires 1 <= capacity && Proper(events) && Numbered(start.history)
    requires start.cursor <= |start.history| && start.received == [] && !start.flagged
    ensures var s := Follow(start, events, capacity);
            && Numbered(s.history) && start.history <= s.history
            && start.cursor <= s.cursor <= |s.history|
            && Ordered(s.received, start.cursor, s.cursor)
            && (!s.flagged ==> s.received == s.history[start.cursor..s.cursor])
  {
    if events != [] {
      var before, e := events[..|events| - 1], events[|events| - 1];
      Delivery(start, before, capacity);
      var s := Follow(start, before, capacity);
      if e.Poll? {
        PollDelivers(start, s, e.limit, capacity);
      } else {
        AppendDelivers(start, s, e.line, capacity);
      }
    }
  }
}
