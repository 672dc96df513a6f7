/** Nested documents and the one kind of edit made to them: open the tables along a path,
    creating those that are missing, and revise the last one. */
module YamlTree {
  import opened Wire
  import opened NavNames

  /** `Null` is an explicit null, which counts as a missing table. */
  datatype Node = Null | Leaf(value: Scalar) | Table(entries: map<Key, Node>)

  /** `clear`, then `pop` of some keys, then `update`. */
  datatype Change =
    Change(wipe: bool, drops: set<Key>, updates: map<Key, Node>)

  function Revise(entries: map<Key, Node>, c: Change): map<Key, Node> {
    (if c.wipe then map[] else entries - c.drops) + c.updates
  }

  /** The table to descend into below `key`: what is there, or a new one. */
  function Below(entries: map<Key, Node>, key: Key): Node {
    if key in entries && !entries[key].Null? then entries[key] else Table(map[])
  }

  /** Nothing comes back when something that is not a table stands in the way. */
  function Merge(d: Node, path: seq<Key>, c: Change): Option<Node>
    decreases |path|
  {
    if !d.Table? then None
    else if path == [] then Some(Table(Revise(d.entries, c)))
    else
      match Merge(Below(d.entries, path[0]), path[1..], c)
      case Some(n) => Some(Table(d.entries[path[0] := n]))
      case None => None
  }

  function Lookup(d: Node, path: seq<Key>): Option<Node>
    decreases |path|
  {
    if path == [] then Some(d)
    else if d.Table? && path[0] in d.entries then Lookup(d.entries[path[0]], path[1..])
    else None
  }

  /** No obstacle along the path. */
  predicate Open(d: Node, path: seq<Key>)
    decreases |path|
  {
    d.Table? && (path == [] || Open(Below(d.entries, path[0]), path[1..]))
  }

  lemma {:induction false} MergeNeedsOpen(d: Node, path: seq<Key>, c: Change)
    ensures Merge(d, path, c).Some? <==> Open(d, path)
    decreases |path|
  {
    if d.Table? && path != [] {
      MergeNeedsOpen(Below(d.entries, path[0]), path[1..], c);
    }
  }

  // ----- what a merge changes ----------------------------------------------------------------

  /** Whether a merge at `at` may change what stands at `q`: an ancestor of the revised table, or
      one of its revised entries or below, or anything below a wiped table. */
  predicate Affects(at: seq<Key>, c: Change, q: seq<Key>) {
    || q <= at
    || (at < q && (c.wipe || q[|at|] in c.drops || q[|at|] in c.updates))
  }

  lemma {:induction false} MergeKeeps(d: Node, at: seq<Key>, c: Change, q: seq<Key>)
    requires Merge(d, at, c).Some? && !Affects(at, c, q)
    ensures Lookup(Merge(d, at, c).value, q) == Lookup(d, q)
    decreases |at|
  {
    if at == [] {
      assert q[0] in Revise(d.entries, c) <==> q[0] in d.entries;
    } else if q[0] == at[0] {
      assert at == [at[0]] + at[1..] && q == [q[0]] + q[1..];
      MergeKeeps(Below(d.entries, at[0]), at[1..], c, q[1..]);
      assert |q| > 1;
      if at[0] !in d.entries || d.entries[at[0]].Null? {
        var missing: Node := Table(map[]);
        assert Lookup(missing, q[1..]) == None;
      }
    }
  }

  /** After a merge the revised table is there, with the updates in it. */
  lemma {:induction false} MergePlaces(d: Node, at: seq<Key>, c: Change)
    requires Merge(d, at, c).Some?
    ensures var r := Lookup(Merge(d, at, c).value, at);
            && r.Some? && r.value.Table?
            && (forall k :: k in c.updates ==> k in r.value.entries && r.value.entries[k] == c.updates[k])
            && (forall k :: k in c.drops && k !in c.updates ==> k !in r.value.entries)
            && (c.wipe ==> r.value.entries == c.updates)
    decreases |at|
  {
    if at != [] {
      MergePlaces(Below(d.entries, at[0]), at[1..], c);
    }
  }

  /** A table that already is as a change leaves it is not changed by it. */
  predicate Settled(d: Node, at: seq<Key>, c: Change) {
    var r := Lookup(d, at);
    r.Some? && r.value.Table? && Revise(r.value.entries, c) == r.value.entries
  }

  lemma {:induction false} SettledIsFixed(d: Node, at: seq<Key>, c: Change)
    requires Settled(d, at, c)
    ensures Merge(d, at, c) == Some(d)
    decreases |at|
  {
    if at != [] {
      SettledIsFixed(d.entries[at[0]], at[1..], c);
      assert d.entries[at[0] := d.entries[at[0]]] == d.entries;
    }
  }
}
