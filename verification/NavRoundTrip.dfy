/** Reading a patched document back: the round trip, idempotence, and what is left alone. */
module NavRoundTrip {
  import opened Wire
  import opened NavNames
  import opened YamlTree
  import opened NavParameters

  // ----- how the owned tables lie to each other --------------------------------------------

  /** A change that only concerns entries, as every change of the patch does. */
  ghost predicate Plain(c: Change, wipes: bool) {
    && (forall k :: k in c.updates ==> k.Entry?) && (forall k :: k in c.drops ==> k.Entry?)
    && (forall k :: k in c.drops ==> k !in c.updates) && c.wipe == wipes
  }

  /** Where an entry of a place stands. */
  function Spot(s: Place, f: Field): seq<Key> {
    PathOf(s) + [Entry(f)]
  }

  lemma PathsDiffer(s: Place, t: Place)
    requires s != t
    ensures PathOf(s) != PathOf(t)
  {
    PathIdentifies(s);
    PathIdentifies(t);
  }

  /** No place lies below the runtime's table. */
  lemma RuntimeIsAlone(s: Place)
    requires s != Runtime
    ensures !(PathOf(Runtime) <= PathOf(s)) && !(PathOf(s) <= PathOf(Runtime))
  {
    assert PathOf(Runtime)[0] != PathOf(s)[0];
  }

  /** No change at one path concerns an entry right below another, unless it wipes above it. */
  lemma EntriesApart(at: seq<Key>, path: seq<Key>, c: Change, k: Key)
    requires Sections(at) && Sections(path) && k.Entry? && at != path
    requires Plain(c, c.wipe) && (c.wipe ==> !(at < path))
    ensures !Affects(at, c, path + [k])
  {
    var q := path + [k];
    assert |path| < |at| ==> at[|path|] != q[|path|];
    if at < q {
      assert at == q[..|at|] == path[..|at|];
      if |at| < |path| {
        assert q[|at|] == path[|at|];
      }
    }
  }

  /** The change at one place leaves every entry of every other place alone. */
  lemma OtherSpots(s: Place, t: Place, c: Change, f: Field)
    requires s != t && Plain(c, t == Runtime)
    ensures !Affects(PathOf(t), c, Spot(s, f))
  {
    PathsDiffer(s, t);
    NotAboveByWipe(s, t, c);
    EntriesApart(PathOf(t), PathOf(s), c, Entry(f));
  }

  // ----- tables stay tables ---------------------------------------------------------------------

  predicate TableAt(d: Node, path: seq<Key>) {
    var n := Lookup(d, path);
    n.Some? && n.value.Table?
  }

  predicate Sections(path: seq<Key>) {
    forall i :: 0 <= i < |path| ==> path[i].Section?
  }

  lemma {:induction false} MergeKeepsTables(d: Node, at: seq<Key>, c: Change, p: seq<Key>)
    requires Merge(d, at, c).Some? && TableAt(d, p) && Sections(at) && Sections(p)
    requires Plain(c, c.wipe) && (c.wipe ==> !(at < p))
    ensures TableAt(Merge(d, at, c).value, p)
    decreases |p|
  {
    if p != [] {
      if at == [] {
        assert at < p;
      } else if p[0] == at[0] {
        assert c.wipe && at[1..] < p[1..] ==> at < p by {
          assert at == [at[0]] + at[1..] && p == [p[0]] + p[1..];
        }
        assert Lookup(d, p) == Lookup(d.entries[p[0]], p[1..]);
        assert TableAt(d.entries[p[0]], p[1..]);
        if p[1..] != [] { assert d.entries[p[0]].Table?; }
        assert !d.entries[p[0]].Null?;
        MergeKeepsTables(d.entries[p[0]], at[1..], c, p[1..]);
      }
    }
  }

  /** Whether the way to a place is clear does not depend on the other places' changes. */
  lemma {:induction false} MergeKeepsOpen(d: Node, at: seq<Key>, c: Change, p: seq<Key>)
    requires Merge(d, at, c).Some? && Sections(at) && Sections(p)
    requires Plain(c, c.wipe) && (c.wipe ==> !(at < p))
    ensures Open(Merge(d, at, c).value, p) <==> Open(d, p)
    decreases |p|
  {
    if p != [] {
      if at == [] {
        assert at < p;
        assert Below(Revise(d.entries, c), p[0]) == Below(d.entries, p[0]);
      } else if p[0] == at[0] {
        assert c.wipe && at[1..] < p[1..] ==> at < p by {
          assert at == [at[0]] + at[1..] && p == [p[0]] + p[1..];
        }
        MergeKeepsOpen(Below(d.entries, p[0]), at[1..], c, p[1..]);
      }
    }
  }

  lemma NotAboveByWipe(s: Place, t: Place, c: Change)
    requires Plain(c, t == Runtime)
    ensures c.wipe ==> !(PathOf(t) < PathOf(s))
  {
    if t == Runtime && s != Runtime { RuntimeIsAlone(s); }
  }

  // ----- what one change leaves written ------------------------------------------------------------

  lemma {:induction false} LookupLast(d: Node, path: seq<Key>, k: Key)
    ensures Lookup(d, path + [k]) ==
              if TableAt(d, path) && k in Lookup(d, path).value.entries
              then Some(Lookup(d, path).value.entries[k]) else None
    decreases |path|
  {
    if path == [] {
      assert path + [k] == [k] && [k][1..] == [];
    } else {
      assert (path + [k])[1..] == path[1..] + [k];
      if d.Table? && path[0] in d.entries {
        LookupLast(d.entries[path[0]], path[1..], k);
      }
    }
  }

  ghost predicate Written(d: Node, s: Place, c: Change) {
    && TableAt(d, PathOf(s))
    && (forall f :: Entry(f) in c.updates ==> Lookup(d, Spot(s, f)) == Some(c.updates[Entry(f)]))
    && (forall f :: Entry(f) in c.drops ==> Lookup(d, Spot(s, f)) == None)
    && (c.wipe ==> Lookup(d, PathOf(s)) == Some(Table(c.updates)))
  }

  lemma MergeWrites(d: Node, s: Place, c: Change)
    requires Merge(d, PathOf(s), c).Some? && Plain(c, c.wipe)
    ensures Written(Merge(d, PathOf(s), c).value, s, c)
  {
    var r := Merge(d, PathOf(s), c).value;
    MergePlaces(d, PathOf(s), c);
    forall f | Entry(f) in c.updates ensures Lookup(r, Spot(s, f)) == Some(c.updates[Entry(f)]) {
      LookupLast(r, PathOf(s), Entry(f));
    }
    forall f | Entry(f) in c.drops ensures Lookup(r, Spot(s, f)) == None {
      LookupLast(r, PathOf(s), Entry(f));
    }
  }

  lemma WrittenIsSettled(d: Node, s: Place, c: Change)
    requires Written(d, s, c) && Plain(c, c.wipe)
    ensures Settled(d, PathOf(s), c)
  {
    var entries := Lookup(d, PathOf(s)).value.entries;
    forall k | k in c.updates ensures k in entries && entries[k] == c.updates[k] {
      LookupLast(d, PathOf(s), k);
      assert Lookup(d, Spot(s, k.f)) == Some(c.updates[k]);
    }
    forall k | k in c.drops ensures k !in entries {
      LookupLast(d, PathOf(s), k);
      assert Lookup(d, Spot(s, k.f)) == None;
    }
    assert Revise(entries, c) == entries;
  }

  lemma OthersKeepWritten(d: Node, s: Place, cs: Change, t: Place, ct: Change)
    requires s != t && Written(d, s, cs) && Merge(d, PathOf(t), ct).Some?
    requires Plain(cs, s == Runtime) && Plain(ct, t == Runtime)
    ensures Written(Merge(d, PathOf(t), ct).value, s, cs)
  {
    var r := Merge(d, PathOf(t), ct).value;
    NotAboveByWipe(s, t, ct);
    MergeKeepsTables(d, PathOf(t), ct, PathOf(s));
    forall f ensures Lookup(r, Spot(s, f)) == Lookup(d, Spot(s, f)) {
      OtherSpots(s, t, ct, f);
      MergeKeeps(d, PathOf(t), ct, Spot(s, f));
    }
    if s == Runtime {
      RuntimeIsAlone(t);
      MergeKeeps(d, PathOf(t), ct, PathOf(s));
    }
  }

  // ----- the whole patch ----------------------------------------------------------------------------

  lemma SmootherStays(d: Node, s: Place, c: Change)
    requires Merge(d, PathOf(s), c).Some? && Plain(c, s == Runtime) && !Skips(d, s)
    ensures HasSmoother(Merge(d, PathOf(s), c).value) == HasSmoother(d)
  {
    var q := [Section(VelocitySmoother)];
    if s == Smoother {
      assert TableAt(d, q);
      MergeKeepsTables(d, PathOf(s), c, q);
    } else {
      assert PathOf(s)[0] != q[0];
      MergeKeeps(d, PathOf(s), c, q);
    }
  }

  lemma StepKeepsSmoother(e: Node, t: Place, v: Values, b: Binding)
    requires Full(v) && PatchPlace(e, t, v, b).Some?
    ensures HasSmoother(PatchPlace(e, t, v, b).value) == HasSmoother(e)
  {
    ChangesAreEntries(t, v, b);
    if !Skips(e, t) {
      SmootherStays(e, t, ChangeFor(t, v, b));
    }
  }

  lemma {:induction false} PatchKeepsSmoother(d: Node, o: seq<Place>, v: Values, b: Binding, n: nat)
    requires n <= |o| && Full(v) && PatchUpto(d, o, v, b, n).Some?
    ensures HasSmoother(PatchUpto(d, o, v, b, n).value) == HasSmoother(d)
  {
    if n > 0 {
      PatchKeepsSmoother(d, o, v, b, n - 1);
      StepKeepsSmoother(PatchUpto(d, o, v, b, n - 1).value, o[n - 1], v, b);
    }
  }

  /** The document holds at a place what the patch writes there. */
  ghost predicate Holds(d: Node, s: Place, v: Values, b: Binding)
    requires Full(v)
  {
    Written(d, s, ChangeFor(s, v, b))
  }

  lemma OwnStep(e: Node, s: Place, v: Values, b: Binding)
    requires Full(v) && !Skips(e, s) && PatchPlace(e, s, v, b).Some?
    ensures Holds(PatchPlace(e, s, v, b).value, s, v, b)
  {
    ChangesAreEntries(s, v, b);
    MergeWrites(e, s, ChangeFor(s, v, b));
  }

  lemma OtherStep(e: Node, s: Place, t: Place, v: Values, b: Binding)
    requires Full(v) && s != t && Holds(e, s, v, b) && PatchPlace(e, t, v, b).Some?
    ensures Holds(PatchPlace(e, t, v, b).value, s, v, b)
  {
    if !Skips(e, t) {
      ChangesAreEntries(s, v, b);
      ChangesAreEntries(t, v, b);
      OthersKeepWritten(e, s, ChangeFor(s, v, b), t, ChangeFor(t, v, b));
    }
  }

  lemma StepHolds(e: Node, s: Place, t: Place, v: Values, b: Binding)
    requires Full(v) && PatchPlace(e, t, v, b).Some? && !Skips(e, s) && (s == t || Holds(e, s, v, b))
    ensures Holds(PatchPlace(e, t, v, b).value, s, v, b)
  {
    if s == t { OwnStep(e, s, v, b); } else { OtherStep(e, s, t, v, b); }
  }

  /** What the step at one place sets up and no step breaks holds of every later document. */
  lemma {:induction false} PatchCarries(d: Node, o: seq<Place>, v: Values, b: Binding, n: nat, i: nat, p: Node -> bool)
    requires i < n <= |o| && Full(v) && PatchUpto(d, o, v, b, n).Some?
    requires PatchUpto(d, o, v, b, i + 1).Some? ==> p(PatchUpto(d, o, v, b, i + 1).value)
    requires forall e, t | p(e) && PatchPlace(e, t, v, b).Some? :: p(PatchPlace(e, t, v, b).value)
    ensures p(PatchUpto(d, o, v, b, n).value)
  {
    if i + 1 < n {
      PatchCarries(d, o, v, b, n - 1, i, p);
    }
  }

  ghost predicate HoldsUnskipped(e: Node, s: Place, v: Values, b: Binding)
    requires Full(v)
  {
    !Skips(e, s) && Holds(e, s, v, b)
  }

  lemma OwnPlaceHolds(d: Node, o: seq<Place>, v: Values, b: Binding, i: nat)
    requires i < |o| && Full(v) && !Skips(d, o[i])
    ensures PatchUpto(d, o, v, b, i + 1).Some? ==> HoldsUnskipped(PatchUpto(d, o, v, b, i + 1).value, o[i], v, b)
  {
    if PatchUpto(d, o, v, b, i + 1).Some? {
      PatchKeepsSmoother(d, o, v, b, i);
      PatchKeepsSmoother(d, o, v, b, i + 1);
      OwnStep(PatchUpto(d, o, v, b, i).value, o[i], v, b);
    }
  }

  /** Every place that is not skipped holds what the patch put there, at the end as well. */
  lemma PatchHolds(d: Node, v: Values, b: Binding, s: Place)
    requires Full(v) && Patch(d, v, b).Some? && !Skips(d, s)
    ensures Holds(Patch(d, v, b).value, s, v, b)
  {
    var p := (e: Node) => HoldsUnskipped(e, s, v, b);
    forall e, t | p(e) && PatchPlace(e, t, v, b).Some? ensures p(PatchPlace(e, t, v, b).value) {
      StepHolds(e, s, t, v, b);
      StepKeepsSmoother(e, t, v, b);
    }
    OwnPlaceHolds(d, ORDER, v, b, Rank(s));
    PatchCarries(d, ORDER, v, b, |ORDER|, Rank(s), p);
  }

  lemma MergeKeepsAllOpen(e: Node, t: Place, c: Change)
    requires Merge(e, PathOf(t), c).Some? && Plain(c, t == Runtime)
    ensures forall s: Place :: Open(Merge(e, PathOf(t), c).value, PathOf(s)) <==> Open(e, PathOf(s))
  {
    forall s: Place ensures Open(Merge(e, PathOf(t), c).value, PathOf(s)) <==> Open(e, PathOf(s)) {
      NotAboveByWipe(s, t, c);
      MergeKeepsOpen(e, PathOf(t), c, PathOf(s));
    }
  }

  /** Nothing but tables stands on the way to any place in one document, exactly if in the other. */
  ghost predicate SameWays(d: Node, e: Node) {
    forall s: Place :: Open(e, PathOf(s)) <==> Open(d, PathOf(s))
  }

  lemma StepKeepsOpen(e: Node, t: Place, v: Values, b: Binding)
    requires Full(v) && PatchPlace(e, t, v, b).Some?
    ensures SameWays(e, PatchPlace(e, t, v, b).value)
  {
    ChangesAreEntries(t, v, b);
    if !Skips(e, t) {
      MergeKeepsAllOpen(e, t, ChangeFor(t, v, b));
    }
  }

  lemma WaysCompose(d: Node, e: Node, f: Node)
    requires SameWays(d, e) && SameWays(e, f)
    ensures SameWays(d, f)
  {
  }

  lemma {:induction false} PatchKeepsOpen(d: Node, o: seq<Place>, v: Values, b: Binding, n: nat)
    requires n <= |o| && Full(v) && PatchUpto(d, o, v, b, n).Some?
    ensures SameWays(d, PatchUpto(d, o, v, b, n).value)
  {
    if n > 0 {
      var e := PatchUpto(d, o, v, b, n - 1).value;
      PatchKeepsOpen(d, o, v, b, n - 1);
      StepKeepsOpen(e, o[n - 1], v, b);
      WaysCompose(d, e, PatchUpto(d, o, v, b, n).value);
    }
  }

  predicate Clear(d: Node, s: Place) {
    Skips(d, s) || Open(d, PathOf(s))
  }

  lemma StepNeedsOpen(d: Node, e: Node, t: Place, v: Values, b: Binding)
    requires Full(v) && HasSmoother(e) == HasSmoother(d) && SameWays(d, e)
    ensures PatchPlace(e, t, v, b).Some? <==> Clear(d, t)
  {
    MergeNeedsOpen(e, PathOf(t), ChangeFor(t, v, b));
  }

  lemma NextNeedsOpen(d: Node, o: seq<Place>, v: Values, b: Binding, n: nat)
    requires n < |o| && Full(v) && PatchUpto(d, o, v, b, n).Some?
    ensures PatchUpto(d, o, v, b, n + 1).Some? <==> Clear(d, o[n])
  {
    PatchKeepsSmoother(d, o, v, b, n);
    PatchKeepsOpen(d, o, v, b, n);
    StepNeedsOpen(d, PatchUpto(d, o, v, b, n).value, o[n], v, b);
  }

  /** A patch succeeds when each of its steps does. */
  lemma {:induction false} StepByStep(d: Node, o: seq<Place>, v: Values, b: Binding, n: nat, p: nat -> bool)
    requires n <= |o| && Full(v)
    requires forall k: nat | k < n && PatchUpto(d, o, v, b, k).Some? :: PatchUpto(d, o, v, b, k + 1).Some? <==> p(k)
    ensures PatchUpto(d, o, v, b, n).Some? <==> forall k: nat | k < n :: p(k)
  {
    if n > 0 {
      StepByStep(d, o, v, b, n - 1, p);
      assert (forall k: nat | k < n :: p(k)) <==> (forall k: nat | k < n - 1 :: p(k)) && p(n - 1);
    }
  }

  lemma PatchNeedsOpen(d: Node, o: seq<Place>, v: Values, b: Binding)
    requires Full(v)
    ensures PatchUpto(d, o, v, b, |o|).Some? <==> forall k: nat | k < |o| :: Clear(d, o[k])
  {
    var p := (k: nat) => k < |o| && Clear(d, o[k]);
    forall k: nat | k < |o| && PatchUpto(d, o, v, b, k).Some?
      ensures PatchUpto(d, o, v, b, k + 1).Some? <==> p(k)
    {
      NextNeedsOpen(d, o, v, b, k);
    }
    StepByStep(d, o, v, b, |o|, p);
    assert forall k: nat | k < |o| :: p(k) <==> Clear(d, o[k]);
  }

  /** Patching succeeds exactly with a known odometry binding, on a document in which nothing but
      tables stands on the way to an owned table. */
  lemma PatchSucceeds(d: Node, v: Values, b: Binding)
    requires Full(v)
    ensures Patch(d, v, b).Some? <==> Bound(b) && forall s: Place :: Clear(d, s)
  {
    PatchNeedsOpen(d, ORDER, v, b);
    if forall k: nat | k < |ORDER| :: Clear(d, ORDER[k]) {
      forall s: Place ensures Clear(d, s) {
        assert Clear(d, ORDER[Rank(s)]);
      }
    }
  }

  /** The patch changes nothing that none of its changes concerns. */
  lemma {:induction false} PatchPreserves(d: Node, o: seq<Place>, v: Values, b: Binding, n: nat, q: seq<Key>)
    requires n <= |o| && Full(v) && PatchUpto(d, o, v, b, n).Some?
    requires forall s: Place :: Affects(PathOf(s), ChangeFor(s, v, b), q) ==> Skips(d, s)
    ensures Lookup(PatchUpto(d, o, v, b, n).value, q) == Lookup(d, q)
  {
    if n > 0 {
      PatchPreserves(d, o, v, b, n - 1, q);
      PatchKeepsSmoother(d, o, v, b, n - 1);
      var e, t := PatchUpto(d, o, v, b, n - 1).value, o[n - 1];
      if !Skips(e, t) {
        MergeKeeps(e, PathOf(t), ChangeFor(t, v, b), q);
      }
    }
  }

  lemma SettledStep(d: Node, t: Place, v: Values, b: Binding)
    requires Full(v) && (Skips(d, t) || Settled(d, PathOf(t), ChangeFor(t, v, b)))
    ensures PatchPlace(d, t, v, b) == Some(d)
  {
    if !Skips(d, t) {
      SettledIsFixed(d, PathOf(t), ChangeFor(t, v, b));
    }
  }

  lemma {:induction false} SettledPatch(d: Node, o: seq<Place>, v: Values, b: Binding, n: nat)
    requires n <= |o| && Full(v)
    requires forall s: Place :: PatchPlace(d, s, v, b) == Some(d)
    ensures PatchUpto(d, o, v, b, n) == Some(d)
  {
    if n > 0 {
      SettledPatch(d, o, v, b, n - 1);
      assert PatchPlace(d, o[n - 1], v, b) == Some(d);
    }
  }

  /** Patching a patched document again changes nothing. */
  lemma PatchIsIdempotent(d: Node, v: Values, b: Binding)
    requires Full(v) && Patch(d, v, b).Some?
    ensures Patch(Patch(d, v, b).value, v, b) == Patch(d, v, b)
  {
    var r := Patch(d, v, b).value;
    PatchKeepsSmoother(d, ORDER, v, b, |ORDER|);
    forall s: Place ensures PatchPlace(r, s, v, b) == Some(r) {
      if !Skips(r, s) {
        PatchHolds(d, v, b, s);
        ChangesAreEntries(s, v, b);
        WrittenIsSettled(r, s, ChangeFor(s, v, b));
      }
      SettledStep(r, s, v, b);
    }
    SettledPatch(r, ORDER, v, b, |ORDER|);
  }

  // ----- extraction -----------------------------------------------------------------------------------

  /** A scalar found where the document should have one. */
  function Read(d: Node, s: Place, f: Field): Option<Scalar> {
    match Lookup(d, Spot(s, f))
    case Some(Leaf(x)) => Some(x)
    case _ => None
  }

  /** Scalars are compared by value across numbers, with booleans counted among them. */
  function AsNumber(x: Scalar): Option<real> {
    match x
    case Flag(on) => Some(if on then 1.0 else 0.0)
    case Whole(i) => Some(i as real)
    case Decimal(r) => Some(r)
    case _ => None
  }

  predicate Equals(found: Option<Scalar>, wanted: Scalar) {
    && found.Some?
    && (found.value == wanted || (AsNumber(found.value).Some? && AsNumber(found.value) == AsNumber(wanted)))
  }

  function HomeOf(p: Param): Place {
    match p
    case ControllerFrequency => Controller
    case RobotRadius => GlobalCost
    case AlwaysSendFullCostmap => GlobalCost
    case TrackUnknownSpace => GlobalCost
    case InflationRadius => GlobalInflation
    case CostScalingFactor => GlobalInflation
    case MinObstacleHeight => Runtime
    case MaxObstacleHeight => Runtime
    case ObstacleMaxRange => GlobalScan
    case RaytraceMaxRange => GlobalScan
    case XyGoalTolerance => Goal
    case YawGoalTolerance => Goal
    case RequiredMovementRadius => Progress
    case UseAstar => Planner
    case _ => Follow
  }

  function Observed(d: Node, p: Param): Option<Scalar> {
    match p
    case RotationShimEnabled => Some(Flag(Read(d, Follow, Plugin) == Some(Label(RotationShim))))
    case EnableStampedCmdVel => Some(Flag(false))
    case _ => Read(d, HomeOf(p), Named(p))
  }

  predicate ScanBound(d: Node, s: Place) {
    && Equals(Read(d, s, Topic), Label(ScanName))
    && Equals(Read(d, s, Named(MinObstacleHeight)), Decimal(COSTMAP_MIN))
    && Equals(Read(d, s, Named(MaxObstacleHeight)), Decimal(COSTMAP_MAX))
  }

  predicate ServersBound(d: Node, b: Binding) {
    && Equals(Read(d, Controller, OdomTopic), Label(b.topic))
    && Equals(Read(d, Controller, ProgressCheckerPlugin), Label(ProgressCheckerName))
    && Lookup(d, Spot(Controller, ProgressCheckerPlugins)) == None
    && Lookup(d, Spot(Controller, Named(EnableStampedCmdVel))) == None
    && Equals(Read(d, Bt, OdomTopic), Label(b.topic))
    && Equals(Read(d, Bt, PluginLibNames), Names(BtPluginLibraries))
    && Equals(Read(d, Planner, Plugin), Label(Navfn))
    && Equals(Read(d, Spin, Plugin), Label(SpinPlugin))
    && Equals(Read(d, Backup, Plugin), Label(BackUpPlugin))
    && Equals(Read(d, Wait, Plugin), Label(WaitPlugin))
  }

  predicate LocalAgrees(d: Node, v: Values)
    requires Full(v)
  {
    && Equals(Read(d, LocalCost, Named(RobotRadius)), v[RobotRadius])
    && Equals(Read(d, LocalInflation, Named(InflationRadius)), v[InflationRadius])
    && Equals(Read(d, LocalInflation, Named(CostScalingFactor)), v[CostScalingFactor])
    && Equals(Read(d, LocalScan, Named(ObstacleMaxRange)), v[ObstacleMaxRange])
    && Equals(Read(d, LocalScan, Named(RaytraceMaxRange)), v[RaytraceMaxRange])
  }

  predicate RuntimeTopics(d: Node, b: Binding) {
    && Equals(Read(d, Runtime, ScanTopic), Label(ScanName))
    && Equals(Read(d, Runtime, OdomTopic), Label(OdometryName))
    && Equals(Read(d, Runtime, CmdVelTopic), Label(PrivateCmdVel))
    && Equals(Read(d, Runtime, ControllerOdomTopic), Label(b.topic))
    && Equals(Read(d, Runtime, ControllerOdomMode), Label(b.mode))
  }

  predicate RuntimeRanges(d: Node, v: Values)
    requires Full(v)
  {
    && Equals(Read(d, Runtime, Named(MinObstacleHeight)), v[MinObstacleHeight])
    && Equals(Read(d, Runtime, Named(MaxObstacleHeight)), v[MaxObstacleHeight])
    && Equals(Read(d, Runtime, Named(ObstacleMaxRange)), v[ObstacleMaxRange])
    && Equals(Read(d, Runtime, Named(RaytraceMaxRange)), v[RaytraceMaxRange])
  }

  predicate RuntimeBound(d: Node, v: Values, b: Binding)
    requires Full(v)
  {
    && TableAt(d, PathOf(Runtime))
    && Lookup(d, PathOf(Runtime)).value.entries.Keys == {
         Entry(ScanTopic), Entry(OdomTopic), Entry(CmdVelTopic), Entry(ControllerOdomTopic),
         Entry(ControllerOdomMode), Entry(Named(MinObstacleHeight)), Entry(Named(MaxObstacleHeight)),
         Entry(Named(ObstacleMaxRange)), Entry(Named(RaytraceMaxRange))}
    && RuntimeTopics(d, b) && RuntimeRanges(d, v)
  }

  predicate FixedBindings(d: Node, v: Values, b: Binding)
    requires Full(v)
  {
    && ServersBound(d, b) && ScanBound(d, GlobalScan) && ScanBound(d, LocalScan)
    && LocalAgrees(d, v) && RuntimeBound(d, v, b)
  }

  function Gathered(d: Node): (raw: Values)
    requires forall p: Param :: Observed(d, p).Some?
    ensures Full(raw) && forall p :: p in raw ==> raw[p] == Observed(d, p).value
  {
    map p: Param | Observed(d, p).Some? :: Observed(d, p).value
  }

  function Extract(d: Node, b: Binding): Option<Values> {
    if !Bound(b) || !d.Table? || !(forall p: Param :: Observed(d, p).Some?) then None
    else
      match Validate(Gathered(d))
      case None => None
      case Some(v) => if FixedBindings(d, v, b) then Some(v) else None
  }

  // ----- the round trip -----------------------------------------------------------------------------------

  /** Every owned table is as the patch writes it, the optional smoother aside. */
  ghost predicate Patched(d: Node, v: Values, b: Binding)
    requires Full(v)
  {
    forall s: Place :: s != Smoother ==> Written(d, s, ChangeFor(s, v, b))
  }

  lemma Updated(d: Node, s: Place, v: Values, b: Binding, f: Field, x: Scalar)
    requires Full(v) && Written(d, s, ChangeFor(s, v, b))
    requires Entry(f) in ChangeFor(s, v, b).updates && ChangeFor(s, v, b).updates[Entry(f)] == Leaf(x)
    ensures Lookup(d, Spot(s, f)) == Some(Leaf(x)) && Read(d, s, f) == Some(x) && Equals(Read(d, s, f), x)
  {}

  predicate AtHome(v: Values, b: Binding, p: Param)
    requires Full(v)
  {
    var c := ChangeFor(HomeOf(p), v, b);
    Entry(Named(p)) in c.updates && c.updates[Entry(Named(p))] == Leaf(v[p])
  }

  lemma FollowHoldsIt(v: Values, b: Binding, p: Param)
    requires Full(v) && Normalize(p, v[p]) == Some(v[p])
    requires HomeOf(p) == Follow && p != RotationShimEnabled && p != EnableStampedCmdVel
    ensures AtHome(v, b, p)
  {}

  lemma OtherHomesHoldIt(v: Values, b: Binding, p: Param)
    requires Full(v) && HomeOf(p) != Follow
    ensures AtHome(v, b, p)
  {}

  /** Each parameter stands at its home, with the value that was patched in. */
  lemma HomeHoldsIt(v: Values, b: Binding, p: Param)
    requires Full(v) && Normalize(p, v[p]) == Some(v[p]) && p != RotationShimEnabled && p != EnableStampedCmdVel
    ensures AtHome(v, b, p)
  {
    if HomeOf(p) == Follow { FollowHoldsIt(v, b, p); } else { OtherHomesHoldIt(v, b, p); }
  }

  lemma OrdinaryIsPatched(d: Node, v: Values, b: Binding, p: Param)
    requires Full(v) && Normalize(p, v[p]) == Some(v[p]) && Patched(d, v, b)
    requires p != RotationShimEnabled && p != EnableStampedCmdVel
    ensures Read(d, HomeOf(p), Named(p)) == Some(v[p])
  {
    HomeHoldsIt(v, b, p);
    assert HomeOf(p) != Smoother;
    Updated(d, HomeOf(p), v, b, Named(p), v[p]);
  }

  lemma ShimIsPatched(d: Node, v: Values, b: Binding)
    requires Full(v) && Written(d, Follow, ChangeFor(Follow, v, b))
    ensures Read(d, Follow, Plugin) == Some(Label(RotationShim))
  {
    Updated(d, Follow, v, b, Plugin, Label(RotationShim));
  }

  /** The two parameters that are not read from an entry of their own are locked. */
  lemma LockedParams(v: Values)
    requires Full(v) && forall p: Param :: Normalize(p, v[p]) == Some(v[p])
    ensures v[RotationShimEnabled] == Flag(true) && v[EnableStampedCmdVel] == Flag(false)
  {
    assert Normalize(RotationShimEnabled, v[RotationShimEnabled]).Some?;
    assert Normalize(EnableStampedCmdVel, v[EnableStampedCmdVel]).Some?;
  }

  lemma ObservedIsPatched(d: Node, v: Values, b: Binding, p: Param)
    requires Full(v) && (forall q: Param :: Normalize(q, v[q]) == Some(v[q])) && Patched(d, v, b)
    ensures Observed(d, p) == Some(v[p])
  {
    LockedParams(v);
    if p == RotationShimEnabled {
      ShimIsPatched(d, v, b);
    } else if p != EnableStampedCmdVel {
      OrdinaryIsPatched(d, v, b, p);
    }
  }

  lemma ControllerIsBound(d: Node, v: Values, b: Binding)
    requires Full(v) && Written(d, Controller, ChangeFor(Controller, v, b))
    ensures Equals(Read(d, Controller, OdomTopic), Label(b.topic))
    ensures Equals(Read(d, Controller, ProgressCheckerPlugin), Label(ProgressCheckerName))
    ensures Lookup(d, Spot(Controller, ProgressCheckerPlugins)) == None
    ensures Lookup(d, Spot(Controller, Named(EnableStampedCmdVel))) == None
  {
    Updated(d, Controller, v, b, OdomTopic, Label(b.topic));
    Updated(d, Controller, v, b, ProgressCheckerPlugin, Label(ProgressCheckerName));
    assert Entry(ProgressCheckerPlugins) in ChangeFor(Controller, v, b).drops;
    assert Entry(Named(EnableStampedCmdVel)) in ChangeFor(Controller, v, b).drops;
  }

  function BehaviorPlugin(s: Place): Text {
    if s == Spin then SpinPlugin else if s == Backup then BackUpPlugin else WaitPlugin
  }

  lemma BehaviorsAreBound(d: Node, v: Values, b: Binding, s: Place)
    requires Full(v) && (s == Spin || s == Backup || s == Wait) && Written(d, s, ChangeFor(s, v, b))
    ensures Equals(Read(d, s, Plugin), Label(BehaviorPlugin(s)))
  {
    Updated(d, s, v, b, Plugin, Label(BehaviorPlugin(s)));
  }

  lemma ServersAreBound(d: Node, v: Values, b: Binding)
    requires Full(v) && Patched(d, v, b)
    ensures ServersBound(d, b)
  {
    ControllerIsBound(d, v, b);
    Updated(d, Bt, v, b, OdomTopic, Label(b.topic));
    Updated(d, Bt, v, b, PluginLibNames, Names(BtPluginLibraries));
    Updated(d, Planner, v, b, Plugin, Label(Navfn));
    BehaviorsAreBound(d, v, b, Spin);
    BehaviorsAreBound(d, v, b, Backup);
    BehaviorsAreBound(d, v, b, Wait);
  }

  lemma ScansAreBound(d: Node, v: Values, b: Binding, s: Place)
    requires Full(v) && Patched(d, v, b) && (s == GlobalScan || s == LocalScan)
    ensures ScanBound(d, s)
  {
    Updated(d, s, v, b, Topic, Label(ScanName));
    Updated(d, s, v, b, Named(MinObstacleHeight), Decimal(COSTMAP_MIN));
    Updated(d, s, v, b, Named(MaxObstacleHeight), Decimal(COSTMAP_MAX));
  }

  lemma LocalScanAgrees(d: Node, v: Values, b: Binding)
    requires Full(v) && Patched(d, v, b)
    ensures Equals(Read(d, LocalScan, Named(ObstacleMaxRange)), v[ObstacleMaxRange])
    ensures Equals(Read(d, LocalScan, Named(RaytraceMaxRange)), v[RaytraceMaxRange])
  {
    Updated(d, LocalScan, v, b, Named(ObstacleMaxRange), v[ObstacleMaxRange]);
    Updated(d, LocalScan, v, b, Named(RaytraceMaxRange), v[RaytraceMaxRange]);
  }

  lemma LocalsAgree(d: Node, v: Values, b: Binding)
    requires Full(v) && Patched(d, v, b)
    ensures LocalAgrees(d, v)
  {
    Updated(d, LocalCost, v, b, Named(RobotRadius), v[RobotRadius]);
    Updated(d, LocalInflation, v, b, Named(InflationRadius), v[InflationRadius]);
    Updated(d, LocalInflation, v, b, Named(CostScalingFactor), v[CostScalingFactor]);
    LocalScanAgrees(d, v, b);
  }

  lemma RuntimeTopicsAreBound(d: Node, v: Values, b: Binding)
    requires Full(v) && Patched(d, v, b)
    ensures RuntimeTopics(d, b)
  {
    Updated(d, Runtime, v, b, ScanTopic, Label(ScanName));
    Updated(d, Runtime, v, b, OdomTopic, Label(OdometryName));
    Updated(d, Runtime, v, b, CmdVelTopic, Label(PrivateCmdVel));
    Updated(d, Runtime, v, b, ControllerOdomTopic, Label(b.topic));
    Updated(d, Runtime, v, b, ControllerOdomMode, Label(b.mode));
  }

  lemma RuntimeRangesAreBound(d: Node, v: Values, b: Binding)
    requires Full(v) && Patched(d, v, b)
    ensures RuntimeRanges(d, v)
  {
    Updated(d, Runtime, v, b, Named(MinObstacleHeight), v[MinObstacleHeight]);
    Updated(d, Runtime, v, b, Named(MaxObstacleHeight), v[MaxObstacleHeight]);
    Updated(d, Runtime, v, b, Named(ObstacleMaxRange), v[ObstacleMaxRange]);
    Updated(d, Runtime, v, b, Named(RaytraceMaxRange), v[RaytraceMaxRange]);
  }

  lemma RuntimeKeys(v: Values, b: Binding)
    requires Full(v)
    ensures ChangeFor(Runtime, v, b).updates.Keys == {
              Entry(ScanTopic), Entry(OdomTopic), Entry(CmdVelTopic), Entry(ControllerOdomTopic),
              Entry(ControllerOdomMode), Entry(Named(MinObstacleHeight)), Entry(Named(MaxObstacleHeight)),
              Entry(Named(ObstacleMaxRange)), Entry(Named(RaytraceMaxRange))}
  {}

  lemma RuntimeIsBound(d: Node, v: Values, b: Binding)
    requires Full(v) && Patched(d, v, b)
    ensures RuntimeBound(d, v, b)
  {
    assert Written(d, Runtime, ChangeFor(Runtime, v, b));
    assert Lookup(d, PathOf(Runtime)) == Some(Table(ChangeFor(Runtime, v, b).updates));
    RuntimeKeys(v, b);
    RuntimeTopicsAreBound(d, v, b);
    RuntimeRangesAreBound(d, v, b);
  }

  lemma PatchedIsBound(d: Node, v: Values, b: Binding)
    requires Full(v) && Patched(d, v, b)
    ensures FixedBindings(d, v, b)
  {
    ServersAreBound(d, v, b);
    ScansAreBound(d, v, b, GlobalScan);
    ScansAreBound(d, v, b, LocalScan);
    LocalsAgree(d, v, b);
    RuntimeIsBound(d, v, b);
  }

  lemma PatchedIsGathered(d: Node, v: Values, b: Binding)
    requires Validate(v) == Some(v) && Full(v) && Patched(d, v, b)
    ensures (forall p: Param :: Observed(d, p).Some?) && Gathered(d) == v
  {
    assert forall p: Param :: p in v && Normalize(p, v[p]) == Some(v[p]);
    forall p: Param ensures Observed(d, p) == Some(v[p]) {
      ObservedIsPatched(d, v, b, p);
    }
  }

  lemma PatchLeavesAll(d: Node, v: Values, b: Binding)
    requires Full(v) && Patch(d, v, b).Some?
    ensures Patched(Patch(d, v, b).value, v, b)
  {
    forall s: Place | s != Smoother ensures Written(Patch(d, v, b).value, s, ChangeFor(s, v, b)) {
      PatchHolds(d, v, b, s);
    }
  }

  lemma PatchedIsTable(d: Node, v: Values, b: Binding)
    requires Full(v) && Patched(d, v, b)
    ensures d.Table?
  {
    assert Written(d, Maps, ChangeFor(Maps, v, b));
  }

  /** For every base document that can be patched and every valid parameter set, reading the
      patched document passes every fixed check and gives the set back. */
  lemma RoundTrip(d: Node, raw: Values, b: Binding)
    requires Validate(raw).Some? && Patch(d, Validate(raw).value, b).Some?
    ensures Extract(Patch(d, Validate(raw).value, b).value, b) == Validate(raw)
  {
    var v := Validate(raw).value;
    var r := Patch(d, v, b).value;
    ValidationIsIdempotent(raw);
    PatchLeavesAll(d, v, b);
    PatchedIsTable(r, v, b);
    PatchedIsGathered(r, v, b);
    PatchedIsBound(r, v, b);
  }

  // ----- what extraction accepts --------------------------------------------------------------------------

  /** The entries that extraction compares with what the patch would write. */
  function Checked(s: Place): set<Field> {
    match s
    case Controller => {OdomTopic, ProgressCheckerPlugin}
    case Bt => {OdomTopic, PluginLibNames}
    case Planner => {Plugin}
    case Spin => {Plugin}
    case Backup => {Plugin}
    case Wait => {Plugin}
    case GlobalScan => {Topic, Named(MinObstacleHeight), Named(MaxObstacleHeight)}
    case LocalScan =>
      {Topic, Named(MinObstacleHeight), Named(MaxObstacleHeight), Named(ObstacleMaxRange), Named(RaytraceMaxRange)}
    case LocalCost => {Named(RobotRadius)}
    case LocalInflation => {Named(InflationRadius), Named(CostScalingFactor)}
    case Runtime =>
      {ScanTopic, OdomTopic, CmdVelTopic, ControllerOdomTopic, ControllerOdomMode, Named(MinObstacleHeight),
       Named(MaxObstacleHeight), Named(ObstacleMaxRange), Named(RaytraceMaxRange)}
    case _ => {}
  }

  /** The entry holds, as a value, what the patch writes there. */
  predicate AsPatched(d: Node, s: Place, f: Field, v: Values, b: Binding)
    requires Full(v)
  {
    var c := ChangeFor(s, v, b);
    Entry(f) in c.updates && c.updates[Entry(f)].Leaf? && Equals(Read(d, s, f), c.updates[Entry(f)].value)
  }

  predicate PlaceAsPatched(d: Node, s: Place, v: Values, b: Binding)
    requires Full(v)
  {
    forall f :: f in Checked(s) ==> AsPatched(d, s, f, v, b)
  }

  lemma OneAsPatched(d: Node, s: Place, f: Field, v: Values, b: Binding, x: Scalar)
    requires Full(v) && f in Checked(s)
    requires Entry(f) in ChangeFor(s, v, b).updates && ChangeFor(s, v, b).updates[Entry(f)] == Leaf(x)
    ensures AsPatched(d, s, f, v, b) <==> Equals(Read(d, s, f), x)
  {}

  lemma ControllerAsPatched(d: Node, v: Values, b: Binding)
    requires Full(v)
    ensures PlaceAsPatched(d, Controller, v, b) <==>
              && Equals(Read(d, Controller, OdomTopic), Label(b.topic))
              && Equals(Read(d, Controller, ProgressCheckerPlugin), Label(ProgressCheckerName))
  {
    OneAsPatched(d, Controller, OdomTopic, v, b, Label(b.topic));
    OneAsPatched(d, Controller, ProgressCheckerPlugin, v, b, Label(ProgressCheckerName));
  }

  lemma NavigatorAsPatched(d: Node, v: Values, b: Binding)
    requires Full(v)
    ensures PlaceAsPatched(d, Bt, v, b) <==>
              && Equals(Read(d, Bt, OdomTopic), Label(b.topic))
              && Equals(Read(d, Bt, PluginLibNames), Names(BtPluginLibraries))
  {
    OneAsPatched(d, Bt, OdomTopic, v, b, Label(b.topic));
    OneAsPatched(d, Bt, PluginLibNames, v, b, Names(BtPluginLibraries));
  }

  lemma PluginsAsPatched(d: Node, v: Values, b: Binding)
    requires Full(v)
    ensures PlaceAsPatched(d, Planner, v, b) <==> Equals(Read(d, Planner, Plugin), Label(Navfn))
    ensures PlaceAsPatched(d, Spin, v, b) <==> Equals(Read(d, Spin, Plugin), Label(SpinPlugin))
    ensures PlaceAsPatched(d, Backup, v, b) <==> Equals(Read(d, Backup, Plugin), Label(BackUpPlugin))
    ensures PlaceAsPatched(d, Wait, v, b) <==> Equals(Read(d, Wait, Plugin), Label(WaitPlugin))
  {
    OneAsPatched(d, Planner, Plugin, v, b, Label(Navfn));
    OneAsPatched(d, Spin, Plugin, v, b, Label(SpinPlugin));
    OneAsPatched(d, Backup, Plugin, v, b, Label(BackUpPlugin));
    OneAsPatched(d, Wait, Plugin, v, b, Label(WaitPlugin));
  }

  predicate Ranged(d: Node, s: Place, v: Values)
    requires Full(v)
  {
    && Equals(Read(d, s, Named(ObstacleMaxRange)), v[ObstacleMaxRange])
    && Equals(Read(d, s, Named(RaytraceMaxRange)), v[RaytraceMaxRange])
  }

  lemma ScansAsPatched(d: Node, v: Values, b: Binding)
    requires Full(v)
    ensures PlaceAsPatched(d, GlobalScan, v, b) <==> ScanBound(d, GlobalScan)
    ensures PlaceAsPatched(d, LocalScan, v, b) <==> ScanBound(d, LocalScan) && Ranged(d, LocalScan, v)
  {
    ScanAsPatched(d, GlobalScan, v, b);
    ScanAsPatched(d, LocalScan, v, b);
    OneAsPatched(d, LocalScan, Named(ObstacleMaxRange), v, b, v[ObstacleMaxRange]);
    OneAsPatched(d, LocalScan, Named(RaytraceMaxRange), v, b, v[RaytraceMaxRange]);
  }

  lemma ScanAsPatched(d: Node, s: Place, v: Values, b: Binding)
    requires Full(v) && (s == GlobalScan || s == LocalScan)
    ensures ScanBound(d, s) <==>
              && AsPatched(d, s, Topic, v, b) && AsPatched(d, s, Named(MinObstacleHeight), v, b)
              && AsPatched(d, s, Named(MaxObstacleHeight), v, b)
  {
    OneAsPatched(d, s, Topic, v, b, Label(ScanName));
    OneAsPatched(d, s, Named(MinObstacleHeight), v, b, Decimal(COSTMAP_MIN));
    OneAsPatched(d, s, Named(MaxObstacleHeight), v, b, Decimal(COSTMAP_MAX));
  }

  lemma LocalsAsPatched(d: Node, v: Values, b: Binding)
    requires Full(v)
    ensures PlaceAsPatched(d, LocalCost, v, b) && PlaceAsPatched(d, LocalInflation, v, b) && Ranged(d, LocalScan, v)
            <==> LocalAgrees(d, v)
  {
    OneAsPatched(d, LocalCost, Named(RobotRadius), v, b, v[RobotRadius]);
    OneAsPatched(d, LocalInflation, Named(InflationRadius), v, b, v[InflationRadius]);
    OneAsPatched(d, LocalInflation, Named(CostScalingFactor), v, b, v[CostScalingFactor]);
  }

  lemma TopicsAsPatched(d: Node, v: Values, b: Binding)
    requires Full(v)
    ensures RuntimeTopics(d, b) <==>
              && AsPatched(d, Runtime, ScanTopic, v, b) && AsPatched(d, Runtime, OdomTopic, v, b)
              && AsPatched(d, Runtime, CmdVelTopic, v, b) && AsPatched(d, Runtime, ControllerOdomTopic, v, b)
              && AsPatched(d, Runtime, ControllerOdomMode, v, b)
  {
    OneAsPatched(d, Runtime, ScanTopic, v, b, Label(ScanName));
    OneAsPatched(d, Runtime, OdomTopic, v, b, Label(OdometryName));
    OneAsPatched(d, Runtime, CmdVelTopic, v, b, Label(PrivateCmdVel));
    OneAsPatched(d, Runtime, ControllerOdomTopic, v, b, Label(b.topic));
    OneAsPatched(d, Runtime, ControllerOdomMode, v, b, Label(b.mode));
  }

  lemma RangesAsPatched(d: Node, v: Values, b: Binding)
    requires Full(v)
    ensures RuntimeRanges(d, v) <==>
              && AsPatched(d, Runtime, Named(MinObstacleHeight), v, b)
              && AsPatched(d, Runtime, Named(MaxObstacleHeight), v, b)
              && AsPatched(d, Runtime, Named(ObstacleMaxRange), v, b)
              && AsPatched(d, Runtime, Named(RaytraceMaxRange), v, b)
  {
    OneAsPatched(d, Runtime, Named(MinObstacleHeight), v, b, v[MinObstacleHeight]);
    OneAsPatched(d, Runtime, Named(MaxObstacleHeight), v, b, v[MaxObstacleHeight]);
    OneAsPatched(d, Runtime, Named(ObstacleMaxRange), v, b, v[ObstacleMaxRange]);
    OneAsPatched(d, Runtime, Named(RaytraceMaxRange), v, b, v[RaytraceMaxRange]);
  }

  lemma RuntimeAsPatched(d: Node, v: Values, b: Binding)
    requires Full(v)
    ensures PlaceAsPatched(d, Runtime, v, b) <==> RuntimeTopics(d, b) && RuntimeRanges(d, v)
  {
    TopicsAsPatched(d, v, b);
    RangesAsPatched(d, v, b);
  }

  predicate IsChecked(s: Place) {
    s in {Controller, Bt, Planner, Spin, Backup, Wait, GlobalScan, LocalScan, LocalCost, LocalInflation, Runtime}
  }

  lemma UncheckedIsAsPatched(d: Node, s: Place, v: Values, b: Binding)
    requires Full(v) && !IsChecked(s)
    ensures PlaceAsPatched(d, s, v, b)
  {
    assert Checked(s) == {};
  }

  predicate CheckedAsPatched(d: Node, v: Values, b: Binding)
    requires Full(v)
  {
    && PlaceAsPatched(d, Controller, v, b) && PlaceAsPatched(d, Bt, v, b) && PlaceAsPatched(d, Planner, v, b)
    && PlaceAsPatched(d, Spin, v, b) && PlaceAsPatched(d, Backup, v, b) && PlaceAsPatched(d, Wait, v, b)
    && PlaceAsPatched(d, GlobalScan, v, b) && PlaceAsPatched(d, LocalScan, v, b)
    && PlaceAsPatched(d, LocalCost, v, b) && PlaceAsPatched(d, LocalInflation, v, b)
    && PlaceAsPatched(d, Runtime, v, b)
  }

  lemma AllPlaces(d: Node, v: Values, b: Binding)
    requires Full(v)
    ensures CheckedAsPatched(d, v, b) <==> forall s: Place :: PlaceAsPatched(d, s, v, b)
  {
    if CheckedAsPatched(d, v, b) {
      forall s: Place ensures PlaceAsPatched(d, s, v, b) {
        if !IsChecked(s) { UncheckedIsAsPatched(d, s, v, b); }
      }
    }
  }

  /** What the patch drops from the controller is absent, and the runtime's table has the keys the
      patch gives it and no others. */
  predicate NothingElse(d: Node, v: Values, b: Binding)
    requires Full(v)
  {
    && Lookup(d, Spot(Controller, ProgressCheckerPlugins)) == None
    && Lookup(d, Spot(Controller, Named(EnableStampedCmdVel))) == None
    && TableAt(d, PathOf(Runtime))
    && Lookup(d, PathOf(Runtime)).value.entries.Keys == ChangeFor(Runtime, v, b).updates.Keys
  }

  lemma BindingsAsPatched(d: Node, v: Values, b: Binding)
    requires Full(v)
    ensures FixedBindings(d, v, b) <==> CheckedAsPatched(d, v, b) && NothingElse(d, v, b)
  {
    ControllerAsPatched(d, v, b);
    NavigatorAsPatched(d, v, b);
    PluginsAsPatched(d, v, b);
    ScansAsPatched(d, v, b);
    LocalsAsPatched(d, v, b);
    RuntimeAsPatched(d, v, b);
    RuntimeKeys(v, b);
  }

  /** Extraction gives a set exactly when the binding is known, the observed parameters validate to
      it, and every checked entry holds what the patch writes there, with nothing else beside them. */
  lemma ExtractsExactly(d: Node, b: Binding, v: Values)
    requires Full(v)
    ensures Extract(d, b) == Some(v) <==>
              && Bound(b) && d.Table? && (forall p: Param :: Observed(d, p).Some?) && Validate(Gathered(d)) == Some(v)
              && (forall s: Place :: PlaceAsPatched(d, s, v, b)) && NothingElse(d, v, b)
  {
    BindingsAsPatched(d, v, b);
    AllPlaces(d, v, b);
  }

  lemma ObservedNumber(d: Node, p: Param)
    requires SpecOf(p).Number? && Observed(d, p).Some?
    ensures Read(d, HomeOf(p), Named(p)) == Observed(d, p)
  {}

  /** An extracted set has every parameter, each number as it stands at its home in the document,
      and the parameters in order: in every document that is accepted the inflation covers the robot,
      obstacles have a height, and rays reach as far as obstacles are marked. */
  lemma ExtractedIsOrdered(d: Node, b: Binding, p: Param)
    requires Extract(d, b).Some?
    ensures var v := Extract(d, b).value;
            && (forall q: Param :: q in v) && Ordered(v)
            && (SpecOf(p).Number? ==>
                  && Read(d, HomeOf(p), Named(p)).Some?
                  && v[p] == Decimal(NumberIn(Read(d, HomeOf(p), Named(p)).value)))
  {
    var raw := Gathered(d);
    ValidatesExactly(raw);
    ValidationIsIdempotent(raw);
    ValidatesExactly(Validate(raw).value);
    if SpecOf(p).Number? {
      ObservedNumber(d, p);
    }
  }

  lemma ForeignApart(at: seq<Key>, c: Change, q: seq<Key>, i: nat)
    requires i < |q| && q[i].Foreign? && Sections(q[..i]) && Sections(at)
    requires Plain(c, c.wipe) && (c.wipe ==> !(at <= q))
    ensures !Affects(at, c, q)
  {
    if i < |at| {
      assert q[i] != at[i];
    } else if |at| < i {
      assert q[|at|] == q[..i][|at|];
    }
  }

  /** A key the patch does not know keeps what it holds, wherever it stands outside the runtime's
      own table. */
  lemma ForeignKeysStay(d: Node, v: Values, b: Binding, q: seq<Key>, i: nat)
    requires Full(v) && Patch(d, v, b).Some?
    requires i < |q| && q[i].Foreign? && Sections(q[..i]) && !(PathOf(Runtime) <= q)
    ensures Lookup(Patch(d, v, b).value, q) == Lookup(d, q)
  {
    forall s: Place ensures !Affects(PathOf(s), ChangeFor(s, v, b), q) {
      ChangesAreEntries(s, v, b);
      ForeignApart(PathOf(s), ChangeFor(s, v, b), q, i);
    }
    PatchPreserves(d, ORDER, v, b, |ORDER|, q);
  }
}
