/** The navigation parameter set, the patch that writes it into a base document, and the
    extraction that reads it back and checks every fixed binding. */
module NavParameters {
  import opened Wire
  import opened NavNames
  import opened YamlTree

  type Values = map<Param, Scalar>

  // ----- validation -----------------------------------------------------------------------

  function Amount(v: Values, p: Param): real {
    if p in v && v[p].Decimal? then v[p].r else 0.0
  }

  predicate Consistent(v: Values) {
    && Amount(v, RobotRadius) <= Amount(v, InflationRadius)
    && Amount(v, MinObstacleHeight) < Amount(v, MaxObstacleHeight)
    && Amount(v, ObstacleMaxRange) <= Amount(v, RaytraceMaxRange)
  }

  predicate Acceptable(raw: Values) {
    forall p: Param :: p in raw && Normalize(p, raw[p]).Some?
  }

  function Normalized(raw: Values): (v: Values)
    requires Acceptable(raw)
    ensures v.Keys == raw.Keys && forall p :: p in v ==> v[p] == Normalize(p, raw[p]).value
  {
    map p | p in raw :: Normalize(p, raw[p]).value
  }

  function Validate(raw: Values): Option<Values> {
    if Acceptable(raw) && Consistent(Normalized(raw)) then Some(Normalized(raw)) else None
  }

  predicate IsNumeric(x: Scalar) {
    x.Whole? || x.Decimal?
  }

  function NumberIn(x: Scalar): real {
    if x.Whole? then x.i as real else if x.Decimal? then x.r else 0.0
  }

  /** A value a parameter may take: a flag, of the locked kind if it is locked, or a number in range. */
  predicate Allowed(p: Param, x: Scalar) {
    match SpecOf(p)
    case Switch(locked) => (x == Flag(true) && locked != Some(false)) || (x == Flag(false) && locked != Some(true))
    case Number(low, high) => IsNumeric(x) && low <= NumberIn(x) <= high
  }

  /** The order between parameters: the inflation covers the robot, obstacles have a height, and rays
      reach as far as obstacles are marked. */
  predicate Ordered(raw: Values)
    requires forall p: Param :: p in raw
  {
    && NumberIn(raw[RobotRadius]) <= NumberIn(raw[InflationRadius])
    && NumberIn(raw[MinObstacleHeight]) < NumberIn(raw[MaxObstacleHeight])
    && NumberIn(raw[ObstacleMaxRange]) <= NumberIn(raw[RaytraceMaxRange])
  }

  lemma NormalizesExactly(p: Param, x: Scalar)
    ensures Normalize(p, x).Some? <==> Allowed(p, x)
    ensures Allowed(p, x) ==> Normalize(p, x) == Some(if SpecOf(p).Number? then Decimal(NumberIn(x)) else x)
  {}

  lemma AcceptsExactly(raw: Values)
    ensures Acceptable(raw) <==> forall p: Param :: p in raw && Allowed(p, raw[p])
  {
    forall p: Param | p in raw ensures Normalize(p, raw[p]).Some? <==> Allowed(p, raw[p]) {
      NormalizesExactly(p, raw[p]);
    }
  }

  lemma AmountIsNumber(raw: Values, p: Param)
    requires Acceptable(raw) && SpecOf(p).Number?
    ensures Amount(Normalized(raw), p) == NumberIn(raw[p])
  {
    assert Normalize(p, raw[p]).Some?;
    NormalizesExactly(p, raw[p]);
  }

  /** A set is valid exactly when every parameter is there with an allowed value, and their order
      holds; only numbers change, into decimals. */
  lemma ValidatesExactly(raw: Values)
    ensures Validate(raw).Some? <==> (forall p: Param :: p in raw && Allowed(p, raw[p])) && Ordered(raw)
    ensures Validate(raw).Some? ==>
              forall p: Param :: p in Validate(raw).value &&
                Validate(raw).value[p] == if SpecOf(p).Number? then Decimal(NumberIn(raw[p])) else raw[p]
  {
    AcceptsExactly(raw);
    if Acceptable(raw) {
      AmountIsNumber(raw, RobotRadius);
      AmountIsNumber(raw, InflationRadius);
      AmountIsNumber(raw, MinObstacleHeight);
      AmountIsNumber(raw, MaxObstacleHeight);
      AmountIsNumber(raw, ObstacleMaxRange);
      AmountIsNumber(raw, RaytraceMaxRange);
      forall p: Param
        ensures p in Normalized(raw)
                && Normalized(raw)[p] == if SpecOf(p).Number? then Decimal(NumberIn(raw[p])) else raw[p]
      {
        assert p in raw && Normalize(p, raw[p]).Some?;
        NormalizesExactly(p, raw[p]);
      }
    }
  }

  /** A validated set is valid as it stands. */
  lemma ValidationIsIdempotent(raw: Values)
    requires Validate(raw).Some?
    ensures Validate(Validate(raw).value) == Validate(raw)
  {
    var v := Validate(raw).value;
    forall p: Param ensures p in v && Normalize(p, v[p]) == Some(v[p]) {
      assert p in raw && Normalize(p, raw[p]).Some?;
      NormalizeIsIdempotent(p, raw[p]);
    }
    assert Normalized(v) == v;
  }

  // ----- the tables the patch owns ------------------------------------------------------------

  datatype Place =
    | Bt | Controller | Follow | Progress | Goal | Planner | Behavior
    | Spin | Backup | Wait | GlobalCost | LocalCost | GlobalScan | LocalScan
    | GlobalInflation | LocalInflation | Smoother | Maps | Lifecycle | Runtime

  const ORDER := [Bt, Controller, Follow, Progress, Goal, Planner, Behavior, Spin, Backup, Wait,
                  GlobalCost, GlobalScan, GlobalInflation, LocalCost, LocalScan, LocalInflation,
                  Smoother, Maps, Lifecycle, Runtime]

  function Rank(s: Place): (n: nat)
    ensures n < |ORDER| && ORDER[n] == s
  {
    match s
    case Bt => 0 case Controller => 1 case Follow => 2 case Progress => 3 case Goal => 4
    case Planner => 5 case Behavior => 6 case Spin => 7 case Backup => 8 case Wait => 9
    case GlobalCost => 10 case GlobalScan => 11 case GlobalInflation => 12
    case LocalCost => 13 case LocalScan => 14 case LocalInflation => 15
    case Smoother => 16 case Maps => 17 case Lifecycle => 18 case Runtime => 19
  }

  function Server(b: Branch): seq<Key> {
    [Section(b), Section(RosParameters)]
  }

  function Costmap(b: Branch): seq<Key> {
    [Section(b), Section(b), Section(RosParameters)]
  }

  function PathOf(s: Place): (path: seq<Key>)
    ensures forall i :: 0 <= i < |path| ==> path[i].Section?
    ensures |path| >= 2
    ensures path[0] == Section(NavigationRuntime) <==> s == Runtime
    ensures path[0] == Section(VelocitySmoother) <==> s == Smoother
  {
    match s
    case Bt => Server(BtNavigator)
    case Controller => Server(ControllerServer)
    case Follow => Server(ControllerServer) + [Section(FollowPath)]
    case Progress => Server(ControllerServer) + [Section(ProgressChecker)]
    case Goal => Server(ControllerServer) + [Section(GoalChecker)]
    case Planner => Server(PlannerServer) + [Section(GridBased)]
    case Behavior => Server(BehaviorServer)
    case Spin => Server(BehaviorServer) + [Section(SpinBehavior)]
    case Backup => Server(BehaviorServer) + [Section(BackupBehavior)]
    case Wait => Server(BehaviorServer) + [Section(WaitBehavior)]
    case GlobalCost => Costmap(GlobalCostmap)
    case LocalCost => Costmap(LocalCostmap)
    case GlobalScan => Costmap(GlobalCostmap) + [Section(ObstacleLayer), Section(Scan)]
    case LocalScan => Costmap(LocalCostmap) + [Section(ObstacleLayer), Section(Scan)]
    case GlobalInflation => Costmap(GlobalCostmap) + [Section(InflationLayer)]
    case LocalInflation => Costmap(LocalCostmap) + [Section(InflationLayer)]
    case Smoother => Server(VelocitySmoother)
    case Maps => Server(MapServer)
    case Lifecycle => Server(LifecycleManager)
    case Runtime => Server(NavigationRuntime)
  }

  /** The place a path leads to, read off its keys. */
  function PlaceAt(path: seq<Key>): Place
    requires |path| >= 2 && forall i :: 0 <= i < |path| ==> path[i].Section?
  {
    match path[0].b
    case BtNavigator => Bt
    case ControllerServer =>
      if |path| == 2 then Controller else if path[2].b.FollowPath? then Follow
      else if path[2].b.ProgressChecker? then Progress else Goal
    case PlannerServer => Planner
    case BehaviorServer =>
      if |path| == 2 then Behavior else if path[2].b.SpinBehavior? then Spin
      else if path[2].b.BackupBehavior? then Backup else Wait
    case GlobalCostmap => if |path| == 3 then GlobalCost else if |path| == 5 then GlobalScan else GlobalInflation
    case LocalCostmap => if |path| == 3 then LocalCost else if |path| == 5 then LocalScan else LocalInflation
    case VelocitySmoother => Smoother
    case MapServer => Maps
    case LifecycleManager => Lifecycle
    case _ => Runtime
  }

  lemma PathIdentifies(s: Place)
    ensures PlaceAt(PathOf(s)) == s
  {}

  // ----- what the patch writes there -----------------------------------------------------------

  datatype Binding = Binding(topic: Text, mode: Text)

  function ExpectedTopic(mode: Text): Option<Text> {
    match mode
    case StrictOnboard => Some(StrictOdom)
    case CompetitionFastlio => Some(FastlioOdom)
    case FastlioBody => Some(FastlioOdom)
    case _ => None
  }

  predicate Bound(b: Binding) {
    ExpectedTopic(b.mode) == Some(b.topic)
  }

  const COSTMAP_MIN := -1.0
  const COSTMAP_MAX := 3.0

  predicate Full(v: Values) {
    forall p: Param :: p in v
  }

  function Say(t: Text): Node {
    Leaf(Label(t))
  }

  function Only(updates: map<Key, Node>): Change {
    Change(false, {}, updates)
  }

  function ScanChange(v: Values): Change
    requires Full(v)
  {
    Only(map[Entry(Topic) := Say(ScanName),
             Entry(Named(MinObstacleHeight)) := Leaf(Decimal(COSTMAP_MIN)),
             Entry(Named(MaxObstacleHeight)) := Leaf(Decimal(COSTMAP_MAX)),
             Entry(Named(ObstacleMaxRange)) := Leaf(v[ObstacleMaxRange]),
             Entry(Named(RaytraceMaxRange)) := Leaf(v[RaytraceMaxRange])])
  }

  function InflationChange(v: Values): Change
    requires Full(v)
  {
    Only(map[Entry(Named(InflationRadius)) := Leaf(v[InflationRadius]),
             Entry(Named(CostScalingFactor)) := Leaf(v[CostScalingFactor])])
  }

  function FollowChange(v: Values): Change
    requires Full(v)
  {
    Only(map[Entry(Plugin) := Say(RotationShim),
             Entry(PrimaryController) := Say(RegulatedPurePursuit),
             Entry(Named(UseRotateToHeading)) := Leaf(Flag(false)),
             Entry(Named(RotateToGoalHeading)) := Leaf(Flag(true)),
             Entry(Named(DesiredLinearVel)) := Leaf(v[DesiredLinearVel]),
             Entry(Named(LookaheadTime)) := Leaf(v[LookaheadTime]),
             Entry(Named(MinLookaheadDist)) := Leaf(v[MinLookaheadDist]),
             Entry(Named(UseVelocityScaledLookaheadDist)) := Leaf(v[UseVelocityScaledLookaheadDist]),
             Entry(Named(RotateToHeadingAngularVel)) := Leaf(v[RotateToHeadingAngularVel]),
             Entry(Named(MaxAngularAccel)) := Leaf(v[MaxAngularAccel]),
             Entry(Named(TransformTolerance)) := Leaf(v[TransformTolerance]),
             Entry(Named(ClosedLoop)) := Leaf(Flag(false)),
             Entry(Named(AngularDistThreshold)) := Leaf(v[AngularDistThreshold])])
  }

  function RuntimeChange(v: Values, b: Binding): Change
    requires Full(v)
  {
    Change(true, {}, map[
      Entry(ScanTopic) := Say(ScanName),
      Entry(OdomTopic) := Say(OdometryName),
      Entry(CmdVelTopic) := Say(PrivateCmdVel),
      Entry(ControllerOdomTopic) := Say(b.topic),
      Entry(ControllerOdomMode) := Say(b.mode),
      Entry(Named(MinObstacleHeight)) := Leaf(v[MinObstacleHeight]),
      Entry(Named(MaxObstacleHeight)) := Leaf(v[MaxObstacleHeight]),
      Entry(Named(ObstacleMaxRange)) := Leaf(v[ObstacleMaxRange]),
      Entry(Named(RaytraceMaxRange)) := Leaf(v[RaytraceMaxRange])])
  }

  function ChangeFor(s: Place, v: Values, b: Binding): Change
    requires Full(v)
  {
    match s
    case Bt => Only(map[Entry(OdomTopic) := Say(b.topic), Entry(PluginLibNames) := Leaf(Names(BtPluginLibraries))])
    case Controller =>
      Change(false, {Entry(ProgressCheckerPlugins), Entry(Named(EnableStampedCmdVel))},
             map[Entry(OdomTopic) := Say(b.topic),
                 Entry(Named(ControllerFrequency)) := Leaf(v[ControllerFrequency]),
                 Entry(ProgressCheckerPlugin) := Say(ProgressCheckerName)])
    case Follow => FollowChange(v)
    case Progress => Only(map[Entry(Named(RequiredMovementRadius)) := Leaf(v[RequiredMovementRadius])])
    case Goal =>
      Only(map[Entry(Named(XyGoalTolerance)) := Leaf(v[XyGoalTolerance]),
               Entry(Named(YawGoalTolerance)) := Leaf(v[YawGoalTolerance])])
    case Planner =>
      Only(map[Entry(Plugin) := Say(Navfn), Entry(Named(UseAstar)) := Leaf(v[UseAstar])])
    case Behavior => Change(false, {Entry(Named(EnableStampedCmdVel))}, map[])
    case Spin => Only(map[Entry(Plugin) := Say(SpinPlugin)])
    case Backup => Only(map[Entry(Plugin) := Say(BackUpPlugin)])
    case Wait => Only(map[Entry(Plugin) := Say(WaitPlugin)])
    case GlobalCost =>
      Only(map[Entry(Named(RobotRadius)) := Leaf(v[RobotRadius]),
               Entry(Named(AlwaysSendFullCostmap)) := Leaf(v[AlwaysSendFullCostmap]),
               Entry(Named(TrackUnknownSpace)) := Leaf(v[TrackUnknownSpace])])
    case LocalCost =>
      Only(map[Entry(Named(RobotRadius)) := Leaf(v[RobotRadius]),
               Entry(Named(AlwaysSendFullCostmap)) := Leaf(v[AlwaysSendFullCostmap])])
    case GlobalScan => ScanChange(v)
    case LocalScan => ScanChange(v)
    case GlobalInflation => InflationChange(v)
    case LocalInflation => InflationChange(v)
    case Smoother =>
      Change(false, {Entry(Named(EnableStampedCmdVel))}, map[Entry(OdomTopic) := Say(b.topic)])
    case Maps => Only(map[Entry(UseSimTime) := Leaf(Flag(false))])
    case Lifecycle =>
      Only(map[Entry(UseSimTime) := Leaf(Flag(false)), Entry(Autostart) := Leaf(Flag(true)),
               Entry(NodeNames) := Leaf(Names(LifecycleNodes))])
    case Runtime => RuntimeChange(v, b)
  }

  lemma ChangesAreEntries(s: Place, v: Values, b: Binding)
    requires Full(v)
    ensures var c := ChangeFor(s, v, b);
            && (forall k :: k in c.updates ==> k.Entry?) && (forall k :: k in c.drops ==> k.Entry?)
            && (forall k :: k in c.drops ==> k !in c.updates)
            && (c.wipe <==> s == Runtime)
  {}

  /** The smoother is only touched where the document already has a table for it. */
  predicate HasSmoother(d: Node) {
    var n := Lookup(d, [Section(VelocitySmoother)]);
    n.Some? && n.value.Table?
  }

  predicate Skips(d: Node, s: Place) {
    s == Smoother && !HasSmoother(d)
  }

  /** One owned table revised, unless it is the smoother's and the document has none. */
  function PatchPlace(d: Node, s: Place, v: Values, b: Binding): Option<Node>
    requires Full(v)
  {
    if Skips(d, s) then Some(d) else Merge(d, PathOf(s), ChangeFor(s, v, b))
  }

  /** The first `n` places of a list revised, one after another. */
  function PatchUpto(d: Node, places: seq<Place>, v: Values, b: Binding, n: nat): Option<Node>
    requires n <= |places| && Full(v)
  {
    if n == 0 then Some(d)
    else
      match PatchUpto(d, places, v, b, n - 1)
      case None => None
      case Some(e) => PatchPlace(e, places[n - 1], v, b)
  }

  function Patch(d: Node, v: Values, b: Binding): Option<Node>
    requires Full(v)
  {
    if Bound(b) then PatchUpto(d, ORDER, v, b, |ORDER|) else None
  }

  /** The patch revises one owned table after another in one document. */
  method PatchYaml(base: Node, v: Values, b: Binding) returns (r: Option<Node>)
    requires Full(v)
    ensures r == Patch(base, v, b)
  {
    if !Bound(b) {
      return None;
    }
    r := PatchPlaces(base, ORDER, v, b);
  }

  method PatchPlaces(base: Node, places: seq<Place>, v: Values, b: Binding) returns (r: Option<Node>)
    requires Full(v)
    ensures r == PatchUpto(base, places, v, b, |places|)
  {
    var document, n := base, 0;
    while n < |places|
      invariant 0 <= n <= |places| && PatchUpto(base, places, v, b, n) == Some(document)
    {
      var patched := PatchPlace(document, places[n], v, b);
      n := n + 1;
      if patched.None? {
        PatchStaysFailed(base, places, v, b, n, |places|);
        return None;
      }
      document := patched.value;
    }
    return Some(document);
  }

  lemma {:induction false} PatchStaysFailed(d: Node, places: seq<Place>, v: Values, b: Binding, n: nat, m: nat)
    requires n <= m <= |places| && Full(v) && PatchUpto(d, places, v, b, n).None?
    ensures PatchUpto(d, places, v, b, m).None?
  {
    if n < m {
      PatchStaysFailed(d, places, v, b, n, m - 1);
    }
  }
}
