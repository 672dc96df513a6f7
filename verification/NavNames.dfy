/** The names and scalars that appear in the navigation parameter document. */
module NavNames {
  import opened Wire

  /** The parameters a user may see or set. */
  datatype Param =
    | UseRotateToHeading | RotationShimEnabled | RotateToGoalHeading | DesiredLinearVel
    | ControllerFrequency | LookaheadTime | MinLookaheadDist | UseVelocityScaledLookaheadDist
    | RotateToHeadingAngularVel | MaxAngularAccel | TransformTolerance | ClosedLoop
    | AngularDistThreshold | RobotRadius | InflationRadius | CostScalingFactor
    | MinObstacleHeight | MaxObstacleHeight | ObstacleMaxRange | RaytraceMaxRange
    | AlwaysSendFullCostmap | TrackUnknownSpace | XyGoalTolerance | YawGoalTolerance
    | RequiredMovementRadius | UseAstar | EnableStampedCmdVel

  /** Keys that name tables. */
  datatype Branch =
    | RosParameters | BtNavigator | ControllerServer | FollowPath | ProgressChecker | GoalChecker
    | PlannerServer | GridBased | BehaviorServer | SpinBehavior | BackupBehavior | WaitBehavior
    | GlobalCostmap | LocalCostmap | ObstacleLayer | Scan | InflationLayer
    | VelocitySmoother | MapServer | LifecycleManager | NavigationRuntime

  /** Keys that name values; a parameter's own name is one. */
  datatype Field =
    | Named(p: Param)
    | OdomTopic | PluginLibNames | ProgressCheckerPlugin | ProgressCheckerPlugins
    | Plugin | PrimaryController | Topic | UseSimTime | Autostart | NodeNames
    | ScanTopic | CmdVelTopic | ControllerOdomTopic | ControllerOdomMode

  /** `Foreign` stands for every key the patch does not know. */
  datatype Key = Section(b: Branch) | Entry(f: Field) | Foreign(n: nat)

  datatype Text =
    | StrictOdom | FastlioOdom | FastlioTopic | ScanName | OdometryName | PrivateCmdVel
    | ProgressCheckerName | RotationShim | RegulatedPurePursuit | Navfn
    | SpinPlugin | BackUpPlugin | WaitPlugin
    | StrictOnboard | CompetitionFastlio | FastlioBody
    | OtherText(n: nat)

  datatype TextList = BtPluginLibraries | LifecycleNodes | OtherList(n: nat)

  datatype Scalar =
    | Flag(on: bool) | Whole(i: int) | Decimal(r: real) | NotFinite | Label(t: Text) | Names(l: TextList)

  /** The double closest to pi, and its half. */
  const PI := 3.141592653589793115997963468544185161590576171875
  const HALF_PI := 1.5707963267948965579989817342720925807952880859375

  datatype Spec = Switch(locked: Option<bool>) | Number(minimum: real, maximum: real)

  function SpecOf(p: Param): Spec {
    match p
    case UseRotateToHeading => Switch(Some(false))
    case RotationShimEnabled => Switch(Some(true))
    case RotateToGoalHeading => Switch(Some(true))
    case DesiredLinearVel => Number(0.05, 1.0)
    case ControllerFrequency => Number(10.0, 20.0)
    case LookaheadTime => Number(0.2, 2.0)
    case MinLookaheadDist => Number(0.10, 0.60)
    case UseVelocityScaledLookaheadDist => Switch(None)
    case RotateToHeadingAngularVel => Number(0.10, 0.50)
    case MaxAngularAccel => Number(0.10, 1.20)
    case TransformTolerance => Number(0.05, 1.0)
    case ClosedLoop => Switch(Some(false))
    case AngularDistThreshold => Number(0.10, PI)
    case RobotRadius => Number(0.15, 0.40)
    case InflationRadius => Number(0.16, 1.0)
    case CostScalingFactor => Number(1.0, 20.0)
    case MinObstacleHeight => Number(-1.0, 1.0)
    case MaxObstacleHeight => Number(0.1, 3.0)
    case ObstacleMaxRange => Number(0.5, 12.0)
    case RaytraceMaxRange => Number(0.5, 15.0)
    case AlwaysSendFullCostmap => Switch(None)
    case TrackUnknownSpace => Switch(None)
    case XyGoalTolerance => Number(0.05, 1.0)
    case YawGoalTolerance => Number(0.05, HALF_PI)
    case RequiredMovementRadius => Number(0.05, 1.0)
    case UseAstar => Switch(None)
    case EnableStampedCmdVel => Switch(Some(false))
  }

  /** One value in its normal form, if it is acceptable. */
  function Normalize(p: Param, v: Scalar): Option<Scalar> {
    match SpecOf(p)
    case Switch(locked) =>
      if v.Flag? && (locked.None? || v.on == locked.value) then Some(v) else None
    case Number(low, high) =>
      var number := if v.Whole? then Some(v.i as real) else if v.Decimal? then Some(v.r) else None;
      if number.Some? && low <= number.value <= high then Some(Decimal(number.value)) else None
  }

  lemma NormalizeIsIdempotent(p: Param, v: Scalar)
    requires Normalize(p, v).Some?
    ensures Normalize(p, Normalize(p, v).value) == Normalize(p, v)
  {}
}
