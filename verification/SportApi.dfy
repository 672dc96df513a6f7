/** The Unitree sport requests the bridge may publish, and the action allow-list. */
module SportApi {
  import opened Wire

  const API_STOP_MOVE := 1003
  const API_MOVE := 1008

  datatype Velocity = Velocity(x: real, y: real, z: real)

  const ZERO := Velocity(0.0, 0.0, 0.0)

  datatype Action =
    | BalanceStand | StandUp | StandDown | RecoveryStand | Sit | RiseSit | Hello
    | Stretch | Content | Scrape | Heart | StaticWalk | EconomicGait | FreeWalk

  function ApiId(a: Action): (id: int)
    ensures id != API_STOP_MOVE && id != API_MOVE
  {
    match a
    case BalanceStand => 1002
    case StandUp => 1004
    case StandDown => 1005
    case RecoveryStand => 1006
    case Sit => 1009
    case RiseSit => 1010
    case Hello => 1016
    case Stretch => 1017
    case Content => 1020
    case Scrape => 1029
    case Heart => 1036
    case StaticWalk => 1061
    case EconomicGait => 1063
    case FreeWalk => 2045
  }

  function GuardSeconds(a: Action): (g: real)
    ensures 3.0 <= g <= 8.0
  {
    match a
    case BalanceStand => 3.0
    case StandUp => 5.0
    case StandDown => 5.0
    case RecoveryStand => 8.0
    case Sit => 5.0
    case RiseSit => 5.0
    case Hello => 8.0
    case Stretch => 8.0
    case Content => 8.0
    case Scrape => 8.0
    case Heart => 8.0
    case StaticWalk => 3.0
    case EconomicGait => 3.0
    case FreeWalk => 3.0
  }

  predicate IsActionId(id: int) {
    id in {1002, 1004, 1005, 1006, 1009, 1010, 1016, 1017, 1020, 1029, 1036, 1061, 1063, 2045}
  }

  /** The `parameter` text of a request, decoded: nothing, a JSON object with exactly the
      keys x, y and z, or anything else. */
  datatype Parameter = NoText | Axes(x: Value, y: Value, z: Value) | Garbled

  /** Why a request is published or a stop forced: the fixed texts, or text from a caller. */
  datatype Reason =
    | NoReason
    | Said(text: string)
    | PlainStop
    | DeadmanReleased
    | TelemetryUnavailable
    | TelemetryUnavailableDuringAction
    | BridgeUnavailableBeforeAction
    | CommandWatchdog
    | FreshDeadmanCommand
    | AllowlistedAction(action: Action)
    | RejectedCommand(error: CommandError)
    | UndecodableCommand
    | TransportFailed
    | StatusTransportFailed
    | BridgeShutdown

  /** The refusals of a bridge command. */
  datatype CommandError =
    | UnknownCommand
    | EpochMismatch
    | InvalidSource
    | InvalidSequence
    | InvalidTransportAge
    | NegativeTransportAge
    | TransportDeadlineExceeded
    | Replayed
    | OtherSourceOwnsBridge
    | InvalidInhibit
    | InhibitOwnerMismatch
    | InhibitRetained
    | BridgeBusy
    | InhibitNotOwned
    | BlockedByInhibit
    | ActionWindowActive
    | ActionNotAllowlisted
    | DeadmanNotBoolean
    | VelocityNotFinite

  datatype SportRequest = SportRequest(apiId: int, parameter: Parameter, reason: Reason)

  function StopRequest(reason: Reason): SportRequest {
    SportRequest(API_STOP_MOVE, NoText, reason)
  }

  function MoveRequest(v: Velocity): SportRequest {
    SportRequest(API_MOVE, Axes(Float(v.x), Float(v.y), Float(v.z)), FreshDeadmanCommand)
  }

  function ActionRequest(a: Action): SportRequest {
    SportRequest(ApiId(a), NoText, AllowlistedAction(a))
  }

  /** Some axis counts as moving: above 1e-6 in magnitude. */
  predicate IsMotion(v: Velocity) {
    Abs(v.x) > 0.000001 || Abs(v.y) > 0.000001 || Abs(v.z) > 0.000001
  }
}
