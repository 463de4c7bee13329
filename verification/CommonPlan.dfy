/** The compiled plan: commands, mission items and the acknowledgements expected for them. */
module CommonPlan {
  import opened Basics

  datatype CommandName =
    | ComponentArmDisarm
    | NavTakeoff
    | NavLand
    | NavReturnToLaunch
    | NavWaypoint
    | NavLoiterTime
    | MissionStart
    | FenceCircleInclusion
    | FenceCircleExclusion
    | FencePolygonVertexInclusion
    | FencePolygonVertexExclusion
    | DoFenceEnable

  function Name(c: CommandName): string {
    match c
    case ComponentArmDisarm => "MAV_CMD_COMPONENT_ARM_DISARM"
    case NavTakeoff => "MAV_CMD_NAV_TAKEOFF"
    case NavLand => "MAV_CMD_NAV_LAND"
    case NavReturnToLaunch => "MAV_CMD_NAV_RETURN_TO_LAUNCH"
    case NavWaypoint => "MAV_CMD_NAV_WAYPOINT"
    case NavLoiterTime => "MAV_CMD_NAV_LOITER_TIME"
    case MissionStart => "MAV_CMD_MISSION_START"
    case FenceCircleInclusion => "MAV_CMD_NAV_FENCE_CIRCLE_INCLUSION"
    case FenceCircleExclusion => "MAV_CMD_NAV_FENCE_CIRCLE_EXCLUSION"
    case FencePolygonVertexInclusion => "MAV_CMD_NAV_FENCE_POLYGON_VERTEX_INCLUSION"
    case FencePolygonVertexExclusion => "MAV_CMD_NAV_FENCE_POLYGON_VERTEX_EXCLUSION"
    case DoFenceEnable => "MAV_CMD_DO_FENCE_ENABLE"
  }

  datatype Phase = CommandPrelude | MissionUpload | StartPhase | CommandPostlude

  /** A parameter is absent where MAVLink sends NaN. */
  type Params = seq<Option<real>>

  datatype CommonCommand = CommonCommand(commandId: string, command: CommandName, phase: Phase, params: Params)

  datatype Coordinate = Coordinate(latE7: int, lonE7: int, relativeAlt: real)

  /** The frame of compiled items, MAV_FRAME_GLOBAL_RELATIVE_ALT_INT, or any other by its name. */
  datatype Frame = GlobalRelativeAltInt | OtherFrame(name: string)

  datatype MissionItem = MissionItem(seqNo: nat, commandId: string, command: CommandName, frame: Frame,
                                     coordinate: Coordinate, params: Params, current: bool,
                                     sourceTaskId: Option<string>, sourceRouteId: Option<string>)

  datatype AckKind = CommandAck | MissionAck

  datatype ExpectedAck = ExpectedAck(phase: Phase, kind: AckKind, commandId: Option<string>,
                                     command: Option<CommandName>, seqNo: Option<nat>)

  /** Why a command is unsupported; `RuleText` spells it out. */
  datatype UnsupportedRule = HoldPositionRule | LoiterPositionRule | OrbitRule | PauseRule | ResumeRule

  function RuleText(r: UnsupportedRule): string {
    match r
    case HoldPositionRule => "hold_requires_position"
    case LoiterPositionRule => "loiter_time_requires_position"
    case OrbitRule => "orbit_unsupported"
    case PauseRule => "pause_unsupported"
    case ResumeRule => "resume_unsupported"
  }

  datatype Unsupported = Unsupported(rule: UnsupportedRule, commandId: string, commandKind: string)

  /** Result of checking the flight-controller contract, computed elsewhere. */
  datatype ContractResult = ContractResult(blocksMissionStart: bool, violations: nat, summary: string)

  datatype CompatibilityClass =
    | Supported
    | SupportedWithCaveats
    | RequiresStackSpecificMapping
    | SupportedViaFallback
    | NotSupported
    | UnknownUntilSitlOrHardware

  datatype ProfileId = MavlinkCommonGeneric | Px4 | ArduPilot

  /** Compatibility of one command or mission item. */
  datatype Row = Row(commandId: Option<string>, seqNo: Option<nat>, command: CommandName, phase: Phase,
                     frame: Option<Frame>, classification: CompatibilityClass)

  datatype CompatibilityReport = CompatibilityReport(profile: ProfileId, overall: CompatibilityClass,
                                                     hardwareFacingAllowed: bool, rows: seq<Row>)

  datatype Plan = Plan(sourceMissionId: string, backendProfile: ProfileId,
                       prelude: seq<CommonCommand>, geofence: Option<seq<MissionItem>>,
                       contract: Option<ContractResult>, items: seq<MissionItem>,
                       start: Option<CommonCommand>, postlude: seq<CommonCommand>,
                       expectedAcks: seq<ExpectedAck>, unsupported: seq<Unsupported>,
                       passed: bool, unsupportedRequired: nat, compatibility: Option<CompatibilityReport>)
}
