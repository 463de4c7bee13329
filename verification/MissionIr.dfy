/** The hardware-agnostic mission plan and its validation. */
module MissionIr {
  import opened Basics

  datatype Position = Geo(lat: real, lon: real, alt: real) | Local(x: real, y: real, z: real)

  datatype CoordinateFrame = Wgs84 | LocalEnu | LocalNed

  datatype Waypoint = Waypoint(position: Position, acceptanceRadius: Option<real>)

  datatype Direction = Clockwise | CounterClockwise

  datatype Command =
    | Arm
    | Disarm
    | Takeoff(altitude: real)
    | Hold(duration: real)
    | Land
    | ReturnToLaunch
    | GoTo(position: Position)
    | FollowRoute(waypoints: seq<Waypoint>)
    | LoiterTime(duration: real)
    | Orbit(center: Position, radius: real, turns: real, direction: Direction)
    | Pause
    | Resume
    | Abort

  datatype Entry = Entry(commandId: string, command: Command, sourceTaskId: Option<string>,
                         sourceRouteId: Option<string>)

  datatype MissionPlan = MissionPlan(missionId: string, frame: CoordinateFrame, commands: seq<Entry>)

  /** Coordinates are real numbers here, so they are always finite. */
  predicate PositionOk(p: Position, frame: CoordinateFrame) {
    p.Geo? <==> frame.Wgs84?
  }

  predicate CommandOk(c: Command, frame: CoordinateFrame) {
    match c
    case Takeoff(altitude) => altitude > 0.0
    case Hold(duration) => duration > 0.0
    case LoiterTime(duration) => duration > 0.0
    case GoTo(position) => PositionOk(position, frame)
    case FollowRoute(waypoints) =>
      waypoints != [] && forall i :: 0 <= i < |waypoints| ==> PositionOk(waypoints[i].position, frame)
    case Orbit(center, radius, turns, _) => PositionOk(center, frame) && radius > 0.0 && turns > 0.0
    case _ => true
  }

  predicate DistinctIds(entries: seq<Entry>) {
    forall i, j :: 0 <= i < j < |entries| ==> entries[i].commandId != entries[j].commandId
  }

  predicate CommandsOk(plan: MissionPlan) {
    forall i :: 0 <= i < |plan.commands| ==> CommandOk(plan.commands[i].command, plan.frame)
  }

  ghost predicate ValidPlan(plan: MissionPlan) {
    DistinctIds(plan.commands) && CommandsOk(plan)
  }

  /** Accepts exactly the valid plans. */
  method Validate(plan: MissionPlan) returns (ok: bool)
    ensures ok <==> ValidPlan(plan)
  {
    var seen: set<string> := {};
    for k := 0 to |plan.commands|
      invariant seen == set i | 0 <= i < k :: plan.commands[i].commandId
      invariant DistinctIds(plan.commands[..k])
    {
      var id := plan.commands[k].commandId;
      if id in seen {
        return false;
      }
      seen := seen + {id};
    }
    assert plan.commands[..|plan.commands|] == plan.commands;
    for k := 0 to |plan.commands|
      invariant forall i :: 0 <= i < k ==> CommandOk(plan.commands[i].command, plan.frame)
    {
      if !CommandOk(plan.commands[k].command, plan.frame) {
        return false;
      }
    }
    ok := true;
  }
}
