/** Agents, tasks and poses, as the allocators and route planners see them. */
module Fleet {
  import opened Basics

  datatype Pose = Pose(x: real, y: real, z: real)

  datatype Role = Scout | Relay | Mapper | Inspector | Carrier | Thermal

  datatype BatteryModel = BatteryModel(climbDrain: real, cruiseDrain: real, reserveFraction: real)

  datatype Agent = Agent(id: string, role: Role, pose: Pose, capabilities: seq<string>, battery: real,
                         drainRate: real, batteryModel: Option<BatteryModel>)

  datatype Task = Task(id: string, requiredCapabilities: seq<string>, requiredRole: Option<Role>, pose: Option<Pose>)

  /** Distances come from outside: square roots are not part of this model. */
  type Distance = (Pose, Pose) -> real

  ghost predicate IsMetric(d: Distance) {
    && (forall a, b :: d(a, b) >= 0.0)
    && (forall a :: d(a, a) == 0.0)
    && (forall a, b :: d(a, b) == d(b, a))
    && (forall a, b, c :: d(a, c) <= d(a, b) + d(b, c))
  }

  function Ids(tasks: seq<Task>): (r: seq<string>)
    ensures |r| == |tasks|
    ensures forall i :: 0 <= i < |tasks| ==> r[i] == tasks[i].id
  {
    seq(|tasks|, i requires 0 <= i < |tasks| => tasks[i].id)
  }

  function TaskIds(tasks: seq<Task>): set<string> {
    set t | t in tasks :: t.id
  }

  function AgentIds(agents: seq<Agent>): set<string> {
    set a | a in agents :: a.id
  }

  /** The first task with the given id. */
  function FindTask(tasks: seq<Task>, id: string): (r: Option<Task>)
    ensures r.Some? ==> r.value in tasks && r.value.id == id
    ensures r.None? <==> id !in TaskIds(tasks)
  {
    if tasks == [] then None
    else if tasks[0].id == id then
      assert tasks[0] in tasks;
      Some(tasks[0])
    else
      assert forall t :: t in tasks <==> t == tasks[0] || t in tasks[1..];
      FindTask(tasks[1..], id)
  }

  function FindAgent(agents: seq<Agent>, id: string): (r: Option<Agent>)
    ensures r.Some? ==> r.value in agents && r.value.id == id
    ensures r.None? <==> id !in AgentIds(agents)
  {
    if agents == [] then None
    else if agents[0].id == id then
      assert agents[0] in agents;
      Some(agents[0])
    else
      assert forall a :: a in agents <==> a == agents[0] || a in agents[1..];
      FindAgent(agents[1..], id)
  }

  lemma {:induction false} TaskIdsCount(tasks: seq<Task>)
    ensures |TaskIds(tasks)| <= |tasks|
  {
    if tasks != [] {
      var rest, t := tasks[..|tasks| - 1], tasks[|tasks| - 1];
      TaskIdsCount(rest);
      assert tasks == rest + [t];
      assert TaskIds(tasks) == TaskIds(rest) + {t.id};
    }
  }
}
