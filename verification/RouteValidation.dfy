/** The checker that re-derives every command route of a plan. */
module RouteValidation {
  import opened Basics
  import opened Graphs
  import opened Topology
  import PeerRoutes
  import opened MothershipCycle

  datatype Error =
    | MissingTransportAssumption
    | DuplicateTopologyNode(nodeId: string)
    | MissingTopologyNode(nodeId: string)
    | UnknownTopologyLinkEndpoint(nodeId: string)
    | MissingCommandRoute(agentId: string)
    | UnknownCommandRouteNode(routeId: string, nodeId: string)
    | CommandRoutePathMismatch(routeId: string)
    | MothershipRouteBypassesParent(routeId: string, parentNodeId: string)
    | BlockedRouteWithoutReason(routeId: string)
    | MothershipDependencyCycle(agentId: string)
    | UnknownMothershipDependencyAgent(agentId: string)

  // ----- one route -----

  /** A route is justified when a blocked one has a reason and really is blocked, and an
      allowed one is exactly the recomputed path and visits the parent of its agent. */
  ghost predicate RouteJustified(t: Config, route: Route) {
    var target, parent := AgentNode(t.nodes, route.to), ParentNode(t, route.to);
    && route.from in NodeIds(t) && target.Some?
    && if route.allowed then
         && PathForKind(t, route.from, target.value, route.to) == Some(route.via)
         && (parent.Some? ==> parent.value in route.via)
       else
         && (forall id :: id in route.via ==> id in NodeIds(t))
         && !Unreasoned(route.reason)
         && PathForKind(t, route.from, target.value, route.to).None?
  }

  lemma PathForKindIsRoute(t: Config, from: string, target: string, agent: string)
    requires AgentNode(t.nodes, agent) == Some(target)
    requires PathForKind(t, from, target, agent).Some?
    ensures IsRoute(t, PathForKind(t, from, target, agent).value, from, target)
    ensures t.kind.Mothership? && ParentNode(t, agent).Some? ==>
              ParentNode(t, agent).value in PathForKind(t, from, target, agent).value
  {
    assert RouteFor(t, from, agent).via == PathForKind(t, from, target, agent).value;
    AllowedRoutesAreRoutes(t, from, agent);
  }

  lemma RouteNodesKnown(t: Config, p: Path, src: string, dst: string)
    requires IsRoute(t, p, src, dst)
    ensures forall id :: id in p ==> id in NodeIds(t)
  {
    assert AvailableNodes(t) <= NodeIds(t);
  }

  /** The loop over consecutive pairs of the path. */
  method LinksUp(t: Config, via: Path) returns (r: bool)
    ensures r <==> forall i :: 0 <= i < |via| - 1 ==> AvailableLinkExists(t, via[i], via[i + 1])
  {
    for k := 0 to |via|
      invariant forall i :: 0 <= i < k && i < |via| - 1 ==> AvailableLinkExists(t, via[i], via[i + 1])
    {
      if k < |via| - 1 && !AvailableLinkExists(t, via[k], via[k + 1]) {
        return false;
      }
    }
    r := true;
  }

  /** The first path node that the topology does not have. */
  method FirstUnknown(nodeIds: set<string>, via: Path) returns (r: Option<string>)
    ensures r.None? <==> forall id :: id in via ==> id in nodeIds
    ensures r.Some? ==> r.value in via && r.value !in nodeIds
  {
    for k := 0 to |via|
      invariant forall i :: 0 <= i < k ==> via[i] in nodeIds
    {
      if via[k] !in nodeIds {
        return Some(via[k]);
      }
    }
    r := None;
  }

  ghost predicate ErrorExplained(t: Config, route: Route, e: Error) {
    match e
    case UnknownCommandRouteNode(routeId, id) =>
      routeId == route.routeId && id !in NodeIds(t) && (id == route.from || id in route.via)
    case MissingTopologyNode(id) => id == "agent:" + route.to && AgentNode(t.nodes, route.to).None?
    case BlockedRouteWithoutReason(routeId) =>
      routeId == route.routeId && !route.allowed && Unreasoned(route.reason)
    case CommandRoutePathMismatch(routeId) =>
      && routeId == route.routeId
      && (route.allowed != RouteFor(t, route.from, route.to).allowed
          || route.via != RouteFor(t, route.from, route.to).via)
    case MothershipRouteBypassesParent(routeId, parent) =>
      // only outside mothership topologies, and only on the very path the planner produces
      && routeId == route.routeId && !t.kind.Mothership?
      && ParentNode(t, route.to) == Some(parent) && parent !in route.via
      && route.via == RouteFor(t, route.from, route.to).via
    case _ => false
  }

  /** Accepts exactly the justified routes; every refusal names a real defect. */
  method ValidateCommandRoute(t: Config, nodeIds: set<string>, route: Route) returns (r: Result<Error>)
    requires nodeIds == NodeIds(t)
    ensures r.Ok? <==> RouteJustified(t, route)
    ensures r.Ok? && !route.allowed ==> NoWay(t, route.from, AgentNode(t.nodes, route.to).value, route.to)
    ensures r.Err? ==> ErrorExplained(t, route, r.error)
  {
    if route.from !in nodeIds {
      return Err(UnknownCommandRouteNode(route.routeId, route.from));
    }
    var unknown := FirstUnknown(nodeIds, route.via);
    if unknown.Some? {
      UnknownNodeUnjustified(t, route, unknown.value);
      return Err(UnknownCommandRouteNode(route.routeId, unknown.value));
    }
    var target := AgentNode(t.nodes, route.to);
    if target.None? {
      return Err(MissingTopologyNode("agent:" + route.to));
    }
    var expected := RouteBetween(t, route.from, route.to);
    if !route.allowed {
      if Unreasoned(route.reason) {
        return Err(BlockedRouteWithoutReason(route.routeId));
      }
      if expected.allowed {
        return Err(CommandRoutePathMismatch(route.routeId));
      }
      return Ok;
    }
    ghost var path := PathForKind(t, route.from, target.value, route.to);
    if path.Some? {
      PathForKindIsRoute(t, route.from, target.value, route.to);
    }
    if !expected.allowed || route.via != expected.via
       || |route.via| == 0 || route.via[0] != route.from || route.via[|route.via| - 1] != target.value {
      return Err(CommandRoutePathMismatch(route.routeId));
    }
    var up := LinksUp(t, route.via);
    assert up by {
      assert forall i :: 0 <= i < |route.via| - 1 ==> Hop(t, route.via[i], route.via[i + 1]);
    }
    if !up {
      return Err(CommandRoutePathMismatch(route.routeId));
    }
    var parent := ParentNode(t, route.to);
    if parent.Some? && parent.value !in route.via {
      return Err(MothershipRouteBypassesParent(route.routeId, parent.value));
    }
    r := Ok;
  }

  lemma UnknownNodeUnjustified(t: Config, route: Route, id: string)
    requires id in route.via && id !in NodeIds(t)
    ensures !RouteJustified(t, route)
  {
    if RouteJustified(t, route) && route.allowed {
      var target := AgentNode(t.nodes, route.to).value;
      PathForKindIsRoute(t, route.from, target, route.to);
      RouteNodesKnown(t, route.via, route.from, target);
    }
  }

  // ----- planner and checker agree -----

  /** If the planner lets a command through to `agent`, its route comes past the parent. */
  ghost predicate ParentOnTheWay(t: Config, from: string, agent: string) {
    var route, parent := RouteFor(t, from, agent), ParentNode(t, agent);
    route.allowed && parent.Some? ==> parent.value in route.via
  }

  /** In mothership topologies, where the path goes through the parent, and in topologies
      without dependencies, where nobody has one, it always does. */
  lemma ParentAlwaysOnTheWay(t: Config, from: string, agent: string)
    requires t.kind.Mothership? || t.dependencies == []
    ensures RouteFor(t, from, agent).allowed && ParentNode(t, agent).Some? ==>
              ParentNode(t, agent).value in RouteFor(t, from, agent).via
  {
    if RouteFor(t, from, agent).allowed {
      AllowedRoutesAreRoutes(t, from, agent);
    }
  }

  /** The checker accepts what the planner produced exactly when the source and the agent are
      in the topology and the parent of the agent is on the way. */
  lemma PlannerRouteJustified(t: Config, from: string, agent: string)
    ensures RouteJustified(t, RouteFor(t, from, agent)) <==>
            from in NodeIds(t) && AgentNode(t.nodes, agent).Some? && ParentOnTheWay(t, from, agent)
  {
    var route, target := RouteFor(t, from, agent), AgentNode(t.nodes, agent);
    if target.Some? && PathForKind(t, from, target.value, agent).Some? {
      PathForKindIsRoute(t, from, target.value, agent);
    }
  }

  /** Conversely an accepted, allowed route is a real walk to the agent past its parent; with
      no parent, or outside mothership topologies, it is the least such walk. */
  lemma JustifiedRoutesAreReal(t: Config, route: Route)
    requires RouteJustified(t, route) && route.allowed
    ensures AgentNode(t.nodes, route.to).Some?
    ensures IsRoute(t, route.via, route.from, AgentNode(t.nodes, route.to).value)
    ensures ParentNode(t, route.to).Some? ==> ParentNode(t, route.to).value in route.via
    ensures !t.kind.Mothership? || ParentNode(t, route.to).None? ==>
              IsLeastRoute(t, route.via, route.from, AgentNode(t.nodes, route.to).value)
  {
    var target := AgentNode(t.nodes, route.to).value;
    PathForKindIsRoute(t, route.from, target, route.to);
    LeastRouteIsLeast(t, route.from, target);
  }

  // ----- the whole topology -----

  ghost predicate LinksKnown(t: Config) {
    forall l :: l in t.links ==> l.from in NodeIds(t) && l.to in NodeIds(t)
  }

  ghost predicate DependenciesKnown(t: Config, agents: seq<string>) {
    forall d :: d in t.dependencies ==> d.parent in agents && d.child in agents
  }

  function NodeIdSeq(t: Config): (r: seq<string>)
    ensures |r| == |t.nodes|
  {
    seq(|t.nodes|, i requires 0 <= i < |t.nodes| => t.nodes[i].nodeId)
  }

  /** What the input must satisfy, whatever the routes are. */
  ghost predicate WellFormed(t: Config, agents: seq<string>) {
    && !IsBlank(t.hardwareBoundary)
    && Distinct(NodeIdSeq(t)) && t.gcsNodeId in NodeIds(t) && LinksKnown(t)
    && (forall a :: a in agents ==> AgentNode(t.nodes, a).Some?)
    && DependenciesKnown(t, agents) && Acyclic(GraphOf(t.dependencies))
  }

  ghost predicate HasCentralRoute(t: Config, routes: seq<Route>, a: string) {
    exists k :: 0 <= k < |routes| && routes[k].to == a && routes[k].from == t.gcsNodeId
  }

  ghost predicate Accepted(t: Config, agents: seq<string>, routes: seq<Route>) {
    && WellFormed(t, agents)
    && (forall a :: a in agents ==> HasCentralRoute(t, routes, a))
    && (forall k :: 0 <= k < |routes| ==> RouteJustified(t, routes[k]))
  }

  /** Node `k` is the first whose id an earlier node has. */
  ghost predicate FirstRepeat(t: Config, k: nat) {
    && k < |t.nodes| && (exists i :: 0 <= i < k && t.nodes[i].nodeId == t.nodes[k].nodeId)
    && forall i, j :: 0 <= i < j < k ==> t.nodes[i].nodeId != t.nodes[j].nodeId
  }

  ghost predicate RepeatError(t: Config, e: Error) {
    exists k: nat :: FirstRepeat(t, k) && e == DuplicateTopologyNode(t.nodes[k].nodeId)
  }

  method CheckNodes(t: Config) returns (r: Result<Error>)
    ensures r.Ok? <==> Distinct(NodeIdSeq(t))
    ensures r.Err? ==> RepeatError(t, r.error)
  {
    var seen: set<string> := {};
    assert forall i :: 0 <= i < |t.nodes| ==> NodeIdSeq(t)[i] == t.nodes[i].nodeId;
    for k := 0 to |t.nodes|
      invariant seen == set i | 0 <= i < k :: t.nodes[i].nodeId
      invariant forall i, j :: 0 <= i < j < k ==> t.nodes[i].nodeId != t.nodes[j].nodeId
    {
      var id := t.nodes[k].nodeId;
      if id in seen {
        assert FirstRepeat(t, k);
        return Err(DuplicateTopologyNode(id));
      }
      seen := seen + {id};
    }
    r := Ok;
  }

  predicate LinkKnown(t: Config, l: Link) {
    l.from in NodeIds(t) && l.to in NodeIds(t)
  }

  /** The first link with an end that is no node; its source is looked at before its target. */
  ghost predicate LinkError(t: Config, e: Error) {
    exists k :: 0 <= k < |t.links| && !LinkKnown(t, t.links[k])
                && (forall i :: 0 <= i < k ==> LinkKnown(t, t.links[i]))
                && e == UnknownTopologyLinkEndpoint(
                          if t.links[k].from !in NodeIds(t) then t.links[k].from else t.links[k].to)
  }

  method CheckLinks(t: Config, nodeIds: set<string>) returns (r: Result<Error>)
    requires nodeIds == NodeIds(t)
    ensures r.Ok? <==> LinksKnown(t)
    ensures r.Err? ==> LinkError(t, r.error)
  {
    for k := 0 to |t.links|
      invariant forall i :: 0 <= i < k ==> LinkKnown(t, t.links[i])
    {
      if t.links[k].from !in nodeIds {
        return Err(UnknownTopologyLinkEndpoint(t.links[k].from));
      }
      if t.links[k].to !in nodeIds {
        return Err(UnknownTopologyLinkEndpoint(t.links[k].to));
      }
    }
    r := Ok;
  }

  predicate IsCentral(t: Config, route: Route, a: string) {
    route.to == a && route.from == t.gcsNodeId
  }

  /** Route `k` is the first central one to `a`. */
  predicate FirstCentral(t: Config, routes: seq<Route>, a: string, k: nat) {
    && k < |routes| && IsCentral(t, routes[k], a)
    && forall j :: 0 <= j < k ==> !IsCentral(t, routes[j], a)
  }

  /** The agent has no node, no central route, or its first one is blocked without a reason. */
  ghost predicate AgentError(t: Config, routes: seq<Route>, a: string, e: Error) {
    if AgentNode(t.nodes, a).None? then e == MissingTopologyNode("agent:" + a)
    else if !HasCentralRoute(t, routes, a) then e == MissingCommandRoute(a)
    else
      exists k: nat :: FirstCentral(t, routes, a, k) && !routes[k].allowed && Unreasoned(routes[k].reason)
                       && e == BlockedRouteWithoutReason(routes[k].routeId)
  }

  /** The agent has a node, and its first central route is open or has a reason. */
  ghost predicate AgentServed(t: Config, routes: seq<Route>, a: string) {
    AgentNode(t.nodes, a).Some? &&
    exists k: nat :: FirstCentral(t, routes, a, k) && (routes[k].allowed || !Unreasoned(routes[k].reason))
  }

  method CheckAgent(t: Config, routes: seq<Route>, a: string) returns (r: Result<Error>)
    ensures r.Ok? ==> AgentServed(t, routes, a)
    ensures r.Err? ==> AgentError(t, routes, a, r.error)
  {
    if AgentNode(t.nodes, a).None? {
      return Err(MissingTopologyNode("agent:" + a));
    }
    for i := 0 to |routes|
      invariant forall j :: 0 <= j < i ==> !IsCentral(t, routes[j], a)
    {
      if routes[i].to == a && routes[i].from == t.gcsNodeId {
        assert FirstCentral(t, routes, a, i);
        if !routes[i].allowed && Unreasoned(routes[i].reason) {
          return Err(BlockedRouteWithoutReason(routes[i].routeId));
        }
        return Ok;
      }
    }
    r := Err(MissingCommandRoute(a));
  }

  ghost predicate AgentsError(t: Config, agents: seq<string>, routes: seq<Route>, e: Error) {
    exists i :: 0 <= i < |agents| && AgentError(t, routes, agents[i], e)
                && forall j :: 0 <= j < i ==> AgentServed(t, routes, agents[j])
  }

  method CheckAgents(t: Config, agents: seq<string>, routes: seq<Route>) returns (r: Result<Error>)
    ensures r.Ok? ==> forall i :: 0 <= i < |agents| ==> AgentServed(t, routes, agents[i])
    ensures r.Err? ==> AgentsError(t, agents, routes, r.error)
  {
    for k := 0 to |agents|
      invariant forall i :: 0 <= i < k ==> AgentServed(t, routes, agents[i])
    {
      r := CheckAgent(t, routes, agents[k]);
      if r.Err? {
        return;
      }
    }
    r := Ok;
  }

  /** An agent that is served has a central route; with justified routes the converse holds. */
  lemma ServedHasRoute(t: Config, routes: seq<Route>, a: string)
    requires AgentServed(t, routes, a)
    ensures HasCentralRoute(t, routes, a)
  {
    var k: nat :| FirstCentral(t, routes, a, k) && (routes[k].allowed || !Unreasoned(routes[k].reason));
    assert routes[k].to == a && routes[k].from == t.gcsNodeId;
  }

  lemma AgentErrorRefused(t: Config, agents: seq<string>, routes: seq<Route>, e: Error)
    requires AgentsError(t, agents, routes, e)
    ensures !Accepted(t, agents, routes)
  {
    var i :| 0 <= i < |agents| && AgentError(t, routes, agents[i], e);
    var a := agents[i];
    assert a in agents;
    if AgentNode(t.nodes, a).Some? && HasCentralRoute(t, routes, a) {
      var k: nat :| FirstCentral(t, routes, a, k) && !routes[k].allowed && Unreasoned(routes[k].reason);
      assert !RouteJustified(t, routes[k]);
    }
  }

  /** The first route that is not justified, and why. */
  ghost predicate RouteError(t: Config, routes: seq<Route>, e: Error) {
    exists k :: 0 <= k < |routes| && !RouteJustified(t, routes[k]) && ErrorExplained(t, routes[k], e)
                && forall i :: 0 <= i < k ==> RouteJustified(t, routes[i])
  }

  method CheckRoutes(t: Config, nodeIds: set<string>, routes: seq<Route>) returns (r: Result<Error>)
    requires nodeIds == NodeIds(t)
    ensures r.Ok? <==> forall k :: 0 <= k < |routes| ==> RouteJustified(t, routes[k])
    ensures r.Err? ==> RouteError(t, routes, r.error)
  {
    for k := 0 to |routes|
      invariant forall i :: 0 <= i < k ==> RouteJustified(t, routes[i])
    {
      r := ValidateCommandRoute(t, nodeIds, routes[k]);
      if r.Err? {
        return;
      }
    }
    r := Ok;
  }

  predicate DependencyKnown(agents: seq<string>, d: Dependency) {
    d.parent in agents && d.child in agents
  }

  /** The first dependency with an end that is no agent; the parent is looked at first. */
  ghost predicate DependencyError(t: Config, agents: seq<string>, e: Error) {
    exists k :: 0 <= k < |t.dependencies| && !DependencyKnown(agents, t.dependencies[k])
                && (forall i :: 0 <= i < k ==> DependencyKnown(agents, t.dependencies[i]))
                && e == UnknownMothershipDependencyAgent(
                          if t.dependencies[k].parent !in agents then t.dependencies[k].parent
                          else t.dependencies[k].child)
  }

  method CheckDependencies(t: Config, agents: seq<string>) returns (r: Result<Error>)
    ensures r.Ok? <==> DependenciesKnown(t, agents)
    ensures r.Err? ==> DependencyError(t, agents, r.error)
  {
    for k := 0 to |t.dependencies|
      invariant forall i :: 0 <= i < k ==> DependencyKnown(agents, t.dependencies[i])
    {
      if t.dependencies[k].parent !in agents {
        return Err(UnknownMothershipDependencyAgent(t.dependencies[k].parent));
      }
      if t.dependencies[k].child !in agents {
        return Err(UnknownMothershipDependencyAgent(t.dependencies[k].child));
      }
    }
    r := Ok;
  }

  /** The first thing that is wrong, in the order of the checks. */
  ghost predicate Refusal(t: Config, agents: seq<string>, routes: seq<Route>, e: Error) {
    if IsBlank(t.hardwareBoundary) then e == MissingTransportAssumption
    else if !Distinct(NodeIdSeq(t)) then RepeatError(t, e)
    else if t.gcsNodeId !in NodeIds(t) then e == MissingTopologyNode(t.gcsNodeId)
    else if !LinksKnown(t) then LinkError(t, e)
    else if !forall i :: 0 <= i < |agents| ==> AgentServed(t, routes, agents[i]) then AgentsError(t, agents, routes, e)
    else if !forall k :: 0 <= k < |routes| ==> RouteJustified(t, routes[k]) then RouteError(t, routes, e)
    else if !DependenciesKnown(t, agents) then DependencyError(t, agents, e)
    else e.MothershipDependencyCycle? && FirstOnWayToCycle(GraphOf(t.dependencies), e.agentId)
  }

  /** Everything before the agents is in order. */
  ghost predicate BasicsOk(t: Config) {
    && !IsBlank(t.hardwareBoundary)
    && Distinct(NodeIdSeq(t)) && t.gcsNodeId in NodeIds(t) && LinksKnown(t)
  }

  /** The checks of nodes and links. */
  method CheckBasics(t: Config, ghost agents: seq<string>, ghost routes: seq<Route>) returns (r: Result<Error>)
    ensures r.Ok? <==> BasicsOk(t)
    ensures r.Err? ==> Refusal(t, agents, routes, r.error)
  {
    if IsBlank(t.hardwareBoundary) {
      return Err(MissingTransportAssumption);
    }
    r := CheckNodes(t);
    if r.Err? {
      return;
    }
    if t.gcsNodeId !in NodeIds(t) {
      return Err(MissingTopologyNode(t.gcsNodeId));
    }
    r := CheckLinks(t, NodeIds(t));
  }

  /** Accepts exactly the well-formed topologies with a justified route per listed route and a
      central route per agent; a refusal names the first thing that is wrong. */
  method ValidateTopology(t: Config, agents: seq<string>, routes: seq<Route>) returns (r: Result<Error>)
    ensures r.Ok? <==> Accepted(t, agents, routes)
    ensures r.Err? ==> Refusal(t, agents, routes, r.error)
  {
    r := CheckBasics(t, agents, routes);
    if r.Err? {
      return;
    }
    r := CheckAgents(t, agents, routes);
    if r.Err? {
      AgentErrorRefused(t, agents, routes, r.error);
      AgentsErrorUnserved(t, agents, routes, r.error);
      return;
    }
    forall i | 0 <= i < |agents| ensures AgentNode(t.nodes, agents[i]).Some? && HasCentralRoute(t, routes, agents[i]) {
      ServedHasRoute(t, routes, agents[i]);
    }
    r := CheckRoutes(t, NodeIds(t), routes);
    if r.Err? {
      return;
    }
    r := CheckDependencies(t, agents);
    if r.Err? {
      return;
    }
    var cycle := HasMothershipCycle(t.dependencies);
    if cycle.Some? {
      return Err(MothershipDependencyCycle(cycle.value));
    }
    r := Ok;
  }

  lemma AgentsErrorUnserved(t: Config, agents: seq<string>, routes: seq<Route>, e: Error)
    requires AgentsError(t, agents, routes, e)
    ensures !forall i :: 0 <= i < |agents| ==> AgentServed(t, routes, agents[i])
  {
    var i :| 0 <= i < |agents| && AgentError(t, routes, agents[i], e);
    var a := agents[i];
    if AgentServed(t, routes, a) {
      ServedHasRoute(t, routes, a);
      assert false;
    }
  }

  lemma PlannedRouteShape(t: Config, agents: seq<string>, routes: seq<Route>, k: nat)
    requires PlannedRoutes(t, agents, routes) && WellFormed(t, agents) && k < |routes|
    ensures routes[k] == RouteFor(t, routes[k].from, routes[k].to)
    ensures routes[k].from in NodeIds(t) && AgentNode(t.nodes, routes[k].to).Some?
  {
    PeerRoutes.PlannedAreDue(t, agents, routes, k);
    if PeerRoutes.PeerDue(t, routes[k].from, routes[k].to) {
      var a, b :| PeerRoutes.IsPair(t, a, b) && a.nodeId == routes[k].from && b.agentId.value == routes[k].to;
    }
  }

  /** The self-check of a freshly built plan: the checker accepts what the planner produced
      exactly when the input is well formed and every planned route comes past the parent of
      its agent. By `ParentAlwaysOnTheWay` the second part is automatic in a mothership
      topology and without dependencies. */
  lemma PlannerAndCheckerAgree(t: Config, agents: seq<string>, routes: seq<Route>)
    requires PlannedRoutes(t, agents, routes)
    ensures Accepted(t, agents, routes) <==>
            WellFormed(t, agents) && forall k :: 0 <= k < |routes| ==> ParentOnTheWay(t, routes[k].from, routes[k].to)
  {
    if WellFormed(t, agents) {
      forall k | 0 <= k < |routes|
        ensures RouteJustified(t, routes[k]) <==> ParentOnTheWay(t, routes[k].from, routes[k].to)
      {
        PlannedRouteShape(t, agents, routes, k);
        PlannerRouteJustified(t, routes[k].from, routes[k].to);
      }
      forall a | a in agents ensures HasCentralRoute(t, routes, a) {
        var i :| 0 <= i < |agents| && agents[i] == a;
        assert routes[i].to == a && routes[i].from == t.gcsNodeId;
      }
    }
  }

  // ----- where they disagree -----

  /** A relay topology whose direct link skips the parent. */
  function Shortcut(): Config {
    Config(Relay, "g",
           [Node("g", None, true), Node("p", Some("a"), true), Node("c", Some("b"), true)],
           [Link("g", "c", true, None)],
           "logical", [Dependency("a", "b")])
  }

  lemma ShortcutNodes()
    ensures AgentNode(Shortcut().nodes, "b") == Some("c")
    ensures ParentNode(Shortcut(), "b") == Some("p")
    ensures "g" in AvailableNodes(Shortcut()) && "c" in AvailableNodes(Shortcut())
  {
    var nodes := Shortcut().nodes;
    assert nodes[0] in nodes && nodes[2] in nodes;
    var rest := nodes[1..];
    assert rest[0] == nodes[1] && rest[1..][0] == nodes[2];
    assert AgentNode(rest, "a") == Some("p");
    assert AgentNode(rest[1..], "b") == Some("c");
  }

  /** A direct link is the route. */
  lemma DirectIsLeast(t: Config, u: string, v: string)
    requires u != v && u in AvailableNodes(t) && v in AvailableNodes(t) && Hop(t, u, v)
    ensures LeastRoute(t, u, v) == Some([u, v])
  {
    var p := [u, v];
    assert IsRoute(t, p, u, v);
    forall q | IsRoute(t, q, u, v) ensures ShortLexEq(p, q) {
      if |q| == 2 {
        assert q == p;
      }
    }
    assert IsLeastRoute(t, p, u, v);
    forall q | IsLeastRoute(t, q, u, v) ensures q == p {
      LeastRouteUnique(t, p, q, u, v);
    }
  }

  lemma ShortcutLeast()
    ensures LeastRoute(Shortcut(), "g", "c") == Some(["g", "c"])
  {
    var t := Shortcut();
    ShortcutNodes();
    assert t.links[0] in t.links && LinkUp(t.links[0], "g", "c");
    assert "g" != "c" by { assert "g"[0] != "c"[0]; }
    DirectIsLeast(t, "g", "c");
  }

  lemma ShortcutRoute()
    ensures var r := RouteFor(Shortcut(), "g", "b"); r.allowed && r.via == ["g", "c"]
  {
    ShortcutNodes();
    ShortcutLeast();
  }

  /** A planned route that is let through and misses the parent is refused by the checker. */
  lemma BypassRefused(t: Config, from: string, agent: string)
    requires var r := RouteFor(t, from, agent);
             r.allowed && ParentNode(t, agent).Some? && ParentNode(t, agent).value !in r.via
    ensures !RouteJustified(t, RouteFor(t, from, agent))
  {
    PlannerRouteJustified(t, from, agent);
  }

  /** The planner routes straight to the child and the checker refuses that very route: the
      parent check is not limited to mothership topologies. */
  lemma ShortcutRefused()
    ensures !RouteJustified(Shortcut(), RouteFor(Shortcut(), "g", "b"))
  {
    ShortcutNodes();
    ShortcutRoute();
    assert "p" !in ["g", "c"] by { assert "p"[0] != "g"[0] && "p"[0] != "c"[0]; }
    BypassRefused(Shortcut(), "g", "b");
  }
}
