/** Command-plane topologies and the routes computed over them. */
module Topology {
  import opened Basics
  import opened Graphs
  import BreadthFirst

  datatype TopologyKind = CentralizedGcs | P2pLogical | Mothership | Relay | Mesh

  datatype Node = Node(nodeId: string, agentId: Option<string>, available: bool)

  /** A directed link; its delay and label play no part in routing. */
  datatype Link = Link(from: string, to: string, available: bool, dropRate: Option<real>)

  datatype Dependency = Dependency(parent: string, child: string)

  datatype Config = Config(kind: TopologyKind, gcsNodeId: string, nodes: seq<Node>, links: seq<Link>,
                           hardwareBoundary: string, dependencies: seq<Dependency>)

  /** Why a route is as it is: one of the planner's own reasons, or any text; `ReasonText` spells
      them out. */
  datatype Reason = NoTargetNode | Planned(kind: TopologyKind) | Blocked(kind: TopologyKind) | Stated(text: string)

  datatype Route = Route(routeId: string, from: string, to: string, via: Path,
                         allowed: bool, degraded: bool, reason: Reason)

  // ----- lookups -----

  /** The first node that carries `agent`. */
  function AgentNode(nodes: seq<Node>, agent: string): (r: Option<string>)
    ensures r.None? <==> forall n :: n in nodes ==> n.agentId != Some(agent)
    ensures r.Some? ==> exists n :: n in nodes && n.agentId == Some(agent) && n.nodeId == r.value
  {
    if nodes == [] then None
    else if nodes[0].agentId == Some(agent) then Some(nodes[0].nodeId)
    else
      var rest := AgentNode(nodes[1..], agent);
      assert forall n :: n in nodes <==> n == nodes[0] || n in nodes[1..];
      rest
  }

  /** The first dependency that has `agent` as its child. */
  function ParentAgent(dependencies: seq<Dependency>, agent: string): (r: Option<string>)
    ensures r.None? <==> forall d :: d in dependencies ==> d.child != agent
    ensures r.Some? ==> Dependency(r.value, agent) in dependencies
  {
    if dependencies == [] then None
    else if dependencies[0].child == agent then Some(dependencies[0].parent)
    else
      var rest := ParentAgent(dependencies[1..], agent);
      assert forall d :: d in dependencies <==> d == dependencies[0] || d in dependencies[1..];
      rest
  }

  function ParentNode(t: Config, agent: string): Option<string> {
    match ParentAgent(t.dependencies, agent)
    case None => None
    case Some(parent) => AgentNode(t.nodes, parent)
  }

  /** Lookups find the first entry that fits. */
  lemma {:induction false} AgentNodeIsFirst(nodes: seq<Node>, agent: string, k: nat)
    requires k < |nodes| && nodes[k].agentId == Some(agent)
    requires forall j :: 0 <= j < k ==> nodes[j].agentId != Some(agent)
    ensures AgentNode(nodes, agent) == Some(nodes[k].nodeId)
  {
    if k > 0 {
      AgentNodeIsFirst(nodes[1..], agent, k - 1);
    }
  }

  lemma {:induction false} ParentAgentIsFirst(dependencies: seq<Dependency>, agent: string, k: nat)
    requires k < |dependencies| && dependencies[k].child == agent
    requires forall j :: 0 <= j < k ==> dependencies[j].child != agent
    ensures ParentAgent(dependencies, agent) == Some(dependencies[k].parent)
  {
    if k > 0 {
      ParentAgentIsFirst(dependencies[1..], agent, k - 1);
    }
  }

  predicate LinkUp(l: Link, u: string, v: string) {
    l.available && l.from == u && l.to == v
  }

  predicate AvailableLinkExists(t: Config, u: string, v: string) {
    exists l :: l in t.links && LinkUp(l, u, v)
  }

  function NodeIds(t: Config): set<string> {
    set n | n in t.nodes :: n.nodeId
  }

  function AvailableNodes(t: Config): set<string> {
    set n | n in t.nodes && n.available :: n.nodeId
  }

  // ----- what a route is -----

  /** One hop: both ends are up and some available link joins them. */
  predicate Hop(t: Config, u: string, v: string) {
    u in AvailableNodes(t) && v in AvailableNodes(t) && AvailableLinkExists(t, u, v)
  }

  ghost predicate IsRoute(t: Config, p: Path, src: string, dst: string) {
    && |p| > 0 && p[0] == src && p[|p| - 1] == dst
    && (forall i :: 0 <= i < |p| ==> p[i] in AvailableNodes(t))
    && (forall i :: 0 <= i < |p| - 1 ==> Hop(t, p[i], p[i + 1]))
  }

  /** No route is shorter, and no equally short one is lexicographically smaller. */
  ghost predicate IsLeastRoute(t: Config, p: Path, src: string, dst: string) {
    IsRoute(t, p, src, dst) && forall q :: IsRoute(t, q, src, dst) ==> ShortLexEq(p, q)
  }

  ghost function LeastRoute(t: Config, src: string, dst: string): Option<Path> {
    if exists p :: IsLeastRoute(t, p, src, dst)
    then var p :| IsLeastRoute(t, p, src, dst); Some(p)
    else None
  }

  lemma LeastRouteUnique(t: Config, p: Path, q: Path, src: string, dst: string)
    requires IsLeastRoute(t, p, src, dst) && IsLeastRoute(t, q, src, dst)
    ensures p == q
  {
    if p != q {
      ShortLexAsymmetric(p, q);
    }
  }

  /** Only which nodes are up and which pairs are joined matters: the order of the link list,
      repeated links, and links or nodes that are down never change a route. */
  lemma RouteIgnoresPresentation(t: Config, t': Config, src: string, dst: string)
    requires AvailableNodes(t) == AvailableNodes(t')
    requires forall u, v :: u in AvailableNodes(t) && v in AvailableNodes(t) ==>
               (AvailableLinkExists(t, u, v) <==> AvailableLinkExists(t', u, v))
    ensures LeastRoute(t, src, dst) == LeastRoute(t', src, dst)
  {
    assert forall u, v :: Hop(t, u, v) <==> Hop(t', u, v);
    forall p ensures IsRoute(t, p, src, dst) <==> IsRoute(t', p, src, dst) {
    }
    forall p ensures IsLeastRoute(t, p, src, dst) <==> IsLeastRoute(t', p, src, dst) {
    }
    forall p, q | IsLeastRoute(t, p, src, dst) && IsLeastRoute(t', q, src, dst) ensures p == q {
      LeastRouteUnique(t, p, q, src, dst);
    }
  }

  lemma RouteConcat(t: Config, p: Path, q: Path, src: string, mid: string, dst: string)
    requires IsRoute(t, p, src, mid) && IsRoute(t, q, mid, dst)
    ensures IsRoute(t, p + q[1..], src, dst) && mid in p + q[1..]
  {
    var r := p + q[1..];
    forall i | 0 <= i < |r| - 1 ensures Hop(t, r[i], r[i + 1]) {
      if i < |p| - 1 {
        assert Hop(t, p[i], p[i + 1]);
      } else {
        var k := i - (|p| - 1);
        assert Hop(t, q[k], q[k + 1]);
      }
    }
    assert r[|p| - 1] == mid;
  }

  // ----- breadth-first search over the available part -----

  predicate HopIn(available: set<string>, links: seq<Link>, u: string, v: string) {
    u in available && v in available && exists l :: l in links && LinkUp(l, u, v)
  }

  /** Adjacency lists of the available part, each sorted and without repeats. */
  method BuildAdjacency(t: Config) returns (g: Graph)
    ensures BreadthFirst.SortedGraph(g)
    ensures forall u, v :: Edge(g, u, v) <==> Hop(t, u, v)
  {
    var available := AvailableNodes(t);
    var adjacency: Graph := map[];
    for k := 0 to |t.links|
      invariant forall u, v :: Edge(adjacency, u, v) <==> HopIn(available, t.links[..k], u, v)
    {
      var link := t.links[k];
      ghost var before := adjacency;
      assert t.links[..k + 1] == t.links[..k] + [link];
      if link.available && link.from in available && link.to in available {
        var list := if link.from in adjacency then adjacency[link.from] else [];
        adjacency := adjacency[link.from := list + [link.to]];
      }
      forall u, v ensures Edge(adjacency, u, v) <==> HopIn(available, t.links[..k + 1], u, v) {
        assert Edge(before, u, v) <==> HopIn(available, t.links[..k], u, v);
        assert LinkUp(link, u, v) ==> link in t.links[..k + 1];
      }
    }
    assert t.links[..|t.links|] == t.links;
    var raw := adjacency;
    adjacency := map u | u in raw :: Dedup(SortBy(raw[u], (x: string) => x));
    forall u, v ensures Edge(adjacency, u, v) <==> Hop(t, u, v) {
      if u in raw {
        SameElements(SortBy(raw[u], (x: string) => x), raw[u], v);
      }
      assert Edge(raw, u, v) <==> HopIn(available, t.links, u, v);
    }
    g := adjacency;
  }

  lemma PathIsRoute(t: Config, g: Graph, p: Path, src: string, dst: string)
    requires forall u, v :: Edge(g, u, v) <==> Hop(t, u, v)
    requires src in AvailableNodes(t)
    ensures IsPath(g, p, src, dst) <==> IsRoute(t, p, src, dst)
  {
    if IsPath(g, p, src, dst) {
      forall i | 0 <= i < |p| ensures p[i] in AvailableNodes(t) {
        if i > 0 {
          assert Edge(g, p[i - 1], p[i - 1 + 1]);
        }
      }
      assert forall i :: 0 <= i < |p| - 1 ==> Edge(g, p[i], p[i + 1]) ==> Hop(t, p[i], p[i + 1]);
    }
  }

  /** Search the available part of the topology. A path is returned exactly when a route
      exists, and it is the least route. */
  method BfsPath(t: Config, src: string, dst: string) returns (r: Option<Path>)
    ensures r.Some? ==> IsLeastRoute(t, r.value, src, dst)
    ensures r.None? ==> forall p :: !IsRoute(t, p, src, dst)
    ensures r == LeastRoute(t, src, dst)
  {
    if src !in AvailableNodes(t) || dst !in AvailableNodes(t) {
      return None;
    }
    var g := BuildAdjacency(t);
    r := BreadthFirst.FindPath(g, src, dst);
    forall p ensures IsPath(g, p, src, dst) <==> IsRoute(t, p, src, dst) {
      PathIsRoute(t, g, p, src, dst);
    }
    if r.Some? {
      var p := r.value;
      forall q | IsRoute(t, q, src, dst) ensures ShortLexEq(p, q) {
        assert IsPath(g, q, src, dst);
      }
      assert IsLeastRoute(t, p, src, dst);
      forall q | IsLeastRoute(t, q, src, dst) ensures p == q {
        LeastRouteUnique(t, p, q, src, dst);
      }
    }
  }

  // ----- routes to agents -----

  /** In a mothership topology the route to a dependent agent is the least route to its
      parent followed by the least route from there; everywhere else it is the least route. */
  ghost function PathForKind(t: Config, from: string, target: string, agent: string): Option<Path> {
    var parent := ParentNode(t, agent);
    if t.kind.Mothership? && parent.Some? && parent.value != target then
      var up, down := LeastRoute(t, from, parent.value), LeastRoute(t, parent.value, target);
      if up.Some? && down.Some? && |down.value| > 0 then Some(up.value + down.value[1..]) else None
    else LeastRoute(t, from, target)
  }

  /** No route leads there at all; where the way is by the parent, none leads to the parent or
      none on from there. */
  ghost predicate NoWay(t: Config, from: string, target: string, agent: string) {
    var parent := ParentNode(t, agent);
    if t.kind.Mothership? && parent.Some? && parent.value != target then
      (forall p :: !IsRoute(t, p, from, parent.value)) || (forall p :: !IsRoute(t, p, parent.value, target))
    else forall p :: !IsRoute(t, p, from, target)
  }

  method RoutePathForKind(t: Config, from: string, target: string, agent: string) returns (r: Option<Path>)
    ensures r == PathForKind(t, from, target, agent)
    ensures r.None? ==> NoWay(t, from, target, agent)
  {
    if t.kind == Mothership {
      var parent := ParentNode(t, agent);
      if parent.Some? {
        if parent.value != target {
          var up := BfsPath(t, from, parent.value);
          if up.None? {
            return None;
          }
          var down := BfsPath(t, parent.value, target);
          if down.None? {
            return None;
          }
          return Some(up.value + down.value[1..]);
        }
      }
    }
    r := BfsPath(t, from, target);
  }

  predicate LinkLossy(l: Link, u: string, v: string) {
    LinkUp(l, u, v) && l.dropRate.Some? && l.dropRate.value > 0.0
  }

  predicate PathDegraded(t: Config, p: Path) {
    exists i, l :: 0 <= i < |p| - 1 && l in t.links && LinkLossy(l, p[i], p[i + 1])
  }

  function RouteId(from: string, agent: string): string {
    "route:" + from + ":" + agent
  }

  function ReasonText(r: Reason): string {
    match r
    case NoTargetNode => "missing_agent_topology_node"
    case Stated(text) => text
    case Planned(kind) =>
      (match kind
       case CentralizedGcs => "centralized_gcs_route"
       case P2pLogical => "p2p_logical_route"
       case Mothership => "mothership_dependency_route"
       case Relay => "relay_route"
       case Mesh => "mesh_route")
    case Blocked(kind) =>
      (match kind
       case CentralizedGcs => "centralized_gcs_route_unavailable"
       case P2pLogical => "p2p_logical_link_missing"
       case Mothership => "mothership_dependency_route_unavailable"
       case Relay => "relay_unavailable_or_partitioned"
       case Mesh => "mesh_partition_or_blocked_link")
  }

  /** No reason is given. */
  predicate Unreasoned(r: Reason) {
    r.Stated? && IsBlank(r.text)
  }

  lemma UnreasonedIsBlank(r: Reason)
    ensures Unreasoned(r) <==> IsBlank(ReasonText(r))
  {
    if !r.Stated? {
      assert ReasonText(r)[0] in {'c', 'p', 'm', 'r'};
    }
  }

  /** The routing decision for a command from node `from` to `agent`. */
  ghost function RouteFor(t: Config, from: string, agent: string): Route {
    var target := AgentNode(t.nodes, agent);
    if target.None? then
      Route(RouteId(from, agent), from, agent, [], false, true, NoTargetNode)
    else
      match PathForKind(t, from, target.value, agent)
      case None => Route(RouteId(from, agent), from, agent, [], false, true, Blocked(t.kind))
      case Some(p) => Route(RouteId(from, agent), from, agent, p, true, PathDegraded(t, p), Planned(t.kind))
  }

  lemma RouteForKeys(t: Config, from: string, to: string)
    ensures var r := RouteFor(t, from, to); r.routeId == RouteId(from, to) && r.from == from && r.to == to
  {
  }

  method RouteBetween(t: Config, from: string, agent: string) returns (r: Route)
    ensures r == RouteFor(t, from, agent)
    ensures !r.allowed ==>
              AgentNode(t.nodes, agent).None? || NoWay(t, from, AgentNode(t.nodes, agent).value, agent)
  {
    var id := RouteId(from, agent);
    var target := AgentNode(t.nodes, agent);
    if target.None? {
      return Route(id, from, agent, [], false, true, NoTargetNode);
    }
    var path := RoutePathForKind(t, from, target.value, agent);
    if path.None? {
      return Route(id, from, agent, [], false, true, Blocked(t.kind));
    }
    var p := path.value;
    var degraded := exists i, l :: 0 <= i < |p| - 1 && l in t.links && LinkLossy(l, p[i], p[i + 1]);
    r := Route(id, from, agent, p, true, degraded, Planned(t.kind));
  }

  lemma LeastRouteIsLeast(t: Config, src: string, dst: string)
    ensures LeastRoute(t, src, dst).Some? ==> IsLeastRoute(t, LeastRoute(t, src, dst).value, src, dst)
  {
  }

  /** An allowed route really is a walk over available nodes and links from the source to the
      node of the agent; in a mothership topology it passes through the parent of the agent. */
  lemma AllowedRoutesAreRoutes(t: Config, from: string, agent: string)
    requires RouteFor(t, from, agent).allowed
    ensures AgentNode(t.nodes, agent).Some?
    ensures IsRoute(t, RouteFor(t, from, agent).via, from, AgentNode(t.nodes, agent).value)
    ensures t.kind.Mothership? && ParentNode(t, agent).Some? ==>
              ParentNode(t, agent).value in RouteFor(t, from, agent).via
  {
    var target := AgentNode(t.nodes, agent).value;
    var parent := ParentNode(t, agent);
    LeastRouteIsLeast(t, from, target);
    if t.kind.Mothership? && parent.Some? && parent.value != target {
      LeastRouteIsLeast(t, from, parent.value);
      LeastRouteIsLeast(t, parent.value, target);
      RouteConcat(t, LeastRoute(t, from, parent.value).value, LeastRoute(t, parent.value, target).value,
                  from, parent.value, target);
    }
  }

  // ----- planning all routes -----

  /** Carriers of agents, the end points of the peer-to-peer routes. */
  predicate CarriesAgent(n: Node) {
    n.agentId.Some?
  }

  /** `route` joins two different agent-carrying nodes. */
  ghost predicate PeerRoute(t: Config, route: Route) {
    exists a, b :: a in t.nodes && b in t.nodes && CarriesAgent(a) && CarriesAgent(b)
                && a.nodeId != b.nodeId && route == RouteFor(t, a.nodeId, b.agentId.value)
  }

  /** Some planned route has the id of the route from node `a` to the agent of node `b`. */
  ghost predicate PairIdTaken(routes: seq<Route>, a: Node, b: Node) {
    CarriesAgent(a) && CarriesAgent(b) && a.nodeId != b.nodeId ==>
      exists k :: 0 <= k < |routes| && routes[k].routeId == RouteId(a.nodeId, b.agentId.value)
  }

  ghost predicate PairIdsTaken(routes: seq<Route>, sources: seq<Node>, targets: seq<Node>) {
    forall a, b :: a in sources && b in targets ==> PairIdTaken(routes, a, b)
  }

  ghost predicate OnlyPeerRoutes(t: Config, routes: seq<Route>, from: nat) {
    forall k :: from <= k < |routes| ==> PeerRoute(t, routes[k])
  }

  /** From index `from` on every route has an id that no earlier route has. */
  predicate FreshIds(routes: seq<Route>, from: nat) {
    forall j, k :: 0 <= j < k < |routes| && from <= k ==> routes[j].routeId != routes[k].routeId
  }

  /** What the planner promises: one route from the ground station per agent, in order, and in
      a peer-to-peer topology routes between agent nodes, so that the id of every ordered pair
      is taken and no id is added twice. */
  ghost predicate PlannedRoutes(t: Config, agents: seq<string>, routes: seq<Route>) {
    && |agents| <= |routes|
    && (forall i :: 0 <= i < |agents| ==> routes[i] == RouteFor(t, t.gcsNodeId, agents[i]))
    && OnlyPeerRoutes(t, routes, |agents|) && FreshIds(routes, |agents|)
    && (|routes| > |agents| ==> t.kind.P2pLogical?)
    && (t.kind.P2pLogical? ==> PairIdsTaken(routes, t.nodes, t.nodes))
  }

  /** Every planned route is the routing decision for its own end points. */
  lemma PlannedAreDecisions(t: Config, agents: seq<string>, routes: seq<Route>, k: nat)
    requires PlannedRoutes(t, agents, routes) && k < |routes|
    ensures routes[k] == RouteFor(t, routes[k].from, routes[k].to)
  {
    if k >= |agents| {
      assert PeerRoute(t, routes[k]);
    }
  }

  /** An available link from one node of the route to the next drops messages. */
  ghost predicate Lossy(t: Config, via: Path, i: int, l: Link) {
    && 0 <= i < |via| - 1 && l in t.links && l.available && l.from == via[i] && l.to == via[i + 1]
    && l.dropRate.Some? && l.dropRate.value > 0.0
  }

  /** Of the planned routes, an allowed one is marked degraded exactly when some available link
      along it has a positive drop rate; a route that is not allowed is degraded and leads
      nowhere. */
  lemma DegradedExactly(t: Config, agents: seq<string>, routes: seq<Route>, k: nat)
    requires PlannedRoutes(t, agents, routes) && k < |routes|
    ensures routes[k].allowed ==> (routes[k].degraded <==> exists i, l :: Lossy(t, routes[k].via, i, l))
    ensures !routes[k].allowed ==> routes[k].degraded && routes[k].via == []
  {
    PlannedAreDecisions(t, agents, routes, k);
    var p := routes[k].via;
    if i, l :| 0 <= i < |p| - 1 && l in t.links && LinkLossy(l, p[i], p[i + 1]) {
      assert Lossy(t, p, i, l);
    }
    if i, l :| Lossy(t, p, i, l) {
      assert LinkLossy(l, p[i], p[i + 1]);
    }
  }

  function AgentNodes(nodes: seq<Node>): (r: seq<Node>)
    ensures forall n :: n in r <==> n in nodes && CarriesAgent(n)
  {
    if nodes == [] then []
    else
      var rest := AgentNodes(nodes[1..]);
      assert forall n :: n in nodes <==> n == nodes[0] || n in nodes[1..];
      if CarriesAgent(nodes[0]) then [nodes[0]] + rest else rest
  }

  lemma PairIdGrows(routes: seq<Route>, more: seq<Route>, a: Node, b: Node)
    requires PairIdTaken(routes, a, b) && routes <= more
    ensures PairIdTaken(more, a, b)
  {
    if CarriesAgent(a) && CarriesAgent(b) && a.nodeId != b.nodeId {
      var k :| 0 <= k < |routes| && routes[k].routeId == RouteId(a.nodeId, b.agentId.value);
      assert more[k] == routes[k];
    }
  }

  lemma PairIdsGrow(routes: seq<Route>, more: seq<Route>, sources: seq<Node>, a: Node, targets: seq<Node>)
    requires PairIdsTaken(routes, sources, targets) && routes <= more
    requires PairIdsTaken(more, [a], targets)
    ensures PairIdsTaken(more, sources + [a], targets)
  {
    forall x, b | x in sources + [a] && b in targets ensures PairIdTaken(more, x, b) {
      if x in sources {
        PairIdGrows(routes, more, x, b);
      } else {
        assert x in [a];
      }
    }
  }

  lemma AppendPeerRoute(t: Config, routes: seq<Route>, from: nat, route: Route)
    requires OnlyPeerRoutes(t, routes, from) && PeerRoute(t, route)
    ensures OnlyPeerRoutes(t, routes + [route], from)
  {
  }

  /** No route has this id. */
  predicate IdFree(routes: seq<Route>, id: string) {
    forall k :: 0 <= k < |routes| ==> routes[k].routeId != id
  }

  lemma AppendFreshId(routes: seq<Route>, from: nat, route: Route)
    requires FreshIds(routes, from) && IdFree(routes, route.routeId)
    ensures FreshIds(routes + [route], from)
  {
  }

  lemma TakenId(routes: seq<Route>, a: Node, b: Node)
    requires b.agentId.Some? && !IdFree(routes, RouteId(a.nodeId, b.agentId.value))
    ensures PairIdTaken(routes, a, b)
  {
  }

  lemma AppendedIdTaken(routes: seq<Route>, a: Node, b: Node, route: Route)
    requires b.agentId.Some? && route.routeId == RouteId(a.nodeId, b.agentId.value)
    ensures PairIdTaken(routes + [route], a, b)
  {
    assert (routes + [route])[|routes|].routeId == RouteId(a.nodeId, b.agentId.value);
  }

  /** Add the route from `source` to the agent of `target` unless its id is already taken. */
  method AddPeerRoute(t: Config, source: Node, target: Node, routes: seq<Route>, ghost from: nat)
    returns (r: seq<Route>)
    requires source in t.nodes && CarriesAgent(source) && target in t.nodes && CarriesAgent(target)
    requires OnlyPeerRoutes(t, routes, from) && FreshIds(routes, from) && from <= |routes|
    ensures routes <= r && OnlyPeerRoutes(t, r, from) && FreshIds(r, from)
    ensures PairIdTaken(r, source, target)
  {
    r := routes;
    if source.nodeId == target.nodeId {
      return;
    }
    var route := RouteBetween(t, source.nodeId, target.agentId.value);
    RouteForKeys(t, source.nodeId, target.agentId.value);
    if IdFree(r, route.routeId) {
      assert PeerRoute(t, route);
      AppendPeerRoute(t, r, from, route);
      AppendFreshId(r, from, route);
      AppendedIdTaken(r, source, target, route);
      r := r + [route];
    } else {
      TakenId(r, source, target);
    }
  }

  /** The peer-to-peer routes of one source node to all the nodes in `targets`. */
  method AddPeerRoutes(t: Config, source: Node, targets: seq<Node>, routes: seq<Route>, ghost from: nat)
    returns (r: seq<Route>)
    requires source in t.nodes && CarriesAgent(source)
    requires OnlyPeerRoutes(t, routes, from) && FreshIds(routes, from) && from <= |routes|
    requires forall i :: 0 <= i < |targets| ==> targets[i] in t.nodes && CarriesAgent(targets[i])
    ensures routes <= r && OnlyPeerRoutes(t, r, from) && FreshIds(r, from)
    ensures PairIdsTaken(r, [source], targets)
  {
    r := routes;
    assert PairIdsTaken(r, [source], targets[..0]);
    for k := 0 to |targets|
      invariant routes <= r && OnlyPeerRoutes(t, r, from) && FreshIds(r, from)
      invariant PairIdsTaken(r, [source], targets[..k])
    {
      ghost var before := r;
      r := AddPeerRoute(t, source, targets[k], r, from);
      assert targets[..k + 1] == targets[..k] + [targets[k]];
      forall a, b | a in [source] && b in targets[..k + 1] ensures PairIdTaken(r, a, b) {
        if b in targets[..k] {
          PairIdGrows(before, r, a, b);
        }
      }
    }
    assert targets[..|targets|] == targets;
  }

  /** The peer-to-peer part of the plan, appended to the routes already there. */
  method AddAllPeerRoutes(t: Config, routes: seq<Route>) returns (r: seq<Route>)
    ensures routes <= r && OnlyPeerRoutes(t, r, |routes|) && FreshIds(r, |routes|)
    ensures PairIdsTaken(r, t.nodes, t.nodes)
  {
    var carriers := AgentNodes(t.nodes);
    var peers := SortBy(carriers, (n: Node) => n.nodeId);
    forall n ensures n in peers <==> n in t.nodes && CarriesAgent(n) {
      SameElements(peers, carriers, n);
    }
    r := routes;
    for k := 0 to |peers|
      invariant routes <= r && OnlyPeerRoutes(t, r, |routes|) && FreshIds(r, |routes|)
      invariant PairIdsTaken(r, peers[..k], peers)
    {
      ghost var before := r;
      assert peers[k] in peers;
      r := AddPeerRoutes(t, peers[k], peers, r, |routes|);
      assert peers[..k + 1] == peers[..k] + [peers[k]];
      PairIdsGrow(before, r, peers[..k], peers[k], peers);
    }
    assert peers[..|peers|] == peers;
    forall a, b | a in t.nodes && b in t.nodes ensures PairIdTaken(r, a, b) {
      assert CarriesAgent(a) && CarriesAgent(b) ==> a in peers && b in peers;
    }
  }

  method RouteCommandPlan(t: Config, agents: seq<string>) returns (routes: seq<Route>)
    ensures PlannedRoutes(t, agents, routes)
  {
    routes := [];
    for k := 0 to |agents|
      invariant |routes| == k
      invariant forall i :: 0 <= i < k ==> routes[i] == RouteFor(t, t.gcsNodeId, agents[i])
    {
      var route := RouteBetween(t, t.gcsNodeId, agents[k]);
      routes := routes + [route];
    }
    if t.kind == P2pLogical {
      ghost var central := routes;
      routes := AddAllPeerRoutes(t, routes);
      assert forall i :: 0 <= i < |agents| ==> routes[i] == central[i];
    }
  }
}
