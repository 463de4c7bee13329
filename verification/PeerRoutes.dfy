/** Which ordered pairs of agent nodes get a route in a peer-to-peer plan. */
module PeerRoutes {
  import opened Basics
  import opened Topology

  /** `a` and `b` are different nodes with agents, so a route from `a` to the agent of `b` is due. */
  predicate IsPair(t: Config, a: Node, b: Node) {
    a in t.nodes && b in t.nodes && CarriesAgent(a) && CarriesAgent(b) && a.nodeId != b.nodeId
  }

  ghost predicate PeerDue(t: Config, from: string, to: string) {
    exists a, b :: IsPair(t, a, b) && a.nodeId == from && b.agentId.value == to
  }

  /** A route from `from` to `to` is due: to a listed agent, or between a pair. */
  ghost predicate Due(t: Config, agents: seq<string>, from: string, to: string) {
    (from == t.gcsNodeId && to in agents) || PeerDue(t, from, to)
  }

  /** No two routes that are due share an id. */
  ghost predicate IdsSeparate(t: Config, agents: seq<string>) {
    forall from, to, from', to' {:trigger Due(t, agents, from, to), Due(t, agents, from', to')} ::
      Due(t, agents, from, to) && Due(t, agents, from', to') && RouteId(from, to) == RouteId(from', to') ==>
        from == from' && to == to'
  }

  ghost predicate AllPairsPlanned(t: Config, routes: seq<Route>) {
    forall a, b :: IsPair(t, a, b) ==> RouteFor(t, a.nodeId, b.agentId.value) in routes
  }

  lemma SameSourceSameId(from: string, to: string, to': string)
    requires RouteId(from, to) == RouteId(from, to')
    ensures to == to'
  {
    var head := "route:" + from + ":";
    assert RouteId(from, to)[|head|..] == to && RouteId(from, to')[|head|..] == to';
  }

  /** Every planned route is the one due for its end points. */
  lemma PlannedAreDue(t: Config, agents: seq<string>, routes: seq<Route>, k: nat)
    requires PlannedRoutes(t, agents, routes) && k < |routes|
    ensures Due(t, agents, routes[k].from, routes[k].to) && routes[k] == RouteFor(t, routes[k].from, routes[k].to)
  {
    if k < |agents| {
      RouteForKeys(t, t.gcsNodeId, agents[k]);
    } else {
      assert PeerRoute(t, routes[k]);
      var a, b :| a in t.nodes && b in t.nodes && CarriesAgent(a) && CarriesAgent(b)
               && a.nodeId != b.nodeId && routes[k] == RouteFor(t, a.nodeId, b.agentId.value);
      RouteForKeys(t, a.nodeId, b.agentId.value);
      assert IsPair(t, a, b);
    }
  }

  lemma SeparatePairPlanned(t: Config, agents: seq<string>, routes: seq<Route>, a: Node, b: Node)
    requires PlannedRoutes(t, agents, routes) && t.kind.P2pLogical? && IdsSeparate(t, agents) && IsPair(t, a, b)
    ensures RouteFor(t, a.nodeId, b.agentId.value) in routes
  {
    assert PairIdTaken(routes, a, b);
    var k :| 0 <= k < |routes| && routes[k].routeId == RouteId(a.nodeId, b.agentId.value);
    PlannedAreDue(t, agents, routes, k);
    RouteForKeys(t, routes[k].from, routes[k].to);
    assert PeerDue(t, a.nodeId, b.agentId.value) && Due(t, agents, a.nodeId, b.agentId.value);
  }

  lemma DueIsPlanned(t: Config, agents: seq<string>, routes: seq<Route>, from: string, to: string) returns (k: nat)
    requires PlannedRoutes(t, agents, routes) && AllPairsPlanned(t, routes) && Due(t, agents, from, to)
    ensures k < |routes| && routes[k] == RouteFor(t, from, to)
  {
    if from == t.gcsNodeId && to in agents {
      k :| 0 <= k < |agents| && agents[k] == to;
    } else {
      var a, b :| IsPair(t, a, b) && a.nodeId == from && b.agentId.value == to;
      k :| 0 <= k < |routes| && routes[k] == RouteFor(t, from, to);
    }
  }

  lemma FreshIdsUnique(routes: seq<Route>, from: nat, j: nat, k: nat)
    requires FreshIds(routes, from) && j < |routes| && k < |routes| && routes[j].routeId == routes[k].routeId
    requires from <= j || from <= k
    ensures j == k
  {
  }

  /** Two planned routes with the same id have the same end points. */
  lemma SharedIdSameRoute(t: Config, agents: seq<string>, routes: seq<Route>, j: nat, k: nat)
    requires PlannedRoutes(t, agents, routes) && j < |routes| && k < |routes| && routes[j].routeId == routes[k].routeId
    ensures routes[j].from == routes[k].from && routes[j].to == routes[k].to
  {
    if j < |agents| && k < |agents| {
      RouteForKeys(t, t.gcsNodeId, agents[j]);
      RouteForKeys(t, t.gcsNodeId, agents[k]);
      SameSourceSameId(t.gcsNodeId, agents[j], agents[k]);
    } else {
      FreshIdsUnique(routes, |agents|, j, k);
    }
  }

  lemma PlannedIdsSeparate(t: Config, agents: seq<string>, routes: seq<Route>)
    requires PlannedRoutes(t, agents, routes) && AllPairsPlanned(t, routes)
    ensures IdsSeparate(t, agents)
  {
    forall from, to, from', to'
      | Due(t, agents, from, to) && Due(t, agents, from', to') && RouteId(from, to) == RouteId(from', to')
      ensures from == from' && to == to'
    {
      var j := DueIsPlanned(t, agents, routes, from, to);
      var k := DueIsPlanned(t, agents, routes, from', to');
      RouteForKeys(t, from, to);
      RouteForKeys(t, from', to');
      SharedIdSameRoute(t, agents, routes, j, k);
    }
  }

  /** Every ordered pair of agent nodes has its route in the plan exactly when no two routes
      that are due share an id; a pair whose id is taken by another route is passed over. */
  lemma AllPairsExactly(t: Config, agents: seq<string>, routes: seq<Route>)
    requires PlannedRoutes(t, agents, routes) && t.kind.P2pLogical?
    ensures AllPairsPlanned(t, routes) <==> IdsSeparate(t, agents)
  {
    if IdsSeparate(t, agents) {
      forall a, b | IsPair(t, a, b) ensures RouteFor(t, a.nodeId, b.agentId.value) in routes {
        SeparatePairPlanned(t, agents, routes, a, b);
      }
    }
    if AllPairsPlanned(t, routes) {
      PlannedIdsSeparate(t, agents, routes);
    }
  }

  predicate NoColon(agent: string) {
    ':' !in agent
  }

  lemma NoColonSameEnds(from: string, to: string, from': string, to': string)
    requires NoColon(to) && NoColon(to') && RouteId(from, to) == RouteId(from', to')
    ensures from == from' && to == to'
  {
    LastSeparator("route:" + from, "route:" + from', to, to', ':');
    assert ("route:" + from)[6..] == from && ("route:" + from')[6..] == from';
  }

  /** Agent names without a colon suffice, whatever the node names are. */
  lemma NoColonSeparates(t: Config, agents: seq<string>)
    requires forall a :: a in agents ==> NoColon(a)
    requires forall n :: n in t.nodes && CarriesAgent(n) ==> NoColon(n.agentId.value)
    ensures IdsSeparate(t, agents)
  {
    forall from, to, from', to'
      | Due(t, agents, from, to) && Due(t, agents, from', to') && RouteId(from, to) == RouteId(from', to')
      ensures from == from' && to == to'
    {
      NoColonSameEnds(from, to, from', to');
    }
  }

  /** Two nodes whose mutual routes share an id. */
  const LEFT := Node("a", Some("c"), true)
  const RIGHT := Node("a:b", Some("b:c"), true)

  lemma ColonsCollide()
    ensures RouteId(LEFT.nodeId, RIGHT.agentId.value) == RouteId(RIGHT.nodeId, LEFT.agentId.value)
    ensures LEFT.nodeId != RIGHT.nodeId
  {
    assert |LEFT.nodeId| == 1 && |RIGHT.nodeId| == 3;
  }

  /** In a peer-to-peer topology with these two nodes the plan lacks one of their routes. */
  lemma PairPassedOver(t: Config, agents: seq<string>, routes: seq<Route>)
    requires PlannedRoutes(t, agents, routes) && t.kind.P2pLogical? && t.nodes == [LEFT, RIGHT]
    ensures !AllPairsPlanned(t, routes)
  {
    ColonsCollide();
    assert t.nodes[0] in t.nodes && t.nodes[1] in t.nodes;
    assert IsPair(t, LEFT, RIGHT) && IsPair(t, RIGHT, LEFT);
    assert Due(t, agents, LEFT.nodeId, RIGHT.agentId.value) && Due(t, agents, RIGHT.nodeId, LEFT.agentId.value);
    AllPairsExactly(t, agents, routes);
  }
}
