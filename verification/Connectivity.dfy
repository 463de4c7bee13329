/** Range-based mesh connectivity and the two breadth-first searches over it. */
module Connectivity {
  import opened Basics
  import opened Fleet
  import opened Graphs
  import opened HopSearch
  import opened HopScan

  datatype Range = Infinite | Finite(metres: real)

  datatype Health = Alive | Degraded | Dead

  datatype Radio = Radio(id: string, pose: Pose, range: Range)

  datatype Snapshot = Snapshot(agents: seq<(Radio, Health)>, ground: seq<Radio>, baseId: string, basePose: Pose,
                               distance: Distance)

  /** In range of each other: the smaller range decides, and two infinite ranges always reach. */
  predicate DirectLink(d: Distance, a: Radio, b: Radio) {
    match (a.range, b.range)
    case (Infinite, Infinite) => true
    case (Infinite, Finite(r)) => d(a.pose, b.pose) <= r
    case (Finite(r), Infinite) => d(a.pose, b.pose) <= r
    case (Finite(r), Finite(q)) => d(a.pose, b.pose) <= if r <= q then r else q
  }

  function AliveRadios(agents: seq<(Radio, Health)>): seq<Radio> {
    if agents == [] then []
    else
      var rest, last := AliveRadios(agents[..|agents| - 1]), agents[|agents| - 1];
      if last.1.Alive? then rest + [last.0] else rest
  }

  /** The base station, the agents that are alive and the ground nodes. */
  function Radios(s: Snapshot): seq<Radio> {
    [Radio(s.baseId, s.basePose, Infinite)] + AliveRadios(s.agents) + s.ground
  }

  /** Some pair of radios with these ids is in range; the pair is taken in list order. */
  predicate LinkedPair(s: Snapshot, i: int, j: int, u: string, v: string) {
    var radios := Radios(s);
    && 0 <= i < j < |radios| && DirectLink(s.distance, radios[i], radios[j])
    && ((radios[i].id == u && radios[j].id == v) || (radios[i].id == v && radios[j].id == u))
  }

  ghost predicate Linked(s: Snapshot, u: string, v: string) {
    exists i, j :: LinkedPair(s, i, j, u, v)
  }

  lemma LinkedSymmetric(s: Snapshot, u: string, v: string)
    ensures Linked(s, u, v) <==> Linked(s, v, u)
  {
    if Linked(s, u, v) {
      var i, j :| LinkedPair(s, i, j, u, v);
      assert LinkedPair(s, i, j, v, u);
    }
    if Linked(s, v, u) {
      var i, j :| LinkedPair(s, i, j, v, u);
      assert LinkedPair(s, i, j, u, v);
    }
  }

  // ----- who is linked -----

  /** The radio is the base station's, an alive agent's or a ground node's. */
  predicate OnAir(s: Snapshot, r: Radio) {
    r == Radio(s.baseId, s.basePose, Infinite) || (r, Alive) in s.agents || r in s.ground
  }

  predicate Covers(range: Range, metres: real) {
    range.Finite? ==> metres <= range.metres
  }

  /** Both radios are on the air and each is in the other's range. */
  ghost predicate HearEachOther(s: Snapshot, a: Radio, b: Radio) {
    var far := s.distance(a.pose, b.pose);
    OnAir(s, a) && OnAir(s, b) && Covers(a.range, far) && Covers(b.range, far)
  }

  lemma {:induction false} AliveMember(agents: seq<(Radio, Health)>, r: Radio)
    ensures r in AliveRadios(agents) <==> (r, Alive) in agents
  {
    if agents != [] {
      AliveMember(agents[..|agents| - 1], r);
      assert agents == agents[..|agents| - 1] + [agents[|agents| - 1]];
    }
  }

  lemma RadioMember(s: Snapshot, r: Radio)
    ensures r in Radios(s) <==> OnAir(s, r)
  {
    AliveMember(s.agents, r);
  }

  /** Two names are linked exactly when radios of these names hear each other. */
  lemma LinkedExactly(s: Snapshot, u: string, v: string)
    requires u != v && forall p, q :: s.distance(p, q) == s.distance(q, p)
    ensures Linked(s, u, v) <==> exists a: Radio, b: Radio :: a.id == u && b.id == v && HearEachOther(s, a, b)
  {
    var radios := Radios(s);
    if i, j :| LinkedPair(s, i, j, u, v) {
      var turned := radios[i].id != u;
      var a, b := radios[if turned then j else i], radios[if turned then i else j];
      RadioMember(s, a);
      RadioMember(s, b);
      assert a.id == u && b.id == v && HearEachOther(s, a, b);
    }
    if a: Radio, b: Radio :| a.id == u && b.id == v && HearEachOther(s, a, b) {
      RadioMember(s, a);
      RadioMember(s, b);
      var i :| 0 <= i < |radios| && radios[i] == a;
      var j :| 0 <= j < |radios| && radios[j] == b;
      assert if i < j then LinkedPair(s, i, j, u, v) else LinkedPair(s, j, i, u, v);
    }
  }

  // ----- adjacency -----

  function AddEdge(g: Graph, u: string, v: string): Graph {
    g[u := (if u in g then g[u] else []) + [v]]
  }

  lemma AddEdgeAdds(g: Graph, u: string, v: string, x: string, y: string)
    ensures Edge(AddEdge(g, u, v), x, y) <==> Edge(g, x, y) || (x == u && y == v)
  {
  }

  /** Pairs handled so far: all with a smaller first index, and those with first index `i` and
      second index below `j`. */
  ghost predicate LinkedBefore(s: Snapshot, i: int, j: int, u: string, v: string) {
    exists a, b :: LinkedPair(s, a, b, u, v) && (a < i || (a == i && b < j))
  }

  lemma LinkedBeforeStep(s: Snapshot, i: int, j: int, u: string, v: string)
    ensures LinkedBefore(s, i, j + 1, u, v) <==> LinkedBefore(s, i, j, u, v) || LinkedPair(s, i, j, u, v)
  {
    if LinkedBefore(s, i, j + 1, u, v) {
      var a, b :| LinkedPair(s, a, b, u, v) && (a < i || (a == i && b < j + 1));
    }
  }

  lemma LinkedBeforeNext(s: Snapshot, i: int, u: string, v: string)
    ensures LinkedBefore(s, i, |Radios(s)|, u, v) <==> LinkedBefore(s, i + 1, i + 2, u, v)
  {
    if LinkedBefore(s, i + 1, i + 2, u, v) {
      var a, b :| LinkedPair(s, a, b, u, v) && (a < i + 1 || (a == i + 1 && b < i + 2));
      assert a < i || (a == i && b < |Radios(s)|);
    }
  }

  /** One pair of the nested loops. */
  method AddPair(s: Snapshot, radios: seq<Radio>, i: nat, j: nat, before: Graph) returns (g: Graph)
    requires radios == Radios(s) && i < j < |radios|
    requires forall u, v :: Edge(before, u, v) <==> LinkedBefore(s, i, j, u, v)
    ensures forall u, v :: Edge(g, u, v) <==> LinkedBefore(s, i, j + 1, u, v)
  {
    var a, b := radios[i], radios[j];
    g := before;
    if DirectLink(s.distance, a, b) {
      g := AddEdge(AddEdge(before, a.id, b.id), b.id, a.id);
    }
    forall u, v ensures Edge(g, u, v) <==> LinkedBefore(s, i, j + 1, u, v) {
      LinkedBeforeStep(s, i, j, u, v);
      AddEdgeAdds(before, a.id, b.id, u, v);
      AddEdgeAdds(AddEdge(before, a.id, b.id), b.id, a.id, u, v);
    }
  }

  method BuildAdjacency(s: Snapshot) returns (g: Graph)
    ensures forall u, v :: Edge(g, u, v) <==> Linked(s, u, v)
  {
    var radios := Radios(s);
    g := map[];
    forall u, v ensures !LinkedBefore(s, 0, 1, u, v) {
    }
    for i := 0 to |radios|
      invariant forall u, v :: Edge(g, u, v) <==> LinkedBefore(s, i, i + 1, u, v)
    {
      for j := i + 1 to |radios|
        invariant forall u, v :: Edge(g, u, v) <==> LinkedBefore(s, i, j, u, v)
      {
        g := AddPair(s, radios, i, j, g);
      }
      forall u, v ensures Edge(g, u, v) <==> LinkedBefore(s, i + 1, i + 2, u, v) {
        LinkedBeforeNext(s, i, u, v);
      }
    }
    var n := |radios|;
    forall u, v ensures Edge(g, u, v) <==> Linked(s, u, v) {
      if Linked(s, u, v) {
        var a, b :| LinkedPair(s, a, b, u, v);
        assert LinkedBefore(s, n, n + 1, u, v);
      }
    }
  }

  // ----- hop counts -----

  /** Breadth-first hop count between two nodes of a graph. */
  method HopCount(g: Graph, from: string, to: string) returns (r: Option<nat>)
    ensures r.Some? ==> IsHopDistance(g, from, to, r.value)
    ensures r.None? ==> forall p :: !IsPath(g, p, from, to)
  {
    var queue := [Queued(from, 0)];
    var visited := {from};
    ghost var s, head, all := Search([from], map[from := 0]), 0, Targets(g) + {from};
    SearchStarts(g, from);
    while queue != []
      invariant Searching(g, from, queue, s, head, all) && visited == s.hops.Keys && to !in Expanded(s, head)
      decreases all - Expanded(s, head)
    {
      if queue[0].node == to {
        FrontKnown(g, from, queue, s, head, all);
        return Some(queue[0].hops);
      }
      queue, visited, s := ExpandVisited(g, from, queue, visited, s, head, all, to);
      head := head + 1;
    }
    NotFound(g, from, s, head, all, to);
    r := None;
  }

  /** Breadth-first hop counts from one node to all nodes it reaches. */
  method AllHopCounts(g: Graph, base: string) returns (visited: map<string, nat>)
    ensures forall v :: v in visited ==> IsHopDistance(g, base, v, visited[v])
    ensures forall v :: v !in visited ==> forall p :: !IsPath(g, p, base, v)
  {
    var queue := [Queued(base, 0)];
    visited := map[base := 0];
    ghost var s, head, all := Search([base], map[base := 0]), 0, Targets(g) + {base};
    SearchStarts(g, base);
    while queue != []
      invariant Searching(g, base, queue, s, head, all) && visited == s.hops
      decreases all - Expanded(s, head)
    {
      queue, visited, s := ExpandCounted(g, base, queue, visited, s, head, all);
      head := head + 1;
    }
    AllExhausted(g, base, s, head, all);
  }

  // ----- the mesh -----

  ghost predicate IsMeshPath(s: Snapshot, p: Path, u: string, v: string) {
    && |p| > 0 && p[0] == u && p[|p| - 1] == v
    && forall i :: 0 <= i < |p| - 1 ==> Linked(s, p[i], p[i + 1])
  }

  ghost predicate IsMeshDistance(s: Snapshot, u: string, v: string, n: nat) {
    && (exists p :: IsMeshPath(s, p, u, v) && |p| == n + 1)
    && (forall p :: IsMeshPath(s, p, u, v) ==> |p| >= n + 1)
  }

  /** Shortest number of hops in the mesh, `None` exactly when disconnected. */
  ghost function MeshDistance(s: Snapshot, u: string, v: string): Option<nat> {
    if exists n: nat :: IsMeshDistance(s, u, v, n) then var n: nat :| IsMeshDistance(s, u, v, n); Some(n) else None
  }

  lemma MeshDistanceIs(s: Snapshot, u: string, v: string, n: nat)
    requires IsMeshDistance(s, u, v, n)
    ensures MeshDistance(s, u, v) == Some(n)
  {
    forall m: nat | IsMeshDistance(s, u, v, m) ensures m == n {
    }
  }

  lemma NoMeshDistance(s: Snapshot, u: string, v: string)
    requires forall p :: !IsMeshPath(s, p, u, v)
    ensures MeshDistance(s, u, v) == None
  {
  }

  lemma MeshPaths(s: Snapshot, g: Graph, p: Path, u: string, v: string)
    requires forall x, y :: Edge(g, x, y) <==> Linked(s, x, y)
    ensures IsPath(g, p, u, v) <==> IsMeshPath(s, p, u, v)
  {
  }

  lemma MeshDistances(s: Snapshot, g: Graph, u: string, v: string)
    requires forall x, y :: Edge(g, x, y) <==> Linked(s, x, y)
    ensures forall n: nat :: IsHopDistance(g, u, v, n) <==> IsMeshDistance(s, u, v, n)
    ensures (forall p :: !IsPath(g, p, u, v)) <==> (forall p :: !IsMeshPath(s, p, u, v))
  {
    forall p ensures IsPath(g, p, u, v) <==> IsMeshPath(s, p, u, v) {
      MeshPaths(s, g, p, u, v);
    }
  }

  /** The hop count used for delivery: the exact mesh distance. */
  method HopCountBetween(s: Snapshot, from: string, to: string) returns (r: Option<nat>)
    ensures r == MeshDistance(s, from, to)
    ensures r.Some? ==> IsMeshDistance(s, from, to, r.value)
    ensures r.None? <==> forall p :: !IsMeshPath(s, p, from, to)
  {
    var g := BuildAdjacency(s);
    r := HopCount(g, from, to);
    MeshDistances(s, g, from, to);
    if r.Some? {
      MeshDistanceIs(s, from, to, r.value);
    } else {
      NoMeshDistance(s, from, to);
    }
  }

  /** Reachability from the base: exactly the nodes at a finite mesh distance, with it. */
  method ReachabilityFromBase(s: Snapshot) returns (r: map<string, nat>)
    ensures forall v :: v in r <==> MeshDistance(s, s.baseId, v).Some?
    ensures forall v :: v in r ==> MeshDistance(s, s.baseId, v) == Some(r[v])
  {
    var g := BuildAdjacency(s);
    r := AllHopCounts(g, s.baseId);
    forall v ensures v in r ==> MeshDistance(s, s.baseId, v) == Some(r[v])
             ensures v !in r ==> MeshDistance(s, s.baseId, v) == None {
      MeshDistances(s, g, s.baseId, v);
      if v in r {
        MeshDistanceIs(s, s.baseId, v, r[v]);
      } else {
        NoMeshDistance(s, s.baseId, v);
      }
    }
  }

  function Turned(p: Path): (r: Path)
    ensures |r| == |p|
    ensures forall i :: 0 <= i < |p| ==> r[i] == p[|p| - 1 - i]
  {
    seq(|p|, i requires 0 <= i < |p| => p[|p| - 1 - i])
  }

  lemma TurnedPath(s: Snapshot, p: Path, u: string, v: string)
    requires IsMeshPath(s, p, u, v)
    ensures IsMeshPath(s, Turned(p), v, u)
  {
    var q := Turned(p);
    forall i | 0 <= i < |q| - 1 ensures Linked(s, q[i], q[i + 1]) {
      var k := |p| - 2 - i;
      assert Linked(s, p[k], p[k + 1]);
      LinkedSymmetric(s, p[k], p[k + 1]);
    }
  }

  lemma DistanceTurned(s: Snapshot, u: string, v: string, n: nat)
    requires IsMeshDistance(s, u, v, n)
    ensures IsMeshDistance(s, v, u, n)
  {
    var p :| IsMeshPath(s, p, u, v) && |p| == n + 1;
    TurnedPath(s, p, u, v);
    forall q | IsMeshPath(s, q, v, u) ensures |q| >= n + 1 {
      TurnedPath(s, q, v, u);
    }
  }

  /** Distance is the same both ways. */
  lemma MeshDistanceSymmetric(s: Snapshot, u: string, v: string)
    ensures MeshDistance(s, u, v) == MeshDistance(s, v, u)
  {
    if n: nat :| IsMeshDistance(s, u, v, n) {
      DistanceTurned(s, u, v, n);
      MeshDistanceIs(s, u, v, n);
      MeshDistanceIs(s, v, u, n);
    } else if n: nat :| IsMeshDistance(s, v, u, n) {
      DistanceTurned(s, v, u, n);
    }
  }
}
