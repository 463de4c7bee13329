/** The scans of both hop-count searches, and the state they leave. */
module HopScan {
  import opened Basics
  import opened Graphs
  import opened HopSearch

  /** Looking at neighbour number `i` of `u`. */
  ghost predicate Looks(u: string, ns: seq<string>, trace: seq<Search>, i: nat) {
    && i < |ns| && i + 1 < |trace| && u in trace[i].hops
    && trace[i + 1] == if ns[i] in trace[i].hops then trace[i] else Discover(trace[i], u, ns[i])
  }

  /** The states of a scan of the neighbours `ns` of `u`, neighbour after neighbour. */
  ghost predicate IsScan(s: Search, u: string, ns: seq<string>, trace: seq<Search>) {
    && |trace| == |ns| + 1 && trace[0] == s && u in s.hops
    && forall i: nat :: i < |ns| ==> Looks(u, ns, trace, i)
  }

  lemma {:induction false} ScanKeeps(s: Search, u: string, ns: seq<string>, trace: seq<Search>, k: nat)
    requires IsScan(s, u, ns, trace) && k <= |ns|
    ensures s.order <= trace[k].order && u in trace[k].hops
  {
    if k > 0 {
      ScanKeeps(s, u, ns, trace, k - 1);
      assert Looks(u, ns, trace, k - 1);
    }
  }

  lemma ScanNext(g: Graph, src: string, s: Search, u: string, ns: seq<string>, trace: seq<Search>, head: nat, k: nat)
    requires IsScan(s, u, ns, trace) && k < |ns| && ns == Neighbours(g, u) && head < |s.order| && s.order[head] == u
    requires Scan(g, src, trace[k], head, ns, k)
    ensures Scan(g, src, trace[k + 1], head, ns, k + 1)
  {
    ScanKeeps(s, u, ns, trace, k);
    assert Looks(u, ns, trace, k);
    FoldStep(g, src, trace[k], trace[k + 1], head, u, ns, k);
  }

  lemma {:induction false} ScanGoesOn(g: Graph, src: string, s: Search, u: string, ns: seq<string>, trace: seq<Search>,
                                      head: nat, k: nat)
    requires IsScan(s, u, ns, trace) && k <= |ns| && ns == Neighbours(g, u) && head < |s.order| && s.order[head] == u
    requires Scan(g, src, s, head, ns, 0)
    ensures Scan(g, src, trace[k], head, ns, k)
  {
    if k > 0 {
      ScanGoesOn(g, src, s, u, ns, trace, head, k - 1);
      ScanNext(g, src, s, u, ns, trace, head, k - 1);
    }
  }

  lemma {:induction false} ScanStaysIn(g: Graph, s: Search, u: string, ns: seq<string>, trace: seq<Search>, k: nat,
                                       all: set<string>)
    requires IsScan(s, u, ns, trace) && k <= |ns| && ns == Neighbours(g, u) && s.hops.Keys <= all && Targets(g) <= all
    ensures trace[k].hops.Keys <= all
  {
    if k > 0 {
      ScanStaysIn(g, s, u, ns, trace, k - 1, all);
      assert Looks(u, ns, trace, k - 1) && Edge(g, u, ns[k - 1]);
      InTargets(g, u, ns[k - 1]);
    }
  }

  /** Scanning all neighbours expands the front node. */
  lemma ScanExpands(g: Graph, src: string, s: Search, ns: seq<string>, trace: seq<Search>, head: nat, all: set<string>)
    requires Inv(g, src, s, head) && head < |s.order| && s.hops.Keys <= all && Targets(g) <= all
    requires IsScan(s, s.order[head], ns, trace) && ns == Neighbours(g, s.order[head])
    ensures Inv(g, src, trace[|ns|], head + 1) && trace[|ns|].hops.Keys <= all && s.order <= trace[|ns|].order
  {
    ScanStarts(g, src, s, head, ns);
    ScanGoesOn(g, src, s, s.order[head], ns, trace, head, |ns|);
    ScanStaysIn(g, s, s.order[head], ns, trace, |ns|, all);
    ScanKeeps(s, s.order[head], ns, trace, |ns|);
    ScanDone(g, src, trace[|ns|], head, ns);
  }

  lemma ScanSnoc(s: Search, u: string, ns: seq<string>, k: nat, trace: seq<Search>, n: Search)
    requires k < |ns| && IsScan(s, u, ns[..k], trace) && u in trace[k].hops
    requires n == if ns[k] in trace[k].hops then trace[k] else Discover(trace[k], u, ns[k])
    ensures IsScan(s, u, ns[..k + 1], trace + [n])
  {
    var more, longer := ns[..k + 1], trace + [n];
    forall i: nat | i < k + 1 ensures Looks(u, more, longer, i) {
      if i < k {
        assert Looks(u, ns[..k], trace, i);
      }
    }
  }

  /** The inner loop of the single-target search, which only marks nodes as visited. */
  method ScanVisited(node: string, hops: nat, ns: seq<string>, queue: seq<Queued>, visited: set<string>,
                     ghost s: Search, ghost head: nat)
    returns (queue': seq<Queued>, visited': set<string>, ghost trace: seq<Search>)
    requires Mirrors(queue, s, head) && node in s.hops && s.hops[node] == hops && visited == s.hops.Keys
    ensures IsScan(s, node, ns, trace) && Mirrors(queue', trace[|ns|], head) && visited' == trace[|ns|].hops.Keys
  {
    queue', visited', trace := queue, visited, [s];
    for k := 0 to |ns|
      invariant IsScan(s, node, ns[..k], trace) && node in trace[k].hops && trace[k].hops[node] == hops
      invariant Mirrors(queue', trace[k], head) && visited' == trace[k].hops.Keys
    {
      ghost var n := if ns[k] in trace[k].hops then trace[k] else Discover(trace[k], node, ns[k]);
      ScanSnoc(s, node, ns, k, trace, n);
      if ns[k] !in visited' {
        MirrorsPush(queue', trace[k], head, node, ns[k]);
        visited' := visited' + {ns[k]};
        queue' := queue' + [Queued(ns[k], hops + 1)];
      }
      trace := trace + [n];
    }
    assert ns[..|ns|] == ns;
  }

  /** The inner loop of the all-nodes search, which records hop counts. */
  method ScanCounted(node: string, hops: nat, ns: seq<string>, queue: seq<Queued>, visited: map<string, nat>,
                     ghost s: Search, ghost head: nat)
    returns (queue': seq<Queued>, visited': map<string, nat>, ghost trace: seq<Search>)
    requires Mirrors(queue, s, head) && node in s.hops && s.hops[node] == hops && visited == s.hops
    ensures IsScan(s, node, ns, trace) && Mirrors(queue', trace[|ns|], head) && visited' == trace[|ns|].hops
  {
    queue', visited', trace := queue, visited, [s];
    for k := 0 to |ns|
      invariant IsScan(s, node, ns[..k], trace) && node in trace[k].hops && trace[k].hops[node] == hops
      invariant Mirrors(queue', trace[k], head) && visited' == trace[k].hops
    {
      ghost var n := if ns[k] in trace[k].hops then trace[k] else Discover(trace[k], node, ns[k]);
      ScanSnoc(s, node, ns, k, trace, n);
      if ns[k] !in visited' {
        MirrorsPush(queue', trace[k], head, node, ns[k]);
        visited' := visited'[ns[k] := hops + 1];
        queue' := queue' + [Queued(ns[k], hops + 1)];
      }
      trace := trace + [n];
    }
    assert ns[..|ns|] == ns;
  }

  /** The state of either search: everything found so far, and the queue still to expand. */
  ghost predicate Searching(g: Graph, src: string, queue: seq<Queued>, s: Search, head: nat, all: set<string>) {
    Inv(g, src, s, head) && Mirrors(queue, s, head) && s.hops.Keys <= all
  }

  function Expanded(s: Search, head: nat): set<string>
    requires head <= |s.order|
  {
    Elements(s.order[..head])
  }

  /** After the front node was scanned, the search stands one node further on. */
  lemma Advance(g: Graph, src: string, queue: seq<Queued>, s: Search, head: nat, all: set<string>,
                ns: seq<string>, trace: seq<Search>, queue': seq<Queued>)
    requires Searching(g, src, queue, s, head, all) && queue != [] && Targets(g) <= all
    requires ns == Neighbours(g, queue[0].node) && IsScan(s, queue[0].node, ns, trace)
    requires Mirrors(queue', trace[|ns|], head + 1)
    ensures var t := trace[|ns|];
            && Searching(g, src, queue', t, head + 1, all) && head + 1 <= |t.order|
            && Expanded(t, head + 1) == Expanded(s, head) + {queue[0].node}
            && all - Expanded(t, head + 1) < all - Expanded(s, head)
  {
    Front(g, src, queue, s, head);
    ScanExpands(g, src, s, ns, trace, head, all);
    var t := trace[|ns|];
    FrontMoves(s.order, t.order, head);
    ElementsSnoc(s.order[..head], s.order[head]);
    assert t.order[..head + 1] == s.order[..head] + [s.order[head]];
    assert queue[0].node in all - Expanded(s, head);
  }

  /** Expanding the front node in the single-target search. */
  method ExpandVisited(g: Graph, ghost src: string, queue: seq<Queued>, visited: set<string>,
                       ghost s: Search, ghost head: nat, ghost all: set<string>, ghost to: string)
    returns (queue': seq<Queued>, visited': set<string>, ghost s': Search)
    requires Searching(g, src, queue, s, head, all) && queue != [] && Targets(g) <= all && visited == s.hops.Keys
    requires to !in Expanded(s, head) && to != queue[0].node
    ensures Searching(g, src, queue', s', head + 1, all) && visited' == s'.hops.Keys
    ensures head + 1 <= |s'.order| && to !in Expanded(s', head + 1)
    ensures all - Expanded(s', head + 1) < all - Expanded(s, head)
  {
    Front(g, src, queue, s, head);
    var node, hops := queue[0].node, queue[0].hops;
    var ns := Neighbours(g, node);
    ghost var trace;
    queue', visited', trace := ScanVisited(node, hops, ns, queue[1..], visited, s, head + 1);
    Advance(g, src, queue, s, head, all, ns, trace, queue');
    s' := trace[|ns|];
  }

  /** Expanding the front node in the all-nodes search. */
  method ExpandCounted(g: Graph, ghost src: string, queue: seq<Queued>, visited: map<string, nat>,
                       ghost s: Search, ghost head: nat, ghost all: set<string>)
    returns (queue': seq<Queued>, visited': map<string, nat>, ghost s': Search)
    requires Searching(g, src, queue, s, head, all) && queue != [] && Targets(g) <= all && visited == s.hops
    ensures Searching(g, src, queue', s', head + 1, all) && visited' == s'.hops
    ensures head + 1 <= |s'.order| && all - Expanded(s', head + 1) < all - Expanded(s, head)
  {
    Front(g, src, queue, s, head);
    var node, hops := queue[0].node, queue[0].hops;
    var ns := Neighbours(g, node);
    ghost var trace;
    queue', visited', trace := ScanCounted(node, hops, ns, queue[1..], visited, s, head + 1);
    Advance(g, src, queue, s, head, all, ns, trace, queue');
    s' := trace[|ns|];
  }

  /** The node at the front of the queue is recorded with its distance. */
  lemma FrontKnown(g: Graph, src: string, queue: seq<Queued>, s: Search, head: nat, all: set<string>)
    requires Searching(g, src, queue, s, head, all) && queue != []
    ensures IsHopDistance(g, src, queue[0].node, queue[0].hops)
  {
    Front(g, src, queue, s, head);
    FrontDistance(g, src, s, head);
  }

  lemma Exhausted(g: Graph, src: string, s: Search, head: nat, all: set<string>, v: string)
    requires Searching(g, src, [], s, head, all)
    ensures v in s.hops ==> IsHopDistance(g, src, v, s.hops[v]) && v in Expanded(s, head)
    ensures v !in s.hops ==> forall p :: !IsPath(g, p, src, v)
  {
    assert head == |s.order| && s.order[..head] == s.order;
    AllDistances(g, src, s, v);
  }

  lemma NotFound(g: Graph, src: string, s: Search, head: nat, all: set<string>, v: string)
    requires Searching(g, src, [], s, head, all) && v !in Expanded(s, head)
    ensures forall p :: !IsPath(g, p, src, v)
  {
    Exhausted(g, src, s, head, all, v);
  }

  /** When the queue is empty, the hop counts are the distances of all that can be reached. */
  lemma AllExhausted(g: Graph, src: string, s: Search, head: nat, all: set<string>)
    requires Searching(g, src, [], s, head, all)
    ensures forall v :: v in s.hops ==> IsHopDistance(g, src, v, s.hops[v])
    ensures forall v :: v !in s.hops ==> forall p :: !IsPath(g, p, src, v)
  {
    forall v ensures v in s.hops ==> IsHopDistance(g, src, v, s.hops[v])
             ensures v !in s.hops ==> forall p :: !IsPath(g, p, src, v) {
      Exhausted(g, src, s, head, all, v);
    }
  }
}
