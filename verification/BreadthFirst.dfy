/** The breadth-first search behind command routing: a queue, a `seen` set and a predecessor
    map over sorted adjacency lists. */
module BreadthFirst {
  import opened Basics
  import opened Graphs

  /** What the search knows: nodes in discovery order, the path under which each was
      discovered, and the predecessor map the path is rebuilt from. */
  datatype Search = Search(order: seq<string>, tree: map<string, Path>, previous: map<string, string>)

  /** Every node has sorted neighbours. */
  predicate SortedGraph(g: Graph) {
    forall u :: u in g ==> StrictlyAscending(g[u])
  }

  ghost predicate TreeOk(g: Graph, src: string, s: Search) {
    && |s.order| > 0 && s.order[0] == src && src !in s.previous
    && s.tree.Keys == Elements(s.order)
    && s.tree.Keys == s.previous.Keys + {src}
    && s.tree[src] == [src]
    && (forall v :: v in s.tree ==> IsPath(g, s.tree[v], src, v))
    && Linked(s.previous, s.tree)
  }

  /** The path of a discovered node extends the path of its predecessor. */
  predicate LinkOk(previous: map<string, string>, tree: map<string, Path>, v: string) {
    && v in previous && v in tree && previous[v] in tree
    && tree[v] == tree[previous[v]] + [v]
  }

  ghost predicate Linked(previous: map<string, string>, tree: map<string, Path>) {
    forall v {:trigger LinkOk(previous, tree, v)} :: v in previous ==> LinkOk(previous, tree, v)
  }

  /** Nodes are discovered in the order of their paths. */
  ghost predicate InPathOrder(s: Search)
    requires s.tree.Keys == Elements(s.order)
  {
    forall i, j :: 0 <= i < j < |s.order| ==> ShortLex(s.tree[s.order[i]], s.tree[s.order[j]])
  }

  /** The neighbour `w` of `u` is discovered, by a path no later than the one through `u`. */
  ghost predicate Relaxed(s: Search, u: string, w: string)
    requires u in s.tree
  {
    w in s.tree && ShortLexEq(s.tree[w], s.tree[u] + [w])
  }

  ghost predicate Expanded(g: Graph, s: Search, head: nat)
    requires s.tree.Keys == Elements(s.order) && head <= |s.order|
  {
    forall i, w :: 0 <= i < head && Edge(g, s.order[i], w) ==> Relaxed(s, s.order[i], w)
  }

  /** Predecessors come from the expanded part of the discovery order. */
  ghost predicate ParentsExpanded(s: Search, head: nat)
    requires head <= |s.order|
  {
    forall v :: v in s.previous ==> s.previous[v] in s.order[..head]
  }

  /** State between two turns of the outer loop: `order[head..]` is the queue. */
  ghost predicate OuterInv(g: Graph, src: string, s: Search, head: nat) {
    && TreeOk(g, src, s) && InPathOrder(s) && head <= |s.order|
    && Expanded(g, s, head) && ParentsExpanded(s, head)
  }

  /** State inside the scan of the neighbours of `order[head]`, `k` of them done. */
  ghost predicate InnerInv(g: Graph, src: string, s: Search, head: nat, ns: seq<string>, k: nat) {
    && TreeOk(g, src, s) && InPathOrder(s) && head < |s.order| && k <= |ns|
    && Expanded(g, s, head)
    && (forall m :: 0 <= m < k ==> Relaxed(s, s.order[head], ns[m]))
    && ParentsScanned(s, head, ns, k)
  }

  function Push(s: Search, u: string, w: string): Search
    requires u in s.tree
  {
    Search(s.order + [w], s.tree[w := s.tree[u] + [w]], s.previous[w := u])
  }

  /** A newly discovered neighbour comes after everything discovered before it. */
  lemma NewNodeIsLast(g: Graph, src: string, s: Search, head: nat, ns: seq<string>, k: nat, x: string)
    requires InnerInv(g, src, s, head, ns, k) && StrictlyAscending(ns) && k < |ns|
    requires x in s.tree
    ensures ShortLex(s.tree[x], s.tree[s.order[head]] + [ns[k]])
  {
    var u, w := s.order[head], ns[k];
    assert u in Elements(s.order);
    if x != src {
      assert LinkOk(s.previous, s.tree, x);
      var y := s.previous[x];
      if y in s.order[..head] {
        var i :| 0 <= i < head && s.order[i] == y;
        ShortLexExtend(s.tree[y], s.tree[u], x, w);
      } else {
        var m :| 0 <= m < k && ns[m] == x;
        ShortLexBranch(s.tree[u], x, w);
      }
    }
  }

  lemma PushKeepsTree(g: Graph, src: string, s: Search, u: string, w: string)
    requires TreeOk(g, src, s) && u in s.tree && w !in s.tree && Edge(g, u, w)
    ensures TreeOk(g, src, Push(s, u, w))
  {
    var t := Push(s, u, w);
    assert Elements(t.order) == Elements(s.order) + {w};
    PathSnoc(g, s.tree[u], src, u, w);
    forall v | v in t.previous ensures LinkOk(t.previous, t.tree, v) {
      assert v != w ==> LinkOk(s.previous, s.tree, v);
    }
  }

  lemma PushKeepsOrder(s: Search, u: string, w: string)
    requires s.tree.Keys == Elements(s.order) && InPathOrder(s) && u in s.tree && w !in s.tree
    requires forall x :: x in s.tree ==> ShortLex(s.tree[x], s.tree[u] + [w])
    ensures Push(s, u, w).tree.Keys == Elements(Push(s, u, w).order)
    ensures InPathOrder(Push(s, u, w))
  {
    var t := Push(s, u, w);
    assert Elements(t.order) == Elements(s.order) + {w};
    forall i, j | 0 <= i < j < |t.order|
      ensures ShortLex(t.tree[t.order[i]], t.tree[t.order[j]])
    {
      assert s.order[i] in Elements(s.order);
      if j < |s.order| {
        assert s.order[j] in Elements(s.order);
      }
    }
  }

  lemma PushKeepsRelaxed(s: Search, u: string, w: string, x: string, y: string)
    requires u in s.tree && w !in s.tree && x in s.tree && Relaxed(s, x, y)
    ensures Relaxed(Push(s, u, w), x, y)
  {
  }

  /** Predecessors inside the scan come from expanded nodes or from the scanned one. */
  ghost predicate ParentsScanned(s: Search, head: nat, ns: seq<string>, k: nat)
    requires head < |s.order| && k <= |ns|
  {
    forall v :: v in s.previous ==>
      s.previous[v] in s.order[..head] || (s.previous[v] == s.order[head] && v in ns[..k])
  }

  lemma ParentsScannedStep(s: Search, t: Search, head: nat, ns: seq<string>, k: nat)
    requires head < |s.order| && k < |ns| && ParentsScanned(s, head, ns, k)
    requires t == s || (s.order[head] in s.tree && t == Push(s, s.order[head], ns[k]))
    ensures ParentsScanned(t, head, ns, k + 1)
  {
    assert ns[..k + 1] == ns[..k] + [ns[k]];
    assert t.order[..head] == s.order[..head];
  }

  lemma PushKeepsInner(g: Graph, src: string, s: Search, head: nat, ns: seq<string>, k: nat)
    requires InnerInv(g, src, s, head, ns, k) && StrictlyAscending(ns) && k < |ns|
    requires s.order[head] in g && g[s.order[head]] == ns && ns[k] !in s.tree
    ensures s.order[head] in s.tree
    ensures InnerInv(g, src, Push(s, s.order[head], ns[k]), head, ns, k + 1)
  {
    var u, w := s.order[head], ns[k];
    assert u in Elements(s.order);
    var t := Push(s, u, w);
    PushKeepsTree(g, src, s, u, w);
    forall x | x in s.tree ensures ShortLex(s.tree[x], s.tree[u] + [w]) {
      NewNodeIsLast(g, src, s, head, ns, k, x);
    }
    PushKeepsOrder(s, u, w);
    forall i, x | 0 <= i < head && Edge(g, t.order[i], x) ensures Relaxed(t, t.order[i], x) {
      assert s.order[i] in Elements(s.order);
      PushKeepsRelaxed(s, u, w, s.order[i], x);
    }
    forall m | 0 <= m < k + 1 ensures Relaxed(t, t.order[head], ns[m]) {
      if m < k {
        PushKeepsRelaxed(s, u, w, u, ns[m]);
      }
    }
    ParentsScannedStep(s, t, head, ns, k);
  }

  lemma SkipKeepsInner(g: Graph, src: string, s: Search, head: nat, ns: seq<string>, k: nat)
    requires InnerInv(g, src, s, head, ns, k) && StrictlyAscending(ns) && k < |ns|
    requires ns[k] in s.tree
    ensures InnerInv(g, src, s, head, ns, k + 1)
  {
    NewNodeIsLast(g, src, s, head, ns, k, ns[k]);
    assert s.order[head] in Elements(s.order);
    ParentsScannedStep(s, s, head, ns, k);
  }

  /** Finishing the scan of `order[head]` expands it. */
  lemma InnerToOuter(g: Graph, src: string, s: Search, head: nat, ns: seq<string>)
    requires InnerInv(g, src, s, head, ns, |ns|)
    requires ns == if s.order[head] in g then g[s.order[head]] else []
    ensures OuterInv(g, src, s, head + 1)
  {
    forall i, w | 0 <= i < head + 1 && Edge(g, s.order[i], w) ensures Relaxed(s, s.order[i], w) {
      if i == head {
        var m :| 0 <= m < |ns| && ns[m] == w;
      }
    }
    forall v | v in s.previous ensures s.previous[v] in s.order[..head + 1] {
      if s.previous[v] in s.order[..head] {
        var i :| 0 <= i < head && s.order[i] == s.previous[v];
        assert s.order[..head + 1][i] == s.previous[v];
      } else {
        assert s.order[..head + 1][head] == s.previous[v];
      }
    }
  }

  /** A node found before the front: the path that goes on from it is matched. */
  lemma CoveredBehind(s: Search, head: nat, i: nat, q: Path, v: string)
    requires i < head <= |s.order| && s.order[i] in s.tree && Relaxed(s, s.order[i], v)
    requires ShortLexEq(s.tree[s.order[i]], q)
    ensures v in s.tree && ShortLexEq(s.tree[v], q + [v])
  {
    var u := s.order[i];
    if s.tree[u] != q {
      ShortLexExtend(s.tree[u], q, v, v);
    }
    ShortLexEqTransitive(s.tree[v], s.tree[u] + [v], q + [v]);
  }

  /** A node at the front or behind it in the queue: the front is no larger. */
  lemma CoveredAhead(s: Search, head: nat, i: nat, q: Path)
    requires head <= i < |s.order| && s.tree.Keys == Elements(s.order) && InPathOrder(s)
    requires s.order[i] in s.tree && ShortLexEq(s.tree[s.order[i]], q)
    ensures s.order[head] in s.tree && ShortLexEq(s.tree[s.order[head]], q)
  {
    assert s.order[head] in Elements(s.order);
    assert ShortLexEq(s.tree[s.order[head]], s.tree[s.order[i]]);
    ShortLexEqTransitive(s.tree[s.order[head]], s.tree[s.order[i]], q);
  }

  /** The recorded path of `v` matches `p`, or the front of the queue is smaller than `p`. */
  ghost predicate Covered(s: Search, head: nat, p: Path, v: string) {
    || (v in s.tree && ShortLexEq(s.tree[v], p))
    || (head < |s.order| && s.order[head] in s.tree && ShortLex(s.tree[s.order[head]], p))
  }

  lemma LongerIsLarger(p: Path, q: Path, v: string)
    requires ShortLexEq(p, q)
    ensures ShortLex(p, q + [v])
  {
  }

  lemma CoveredStep(g: Graph, src: string, s: Search, head: nat, q: Path, u: string, v: string)
    requires OuterInv(g, src, s, head) && Edge(g, u, v) && Covered(s, head, q, u)
    ensures Covered(s, head, q + [v], v)
  {
    if u in s.tree && ShortLexEq(s.tree[u], q) {
      var i :| 0 <= i < |s.order| && s.order[i] == u;
      if i < head {
        assert Relaxed(s, s.order[i], v);
        CoveredBehind(s, head, i, q, v);
      } else {
        CoveredAhead(s, head, i, q);
        LongerIsLarger(s.tree[s.order[head]], q, v);
      }
    } else {
      LongerIsLarger(s.tree[s.order[head]], q, v);
    }
  }

  /** The core of the search: any path to `v` is either matched by the recorded path of `v`,
      or still has to pass through the queue, whose front is already no longer than it. */
  lemma {:induction false} PathsAreCovered(g: Graph, src: string, s: Search, head: nat, p: Path, v: string)
    requires OuterInv(g, src, s, head) && IsPath(g, p, src, v)
    ensures Covered(s, head, p, v)
    decreases |p|
  {
    if |p| == 1 {
      assert p == [src];
    } else {
      PathInit(g, p, src, v);
      var q, u := p[..|p| - 1], p[|p| - 2];
      PathsAreCovered(g, src, s, head, q, u);
      CoveredStep(g, src, s, head, q, u, v);
      assert p == q + [v];
    }
  }

  /** When the goal reaches the front of the queue its recorded path is the least one. */
  lemma FrontIsLeast(g: Graph, src: string, s: Search, head: nat)
    requires OuterInv(g, src, s, head) && head < |s.order|
    ensures s.order[head] in s.tree
    ensures IsLeastPath(g, s.tree[s.order[head]], src, s.order[head])
  {
    var v := s.order[head];
    assert v in Elements(s.order);
    forall q | IsPath(g, q, src, v) ensures ShortLexEq(s.tree[v], q) {
      PathsAreCovered(g, src, s, head, q, v);
    }
  }

  /** When the queue runs empty, everything reachable has been discovered. */
  lemma EmptyQueueIsComplete(g: Graph, src: string, s: Search, dst: string)
    requires OuterInv(g, src, s, |s.order|) && dst !in s.tree
    ensures forall p :: !IsPath(g, p, src, dst)
  {
    forall p ensures !IsPath(g, p, src, dst) {
      if IsPath(g, p, src, dst) {
        PathsAreCovered(g, src, s, |s.order|, p, dst);
      }
    }
  }

  /** Walk the predecessor map back from `dst` and reverse. */
  method ReconstructPath(src: string, dst: string, previous: map<string, string>, ghost tree: map<string, Path>)
    returns (path: Path)
    requires src !in previous && src in tree && tree[src] == [src] && dst in tree
    requires tree.Keys == previous.Keys + {src}
    requires Linked(previous, tree)
    ensures path == tree[dst]
  {
    var backwards := [dst];
    var cursor := dst;
    ghost var done := [];
    while cursor != src
      invariant cursor in tree && tree[dst] == tree[cursor] + done
      invariant Reversed(backwards) == [cursor] + done
      decreases |tree[cursor]|
    {
      if cursor !in previous {
        break;
      }
      assert LinkOk(previous, tree, cursor);
      done := [cursor] + done;
      cursor := previous[cursor];
      ReversedSnoc(backwards, cursor);
      backwards := backwards + [cursor];
    }
    path := Reversed(backwards);
  }

  function Reversed(s: seq<string>): (r: seq<string>)
    ensures |r| == |s|
  {
    if s == [] then [] else Reversed(s[1..]) + [s[0]]
  }

  lemma {:induction false} ReversedSnoc(s: seq<string>, x: string)
    ensures Reversed(s + [x]) == [x] + Reversed(s)
  {
    if s != [] {
      ReversedSnoc(s[1..], x);
      assert (s + [x])[1..] == s[1..] + [x];
    }
  }

  /** The queue, predecessor map and `seen` set of the program hold the search state. */
  ghost predicate Holds(queue: seq<string>, previous: map<string, string>, seen: set<string>, s: Search, head: nat) {
    && head <= |s.order| && queue == s.order[head..]
    && previous == s.previous && seen == s.tree.Keys
  }

  lemma HoldsPush(queue: seq<string>, previous: map<string, string>, seen: set<string>, s: Search, head: nat,
                  u: string, w: string)
    requires Holds(queue, previous, seen, s, head) && u in s.tree
    ensures Holds(queue + [w], previous[w := u], seen + {w}, Push(s, u, w), head)
  {
    assert (s.order + [w])[head..] == s.order[head..] + [w];
  }

  ghost predicate Scanning(g: Graph, src: string, s: Search, s': Search, head: nat, ns: seq<string>, k: nat,
                           all: set<string>)
  {
    && InnerInv(g, src, s', head, ns, k) && s.order <= s'.order && head < |s.order|
    && s'.tree.Keys <= all
  }

  lemma ScanStep(g: Graph, src: string, s: Search, s': Search, head: nat, ns: seq<string>, k: nat, all: set<string>)
    requires Scanning(g, src, s, s', head, ns, k, all) && k < |ns|
    requires StrictlyAscending(ns) && s.order[head] in g && g[s.order[head]] == ns && Targets(g) <= all
    ensures s'.order[head] == s.order[head] && s.order[head] in s'.tree
    ensures ns[k] in s'.tree ==> Scanning(g, src, s, s', head, ns, k + 1, all)
    ensures ns[k] !in s'.tree ==> Scanning(g, src, s, Push(s', s.order[head], ns[k]), head, ns, k + 1, all)
  {
    assert s'.order[head] in Elements(s'.order);
    if ns[k] in s'.tree {
      SkipKeepsInner(g, src, s', head, ns, k);
    } else {
      PushKeepsInner(g, src, s', head, ns, k);
      InTargets(g, s.order[head], ns[k]);
    }
  }

  /** Queue the undiscovered neighbours of the node just taken from the queue. */
  method ExpandNode(g: Graph, ghost src: string, node: string, queue: seq<string>, previous: map<string, string>,
                    seen: set<string>, ghost s: Search, ghost head: nat, ghost all: set<string>)
    returns (queue': seq<string>, previous': map<string, string>, seen': set<string>, ghost s': Search)
    requires SortedGraph(g) && OuterInv(g, src, s, head) && head < |s.order| && s.order[head] == node
    requires Holds(queue, previous, seen, s, head + 1) && Targets(g) <= all && seen <= all
    ensures OuterInv(g, src, s', head + 1) && s.order <= s'.order
    ensures Holds(queue', previous', seen', s', head + 1) && seen' <= all
  {
    queue', previous', seen', s' := queue, previous, seen, s;
    var neighbours := if node in g then g[node] else [];
    assert ParentsScanned(s, head, neighbours, 0);
    for k := 0 to |neighbours|
      invariant Scanning(g, src, s, s', head, neighbours, k, all)
      invariant Holds(queue', previous', seen', s', head + 1)
    {
      ScanStep(g, src, s, s', head, neighbours, k, all);
      var neighbour := neighbours[k];
      if neighbour !in seen' {
        HoldsPush(queue', previous', seen', s', head + 1, node, neighbour);
        seen' := seen' + {neighbour};
        previous' := previous'[neighbour := node];
        queue' := queue' + [neighbour];
        s' := Push(s', node, neighbour);
      }
    }
    assert s'.order[head] == node;
    InnerToOuter(g, src, s', head, neighbours);
  }

  /** Breadth-first search over sorted adjacency lists. The result is the first path in the
      order "shorter, then lexicographically smaller", and it is missing only when there is
      no path at all. */
  method FindPath(g: Graph, src: string, dst: string) returns (r: Option<Path>)
    requires SortedGraph(g)
    ensures r.Some? ==> IsLeastPath(g, r.value, src, dst)
    ensures r.None? ==> forall p :: !IsPath(g, p, src, dst)
  {
    var queue := [src];
    var previous: map<string, string> := map[];
    var seen := {src};
    ghost var s := Search([src], map[src := [src]], map[]);
    ghost var head := 0;
    ghost var all := {src} + Targets(g);
    while queue != []
      invariant OuterInv(g, src, s, head)
      invariant Holds(queue, previous, seen, s, head)
      invariant dst !in s.order[..head] && seen <= all
      decreases all - Elements(s.order[..head])
    {
      var node := queue[0];
      if node == dst {
        FrontIsLeast(g, src, s, head);
        var path := ReconstructPath(src, dst, previous, s.tree);
        return Some(path);
      }
      NotYetExpanded(g, src, s, head);
      ghost var before := s.order;
      queue, previous, seen, s := ExpandNode(g, src, node, queue[1..], previous, seen, s, head, all);
      FrontMoves(before, s.order, head);
      head := head + 1;
    }
    assert s.order[..head] == s.order;
    EmptyQueueIsComplete(g, src, s, dst);
    r := None;
  }

  /** The node at the front of the queue has not been expanded before. */
  lemma NotYetExpanded(g: Graph, src: string, s: Search, head: nat)
    requires OuterInv(g, src, s, head) && head < |s.order|
    ensures s.order[head] !in s.order[..head] && s.order[head] in s.tree
  {
    assert s.order[head] in Elements(s.order);
    if s.order[head] in s.order[..head] {
      var i :| 0 <= i < head && s.order[i] == s.order[head];
      assert ShortLex(s.tree[s.order[i]], s.tree[s.order[head]]);
      ShortLexIrreflexive(s.tree[s.order[head]]);
    }
  }
}
