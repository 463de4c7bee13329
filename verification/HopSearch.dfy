/** Breadth-first hop distances: the state that both searches over the mesh share, and why it
    yields shortest distances. */
module HopSearch {
  import opened Basics
  import opened Graphs

  /** Number of hops of a shortest path from `u` to `v`. */
  ghost predicate IsHopDistance(g: Graph, u: string, v: string, n: nat) {
    && (exists p :: IsPath(g, p, u, v) && |p| == n + 1)
    && (forall p :: IsPath(g, p, u, v) ==> |p| >= n + 1)
  }

  /** Searching from `src`: nodes in discovery order with their hop counts; `order[head..]` is
      the queue. */
  datatype Search = Search(order: seq<string>, hops: map<string, nat>)

  datatype Queued = Queued(node: string, hops: nat)

  ghost predicate Reached(g: Graph, src: string, s: Search, v: string) {
    v in s.hops && exists p :: IsPath(g, p, src, v) && |p| == s.hops[v] + 1
  }

  ghost predicate InLevels(s: Search)
    requires s.hops.Keys == Elements(s.order)
  {
    forall i, j :: 0 <= i < j < |s.order| ==> s.order[i] != s.order[j] && s.hops[s.order[i]] <= s.hops[s.order[j]]
  }

  ghost predicate SearchOk(g: Graph, src: string, s: Search) {
    && |s.order| > 0 && s.order[0] == src && s.hops.Keys == Elements(s.order) && s.hops[src] == 0
    && InLevels(s)
    && (forall v {:trigger Reached(g, src, s, v)} :: v in s.hops ==> Reached(g, src, s, v))
  }

  /** `w` is discovered at most one hop after `u`. */
  ghost predicate Near(s: Search, u: string, w: string) {
    u in s.hops && w in s.hops && s.hops[w] <= s.hops[u] + 1
  }

  ghost predicate Inv(g: Graph, src: string, s: Search, head: nat) {
    && SearchOk(g, src, s) && head <= |s.order|
    && (forall i, w :: 0 <= i < head && Edge(g, s.order[i], w) ==> Near(s, s.order[i], w))
    && (forall i :: 0 <= i < |s.order| && head < |s.order| ==> Near(s, s.order[head], s.order[i]))
  }

  /** Any walk to `v` is as long as the recorded hops, or longer than those of the front. */
  lemma {:induction false} WalksCovered(g: Graph, src: string, s: Search, head: nat, p: Path, v: string)
    requires Inv(g, src, s, head) && IsPath(g, p, src, v)
    ensures (v in s.hops && s.hops[v] + 1 <= |p|)
         || (head < |s.order| && s.order[head] in s.hops && s.hops[s.order[head]] + 1 < |p|)
    decreases |p|
  {
    if |p| > 1 {
      PathInit(g, p, src, v);
      var q, u := p[..|p| - 1], p[|p| - 2];
      WalksCovered(g, src, s, head, q, u);
      if u in s.hops && s.hops[u] + 1 <= |q| {
        var i :| 0 <= i < |s.order| && s.order[i] == u;
        if i < head {
          assert Near(s, s.order[i], v);
        } else {
          assert s.order[head] in Elements(s.order);
        }
      }
    }
  }

  lemma FrontDistance(g: Graph, src: string, s: Search, head: nat)
    requires Inv(g, src, s, head) && head < |s.order|
    ensures s.order[head] in s.hops && IsHopDistance(g, src, s.order[head], s.hops[s.order[head]])
  {
    var v := s.order[head];
    assert v in Elements(s.order);
    assert Reached(g, src, s, v);
    forall p | IsPath(g, p, src, v) ensures |p| >= s.hops[v] + 1 {
      WalksCovered(g, src, s, head, p, v);
    }
  }

  lemma AllDistances(g: Graph, src: string, s: Search, v: string)
    requires Inv(g, src, s, |s.order|)
    ensures v in s.hops ==> IsHopDistance(g, src, v, s.hops[v])
    ensures v !in s.hops ==> forall p :: !IsPath(g, p, src, v)
  {
    if v in s.hops {
      assert Reached(g, src, s, v);
    }
    forall p | IsPath(g, p, src, v) ensures v in s.hops && |p| >= s.hops[v] + 1 {
      WalksCovered(g, src, s, |s.order|, p, v);
    }
  }

  /** Partway through the neighbours of the front node. */
  ghost predicate Scan(g: Graph, src: string, s: Search, head: nat, ns: seq<string>, k: nat) {
    && SearchOk(g, src, s) && head < |s.order| && k <= |ns|
    && (forall i, w :: 0 <= i < head && Edge(g, s.order[i], w) ==> Near(s, s.order[i], w))
    && (forall m :: 0 <= m < k ==> Near(s, s.order[head], ns[m]))
    && (forall i :: 0 <= i < |s.order| ==> Near(s, s.order[head], s.order[i]))
  }

  function Discover(s: Search, u: string, w: string): Search
    requires u in s.hops
  {
    Search(s.order + [w], s.hops[w := s.hops[u] + 1])
  }

  lemma DiscoverOrdered(s: Search, u: string, w: string, i: nat, j: nat)
    requires s.hops.Keys == Elements(s.order) && u in s.hops && w !in s.hops && i < j <= |s.order|
    requires Near(s, u, s.order[i])
    requires j < |s.order| ==> s.order[i] != s.order[j] && s.hops[s.order[i]] <= s.hops[s.order[j]]
    ensures var t := Discover(s, u, w);
            && t.order[i] in t.hops && t.order[j] in t.hops
            && t.order[i] != t.order[j] && t.hops[t.order[i]] <= t.hops[t.order[j]]
  {
    assert s.order[i] in Elements(s.order) && (j < |s.order| ==> s.order[j] in Elements(s.order));
  }

  lemma DiscoverReached(g: Graph, src: string, s: Search, u: string, w: string, v: string)
    requires u in s.hops && w !in s.hops && Edge(g, u, w) && Reached(g, src, s, u)
    requires v == w || Reached(g, src, s, v)
    ensures Reached(g, src, Discover(s, u, w), v)
  {
    if v == w {
      var p :| IsPath(g, p, src, u) && |p| == s.hops[u] + 1;
      PathSnoc(g, p, src, u, w);
    }
  }

  lemma DiscoverBasics(g: Graph, src: string, s: Search, u: string, w: string)
    requires SearchOk(g, src, s) && u in s.hops && w !in s.hops && Edge(g, u, w)
    requires forall i :: 0 <= i < |s.order| ==> Near(s, u, s.order[i])
    ensures SearchOk(g, src, Discover(s, u, w))
  {
    var t := Discover(s, u, w);
    assert Elements(t.order) == Elements(s.order) + {w};
    forall i, j | 0 <= i < j < |t.order| ensures t.order[i] != t.order[j] && t.hops[t.order[i]] <= t.hops[t.order[j]] {
      DiscoverOrdered(s, u, w, i, j);
    }
    assert Reached(g, src, s, u);
    forall v | v in t.hops ensures Reached(g, src, t, v) {
      assert v != w ==> Reached(g, src, s, v);
      DiscoverReached(g, src, s, u, w, v);
    }
  }

  lemma NearKept(s: Search, u: string, w: string, x: string, y: string)
    requires u in s.hops && w !in s.hops && Near(s, x, y)
    ensures Near(Discover(s, u, w), x, y)
  {
  }

  lemma ScanDiscover(g: Graph, src: string, s: Search, head: nat, ns: seq<string>, k: nat)
    requires Scan(g, src, s, head, ns, k) && k < |ns| && ns[k] !in s.hops && Edge(g, s.order[head], ns[k])
    ensures s.order[head] in s.hops
    ensures Scan(g, src, Discover(s, s.order[head], ns[k]), head, ns, k + 1)
  {
    var u, w := s.order[head], ns[k];
    assert u in Elements(s.order);
    var t := Discover(s, u, w);
    DiscoverBasics(g, src, s, u, w);
    forall i, x | 0 <= i < head && Edge(g, t.order[i], x) ensures Near(t, t.order[i], x) {
      NearKept(s, u, w, s.order[i], x);
    }
    forall m | 0 <= m < k + 1 ensures Near(t, t.order[head], ns[m]) {
      if m < k {
        NearKept(s, u, w, u, ns[m]);
      }
    }
    forall i | 0 <= i < |t.order| ensures Near(t, t.order[head], t.order[i]) {
      if i < |s.order| {
        NearKept(s, u, w, u, s.order[i]);
      }
    }
  }

  lemma ScanSkip(g: Graph, src: string, s: Search, head: nat, ns: seq<string>, k: nat)
    requires Scan(g, src, s, head, ns, k) && k < |ns| && ns[k] in s.hops
    ensures Scan(g, src, s, head, ns, k + 1)
  {
    var i :| 0 <= i < |s.order| && s.order[i] == ns[k];
    assert Near(s, s.order[head], s.order[i]);
  }

  lemma ScanDone(g: Graph, src: string, s: Search, head: nat, ns: seq<string>)
    requires Scan(g, src, s, head, ns, |ns|) && ns == if s.order[head] in g then g[s.order[head]] else []
    ensures Inv(g, src, s, head + 1)
  {
    forall i, w | 0 <= i < head + 1 && Edge(g, s.order[i], w) ensures Near(s, s.order[i], w) {
      if i == head {
        var m :| 0 <= m < |ns| && ns[m] == w;
      }
    }
    if head + 1 < |s.order| {
      assert Near(s, s.order[head], s.order[head + 1]);
      forall i | 0 <= i < |s.order| ensures Near(s, s.order[head + 1], s.order[i]) {
        assert Near(s, s.order[head], s.order[i]);
        assert s.hops[s.order[head]] <= s.hops[s.order[head + 1]];
      }
    }
  }

  ghost predicate Mirrors(queue: seq<Queued>, s: Search, head: nat) {
    && head <= |s.order| && s.hops.Keys == Elements(s.order) && |queue| == |s.order| - head
    && forall i :: 0 <= i < |queue| ==> queue[i] == Queued(s.order[head + i], s.hops[s.order[head + i]])
  }

  lemma MirrorsPush(queue: seq<Queued>, s: Search, head: nat, u: string, w: string)
    requires Mirrors(queue, s, head) && u in s.hops && w !in s.hops
    ensures Mirrors(queue + [Queued(w, s.hops[u] + 1)], Discover(s, u, w), head)
  {
    var t := Discover(s, u, w);
    assert Elements(t.order) == Elements(s.order) + {w};
    forall i | 0 <= i < |queue| ensures queue[i] == Queued(t.order[head + i], t.hops[t.order[head + i]]) {
      assert s.order[head + i] in Elements(s.order);
    }
  }

  function Neighbours(g: Graph, node: string): seq<string> {
    if node in g then g[node] else []
  }

  lemma ScanStarts(g: Graph, src: string, s: Search, head: nat, ns: seq<string>)
    requires Inv(g, src, s, head) && head < |s.order|
    ensures Scan(g, src, s, head, ns, 0)
  {
  }

  lemma FoldStep(g: Graph, src: string, t: Search, n: Search, head: nat, u: string, ns: seq<string>, k: nat)
    requires Scan(g, src, t, head, ns, k) && k < |ns| && t.order[head] == u && u in t.hops && ns == Neighbours(g, u)
    requires n == if ns[k] in t.hops then t else Discover(t, u, ns[k])
    ensures Scan(g, src, n, head, ns, k + 1)
  {
    if ns[k] in t.hops {
      ScanSkip(g, src, t, head, ns, k);
    } else {
      ScanDiscover(g, src, t, head, ns, k);
    }
  }

  lemma SearchStarts(g: Graph, src: string)
    ensures Inv(g, src, Search([src], map[src := 0]), 0)
    ensures Mirrors([Queued(src, 0)], Search([src], map[src := 0]), 0)
  {
    var s := Search([src], map[src := 0]);
    assert IsPath(g, [src], src, src);
    assert Reached(g, src, s, src);
  }

  /** The queue's front is the next node of the order and has not been expanded. */
  lemma Front(g: Graph, src: string, queue: seq<Queued>, s: Search, head: nat)
    requires Inv(g, src, s, head) && Mirrors(queue, s, head) && queue != []
    ensures head < |s.order| && s.order[head] in s.hops && queue[0] == Queued(s.order[head], s.hops[s.order[head]])
    ensures Mirrors(queue[1..], s, head + 1)
    ensures s.order[head] !in s.order[..head]
  {
    assert s.order[head] in Elements(s.order);
    var rest := queue[1..];
    forall i | 0 <= i < |rest| ensures rest[i] == Queued(s.order[head + 1 + i], s.hops[s.order[head + 1 + i]]) {
      assert rest[i] == queue[i + 1];
    }
  }
}
