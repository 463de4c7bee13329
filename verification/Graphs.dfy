/** Directed graphs as adjacency lists, their paths, and the order in which a breadth-first
    search with sorted neighbours discovers them. */
module Graphs {
  import opened Basics

  type Graph = map<string, seq<string>>
  type Path = seq<string>

  predicate Edge(g: Graph, u: string, v: string) {
    u in g && v in g[u]
  }

  /** `p` walks along edges of `g` from `src` to `dst`; a node alone is a path to itself. */
  predicate IsPath(g: Graph, p: Path, src: string, dst: string) {
    && |p| > 0 && p[0] == src && p[|p| - 1] == dst
    && forall i :: 0 <= i < |p| - 1 ==> Edge(g, p[i], p[i + 1])
  }

  lemma PathSnoc(g: Graph, p: Path, src: string, u: string, v: string)
    requires IsPath(g, p, src, u) && Edge(g, u, v)
    ensures IsPath(g, p + [v], src, v)
  {
    var q := p + [v];
    forall i | 0 <= i < |q| - 1 ensures Edge(g, q[i], q[i + 1]) {
      if i < |p| - 1 {
        assert q[i] == p[i] && q[i + 1] == p[i + 1];
      }
    }
  }

  lemma PathInit(g: Graph, p: Path, src: string, dst: string)
    requires IsPath(g, p, src, dst) && |p| > 1
    ensures IsPath(g, p[..|p| - 1], src, p[|p| - 2])
    ensures Edge(g, p[|p| - 2], dst)
    ensures p == p[..|p| - 1] + [dst]
  {
    assert Edge(g, p[|p| - 2], p[|p| - 2 + 1]);
  }

  lemma PathTail(g: Graph, p: Path, src: string, dst: string)
    requires IsPath(g, p, src, dst) && |p| > 1
    ensures IsPath(g, p[1..], p[1], dst)
    ensures Edge(g, src, p[1])
  {
    assert Edge(g, p[0], p[0 + 1]);
    var q := p[1..];
    forall i | 0 <= i < |q| - 1 ensures Edge(g, q[i], q[i + 1]) {
      assert Edge(g, p[i + 1], p[i + 1 + 1]);
    }
  }

  lemma PathConcat(g: Graph, p: Path, q: Path, src: string, mid: string, dst: string)
    requires IsPath(g, p, src, mid) && IsPath(g, q, mid, dst)
    ensures IsPath(g, p + q[1..], src, dst)
  {
    var r := p + q[1..];
    forall i | 0 <= i < |r| - 1 ensures Edge(g, r[i], r[i + 1]) {
      if i < |p| - 1 {
        assert Edge(g, p[i], p[i + 1]);
      } else {
        var k := i - (|p| - 1);
        assert Edge(g, q[k], q[k + 1]);
      }
    }
  }

  // ----- the order on paths -----

  /** `p` and `q` agree before position `i`, where `p` has the smaller identifier. */
  predicate DivergesAt(p: Path, q: Path, i: nat) {
    i < |p| && i < |q| && p[..i] == q[..i] && Less(p[i], q[i])
  }

  /** Shorter first; among equally long paths, lexicographic by node identifier. */
  ghost predicate ShortLex(p: Path, q: Path) {
    |p| < |q| || (|p| == |q| && exists i: nat :: DivergesAt(p, q, i))
  }

  ghost predicate ShortLexEq(p: Path, q: Path) {
    p == q || ShortLex(p, q)
  }

  lemma ShortLexIrreflexive(p: Path)
    ensures !ShortLex(p, p)
  {
    forall i: nat | DivergesAt(p, p, i) ensures false {
      LessIrreflexive(p[i]);
    }
  }

  lemma ShortLexTransitive(p: Path, q: Path, r: Path)
    requires ShortLex(p, q) && ShortLex(q, r)
    ensures ShortLex(p, r)
  {
    if |p| == |q| == |r| {
      var i: nat :| DivergesAt(p, q, i);
      var j: nat :| DivergesAt(q, r, j);
      if i < j {
        assert q[..i] == q[..j][..i] == r[..j][..i] == r[..i];
        assert q[i] == q[..j][i] == r[..j][i] == r[i];
        assert DivergesAt(p, r, i);
      } else if j < i {
        assert p[..j] == p[..i][..j] == q[..i][..j] == q[..j];
        assert p[j] == p[..i][j] == q[..i][j] == q[j];
        assert DivergesAt(p, r, j);
      } else {
        LessTransitive(p[i], q[i], r[i]);
        assert DivergesAt(p, r, i);
      }
    }
  }

  lemma ShortLexEqTransitive(p: Path, q: Path, r: Path)
    requires ShortLexEq(p, q) && ShortLexEq(q, r)
    ensures ShortLexEq(p, r)
  {
    if p != q && q != r {
      ShortLexTransitive(p, q, r);
    }
  }

  lemma ShortLexAsymmetric(p: Path, q: Path)
    requires ShortLex(p, q)
    ensures !ShortLex(q, p)
  {
    if ShortLex(q, p) {
      ShortLexTransitive(p, q, p);
      ShortLexIrreflexive(p);
    }
  }

  /** Extending two ordered paths by any node keeps their order. */
  lemma ShortLexExtend(p: Path, q: Path, x: string, y: string)
    requires ShortLex(p, q)
    ensures ShortLex(p + [x], q + [y])
  {
    if |p| == |q| {
      var i: nat :| DivergesAt(p, q, i);
      assert (p + [x])[..i] == p[..i] && (q + [y])[..i] == q[..i];
      assert DivergesAt(p + [x], q + [y], i);
    }
  }

  /** Extending one path by two ordered nodes orders the extensions. */
  lemma ShortLexBranch(p: Path, x: string, y: string)
    requires Less(x, y)
    ensures ShortLex(p + [x], p + [y])
  {
    assert (p + [x])[..|p|] == p == (p + [y])[..|p|];
    assert DivergesAt(p + [x], p + [y], |p|);
  }

  /** The first path in the order: no path from `src` to `dst` is shorter, and none of the
      equally short ones is lexicographically smaller. */
  ghost predicate IsLeastPath(g: Graph, p: Path, src: string, dst: string) {
    IsPath(g, p, src, dst) && forall q :: IsPath(g, q, src, dst) ==> ShortLexEq(p, q)
  }

  // ----- searching -----

  /** Everything some edge leads to. */
  function Targets(g: Graph): set<string> {
    set u, v | u in g && v in g[u] :: v
  }

  lemma InTargets(g: Graph, u: string, v: string)
    requires Edge(g, u, v)
    ensures v in Targets(g)
  {
  }

  /** Taking the front node off a queue that only grows at its end. */
  lemma FrontMoves(before: seq<string>, after: seq<string>, head: nat)
    requires before <= after && head < |before|
    ensures after[..head + 1] == before[..head] + [before[head]]
    ensures Elements(after[..head + 1]) == Elements(before[..head]) + {before[head]}
  {
  }
}
