/** Depth-first detection of cycles among mothership dependencies. */
module MothershipCycle {
  import opened Basics
  import opened Graphs
  import opened Topology

  /** Parent to children, in the order of the dependency list. */
  predicate DependsOn(dependencies: seq<Dependency>, parent: string, child: string) {
    Dependency(parent, child) in dependencies
  }

  /** A walk that comes back to where it started, over at least one edge. */
  ghost predicate IsCycle(g: Graph, q: Path, c: string) {
    |q| > 1 && IsPath(g, q, c, c)
  }

  ghost predicate LeadsToCycle(g: Graph, a: string, p: Path, c: string, q: Path) {
    IsPath(g, p, a, c) && IsCycle(g, q, c)
  }

  ghost predicate ReachesCycle(g: Graph, a: string) {
    exists p, c, q :: LeadsToCycle(g, a, p, c, q)
  }

  ghost predicate Acyclic(g: Graph) {
    forall c, q :: !IsCycle(g, q, c)
  }

  /** Children of every parent, in the order of the dependency list. */
  function GraphOf(dependencies: seq<Dependency>): Graph {
    if dependencies == [] then map[]
    else
      var g, d := GraphOf(dependencies[..|dependencies| - 1]), dependencies[|dependencies| - 1];
      g[d.parent := (if d.parent in g then g[d.parent] else []) + [d.child]]
  }

  /** The graph has exactly the listed dependencies as edges and the parents as keys. */
  lemma {:induction false} GraphOfEdges(dependencies: seq<Dependency>)
    ensures forall u, v :: Edge(GraphOf(dependencies), u, v) <==> DependsOn(dependencies, u, v)
    ensures forall u :: u in GraphOf(dependencies) <==> exists d :: d in dependencies && d.parent == u
  {
    if dependencies != [] {
      var init, d := dependencies[..|dependencies| - 1], dependencies[|dependencies| - 1];
      GraphOfEdges(init);
      assert dependencies == init + [d];
      var before, g := GraphOf(init), GraphOf(dependencies);
      forall u, v ensures Edge(g, u, v) <==> DependsOn(dependencies, u, v) {
        assert Edge(before, u, v) <==> DependsOn(init, u, v);
      }
    }
  }

  method BuildGraph(dependencies: seq<Dependency>) returns (g: Graph)
    ensures g == GraphOf(dependencies)
  {
    g := map[];
    for k := 0 to |dependencies|
      invariant g == GraphOf(dependencies[..k])
    {
      var d := dependencies[k];
      assert dependencies[..k + 1][..k] == dependencies[..k];
      var children := if d.parent in g then g[d.parent] else [];
      g := g[d.parent := children + [d.child]];
    }
    assert dependencies[..|dependencies|] == dependencies;
  }

  // ----- the search -----

  /** Finished agents in the order they were finished: every child was finished before. */
  ghost predicate FinishOrder(g: Graph, finished: seq<string>) {
    forall i, w :: 0 <= i < |finished| && Edge(g, finished[i], w) ==> w in finished[..i]
  }

  /** The agents on the recursion stack form a walk that ends just before `agent`. */
  ghost predicate StackLeadsTo(g: Graph, stack: seq<string>, agent: string) {
    && (forall i :: 0 <= i < |stack| - 1 ==> Edge(g, stack[i], stack[i + 1]))
    && (stack != [] ==> Edge(g, stack[|stack| - 1], agent))
  }

  ghost predicate DfsState(g: Graph, visiting: set<string>, visited: set<string>, stack: seq<string>,
                           finished: seq<string>)
  {
    && visiting == Elements(stack) && visited == Elements(finished)
    && visiting !! visited && FinishOrder(g, finished)
  }

  /** An agent met again while it is on the stack lies on a cycle. */
  lemma MeetingTheStack(g: Graph, stack: seq<string>, agent: string)
    requires StackLeadsTo(g, stack, agent) && agent in stack
    ensures ReachesCycle(g, agent)
  {
    var i :| 0 <= i < |stack| && stack[i] == agent;
    var q := stack[i..] + [agent];
    forall k | 0 <= k < |q| - 1 ensures Edge(g, q[k], q[k + 1]) {
      if k < |q| - 2 {
        assert Edge(g, stack[i + k], stack[i + k + 1]);
      }
    }
    assert IsPath(g, [agent], agent, agent);
    assert LeadsToCycle(g, agent, [agent], agent, q);
  }

  lemma CycleThroughChild(g: Graph, agent: string, child: string)
    requires Edge(g, agent, child) && ReachesCycle(g, child)
    ensures ReachesCycle(g, agent)
  {
    var p, c, q :| LeadsToCycle(g, child, p, c, q);
    assert IsPath(g, [agent, child], agent, child);
    PathConcat(g, [agent, child], p, agent, child, c);
    assert LeadsToCycle(g, agent, [agent, child] + p[1..], c, q);
  }

  /** Walks from a finished agent only go back in the finish order. */
  lemma {:induction false} WalksGoBack(g: Graph, finished: seq<string>, i: nat, p: Path, dst: string)
    requires FinishOrder(g, finished) && i < |finished| && IsPath(g, p, finished[i], dst)
    ensures dst in finished[..i + 1]
    ensures |p| > 1 ==> dst in finished[..i]
    decreases |p|
  {
    if |p| == 1 {
      assert finished[..i + 1][i] == dst;
    } else {
      PathTail(g, p, finished[i], dst);
      var j :| 0 <= j < i && finished[j] == p[1];
      WalksGoBack(g, finished, j, p[1..], dst);
      var k :| 0 <= k < j + 1 && finished[k] == dst;
      assert finished[..i][k] == dst;
    }
  }

  lemma FinishedReachNoCycle(g: Graph, finished: seq<string>, a: string)
    requires FinishOrder(g, finished) && a in finished
    ensures !ReachesCycle(g, a)
  {
    forall p, c, q | LeadsToCycle(g, a, p, c, q) ensures false {
      var i :| 0 <= i < |finished| && finished[i] == a;
      WalksGoBack(g, finished, i, p, c);
      var j := FirstIndex(finished, c);
      WalksGoBack(g, finished, j, q, c);
    }
  }

  lemma {:induction false} FirstIndex(s: seq<string>, x: string) returns (j: nat)
    requires x in s
    ensures j < |s| && s[j] == x && x !in s[..j]
    decreases |s|
  {
    var last := |s| - 1;
    if x in s[..last] {
      j := FirstIndex(s[..last], x);
      assert s[..last][..j] == s[..j];
    } else {
      j := last;
    }
  }

  lemma FinishAgent(g: Graph, finished: seq<string>, agent: string)
    requires FinishOrder(g, finished)
    requires forall w :: Edge(g, agent, w) ==> w in finished
    ensures FinishOrder(g, finished + [agent])
  {
    var longer := finished + [agent];
    forall i, w | 0 <= i < |longer| && Edge(g, longer[i], w) ensures w in longer[..i] {
      if i < |finished| {
        assert longer[..i] == finished[..i];
      } else {
        assert longer[..i] == finished;
      }
    }
  }

  /** The children of an agent, smallest first. */
  method SortedChildren(g: Graph, agent: string) returns (children: seq<string>)
    requires agent in g
    ensures forall w :: w in children <==> Edge(g, agent, w)
  {
    children := SortBy(g[agent], (x: string) => x);
    forall w ensures w in children <==> w in g[agent] {
      SameElements(children, g[agent], w);
    }
  }

  lemma ChildrenVisited(g: Graph, agent: string, children: seq<string>, visited: set<string>)
    requires forall w :: w in children <==> Edge(g, agent, w)
    requires forall i :: 0 <= i < |children| ==> children[i] in visited
    ensures forall w :: Edge(g, agent, w) ==> w in visited
  {
  }

  /** The recursive search. `true` means a cycle can be reached from `agent`; `false` means
      `agent` and everything below it has been finished and the stack is as before. */
  method DfsCycle(agent: string, g: Graph, visiting: set<string>, visited: set<string>,
                  ghost all: set<string>, ghost stack: seq<string>, ghost finished: seq<string>)
    returns (found: bool, visiting': set<string>, visited': set<string>, ghost finished': seq<string>)
    requires DfsState(g, visiting, visited, stack, finished) && StackLeadsTo(g, stack, agent)
    requires agent in all && forall u, v :: Edge(g, u, v) ==> v in all
    ensures found ==> ReachesCycle(g, agent)
    ensures !found ==> DfsState(g, visiting', visited', stack, finished')
    ensures !found ==> visited <= visited' && agent in visited'
    decreases all - visiting - visited
  {
    visiting', visited', finished' := visiting, visited, finished;
    if agent in visited {
      return false, visiting', visited', finished';
    }
    if agent in visiting {
      MeetingTheStack(g, stack, agent);
      return true, visiting', visited', finished';
    }
    visiting' := visiting' + {agent};
    ghost var deeper := stack + [agent];
    EnterAgent(g, visiting, visited, stack, finished, agent);
    if agent in g {
      var children := SortedChildren(g, agent);
      for k := 0 to |children|
        invariant DfsState(g, visiting', visited', deeper, finished') && visiting' == visiting + {agent}
        invariant visited <= visited'
        invariant forall i :: 0 <= i < k ==> children[i] in visited'
      {
        assert children[k] in children && Edge(g, agent, children[k]);
        DeeperStack(g, stack, agent, children[k]);
        FewerLeft(all, visiting, visited, visited', agent);
        found, visiting', visited', finished' :=
          DfsCycle(children[k], g, visiting', visited', all, deeper, finished');
        if found {
          CycleThroughChild(g, agent, children[k]);
          return true, visiting', visited', finished';
        }
      }
      ChildrenVisited(g, agent, children, visited');
    }
    LeaveAgent(g, visiting, visited', stack, finished', agent);
    visiting' := visiting' - {agent};
    visited' := visited' + {agent};
    finished' := finished' + [agent];
    found := false;
  }

  lemma EnterAgent(g: Graph, visiting: set<string>, visited: set<string>, stack: seq<string>,
                   finished: seq<string>, agent: string)
    requires DfsState(g, visiting, visited, stack, finished) && agent !in visiting && agent !in visited
    ensures DfsState(g, visiting + {agent}, visited, stack + [agent], finished)
  {
    assert Elements(stack + [agent]) == Elements(stack) + {agent};
  }

  lemma LeaveAgent(g: Graph, visiting: set<string>, visited: set<string>, stack: seq<string>,
                   finished: seq<string>, agent: string)
    requires DfsState(g, visiting + {agent}, visited, stack + [agent], finished)
    requires agent !in visiting && visiting == Elements(stack)
    requires forall w :: Edge(g, agent, w) ==> w in visited
    ensures visiting + {agent} - {agent} == visiting
    ensures DfsState(g, visiting, visited + {agent}, stack, finished + [agent])
  {
    FinishAgent(g, finished, agent);
    assert Elements(finished + [agent]) == Elements(finished) + {agent};
  }

  /** The measure of the search: agents neither finished nor on the stack. */
  lemma FewerLeft(all: set<string>, visiting: set<string>, visited: set<string>, visited': set<string>, agent: string)
    requires agent in all && agent !in visiting && agent !in visited && visited <= visited'
    ensures all - (visiting + {agent}) - visited' < all - visiting - visited
  {
    assert agent in all - visiting - visited;
  }

  lemma DeeperStack(g: Graph, stack: seq<string>, agent: string, child: string)
    requires StackLeadsTo(g, stack, agent) && Edge(g, agent, child)
    ensures StackLeadsTo(g, stack + [agent], child)
  {
    var deeper := stack + [agent];
    forall i | 0 <= i < |deeper| - 1 ensures Edge(g, deeper[i], deeper[i + 1]) {
      if i < |stack| - 1 {
        assert Edge(g, stack[i], stack[i + 1]);
      }
    }
  }

  /** `a` is the smallest parent from which the dependencies lead into a cycle. */
  ghost predicate FirstOnWayToCycle(g: Graph, a: string) {
    && a in g && ReachesCycle(g, a)
    && forall b :: b in g && ReachesCycle(g, b) ==> a == b || Less(a, b)
  }

  /** `None` exactly when the dependencies are acyclic; otherwise the smallest parent that
      reaches a cycle, whatever the order of the dependency list. */
  method HasMothershipCycle(dependencies: seq<Dependency>) returns (r: Option<string>)
    ensures r.None? <==> Acyclic(GraphOf(dependencies))
    ensures r.Some? ==> FirstOnWayToCycle(GraphOf(dependencies), r.value)
  {
    var graph := BuildGraph(dependencies);
    var starts := SortedKeys(graph);
    var visiting: set<string>, visited: set<string> := {}, {};
    ghost var finished: seq<string> := [];
    ghost var all := graph.Keys + (set u, v | u in graph && v in graph[u] :: v);
    for k := 0 to |starts|
      invariant DfsState(graph, visiting, visited, [], finished)
      invariant forall i :: 0 <= i < k ==> starts[i] in visited
    {
      var found;
      assert starts[k] in graph;
      ghost var before := finished;
      found, visiting, visited, finished := DfsCycle(starts[k], graph, visiting, visited, all, [], finished);
      if found {
        FirstStart(graph, starts, k, before);
        SomeCycle(graph, starts[k]);
        return Some(starts[k]);
      }
    }
    assert forall u :: u in graph ==> u in starts;
    AllFinishedAcyclic(graph, finished);
    r := None;
  }

  /** The keys, listed in whatever order the map yields them and then sorted. */
  method SortedKeys(g: Graph) returns (r: seq<string>)
    ensures StrictlyAscending(r)
    ensures forall u :: u in r <==> u in g
  {
    var keys, rest := [], g.Keys;
    while rest != {}
      invariant forall u :: u in g <==> u in rest || u in keys
      invariant Distinct(keys) && forall u :: u in keys ==> u !in rest
      decreases rest
    {
      var u :| u in rest;
      keys, rest := keys + [u], rest - {u};
    }
    r := SortBy(keys, (x: string) => x);
    forall u ensures u in r <==> u in keys {
      SameElements(r, keys, u);
    }
    SortedDistinct(r, keys);
  }

  lemma SortedDistinct(r: seq<string>, keys: seq<string>)
    requires Ascending(r, (x: string) => x) && multiset(r) == multiset(keys) && Distinct(keys)
    ensures StrictlyAscending(r)
  {
    forall i, j | 0 <= i < j < |r| ensures Less(r[i], r[j]) {
      assert NotBefore(r[i], r[j]);
      if r[i] == r[j] {
        CountTwice(r, i, j);
        CountOnce(keys, r[i]);
      }
    }
  }

  lemma FirstStart(g: Graph, starts: seq<string>, k: nat, finished: seq<string>)
    requires StrictlyAscending(starts) && (forall u :: u in starts <==> u in g)
    requires k < |starts| && FinishOrder(g, finished) && ReachesCycle(g, starts[k])
    requires forall i :: 0 <= i < k ==> starts[i] in finished
    ensures FirstOnWayToCycle(g, starts[k])
  {
    forall b | b in g && ReachesCycle(g, b) ensures starts[k] == b || Less(starts[k], b) {
      var j :| 0 <= j < |starts| && starts[j] == b;
      if j < k {
        FinishedReachNoCycle(g, finished, b);
      }
    }
  }

  lemma SomeCycle(g: Graph, a: string)
    requires ReachesCycle(g, a)
    ensures !Acyclic(g)
  {
    var p, c, q :| LeadsToCycle(g, a, p, c, q);
    assert IsCycle(g, q, c);
  }

  lemma AllFinishedAcyclic(g: Graph, finished: seq<string>)
    requires FinishOrder(g, finished) && forall u :: u in g ==> u in finished
    ensures Acyclic(g)
  {
    forall c, q | IsCycle(g, q, c) ensures false {
      assert Edge(g, q[0], q[0 + 1]);
      assert IsPath(g, [c], c, c) && LeadsToCycle(g, c, [c], c, q);
      FinishedReachNoCycle(g, finished, c);
    }
  }
}
