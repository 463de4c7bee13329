/** What the checkers accept, spelled out. */
module Acceptance {
  import opened Basics
  import opened Graphs
  import opened CommonPlan
  import opened Topology
  import opened MothershipCycle
  import opened RouteValidation
  import PlanExecutor
  import ExecutionChecks
  import PlanChecks
  import CapabilityProfile

  // ----- routes -----

  /** The agent is carried by node `u`, the first one that carries it. */
  ghost predicate CarriedBy(t: Config, agent: string, u: string) {
    exists k :: 0 <= k < |t.nodes| && t.nodes[k].agentId == Some(agent) && t.nodes[k].nodeId == u
                && forall j :: 0 <= j < k ==> t.nodes[j].agentId != Some(agent)
  }

  /** `p` is the agent's parent, the first one listed for it. */
  ghost predicate ParentIs(t: Config, agent: string, p: string) {
    exists k :: 0 <= k < |t.dependencies| && t.dependencies[k] == Dependency(p, agent)
                && forall j :: 0 <= j < k ==> t.dependencies[j].child != agent
  }

  /** The agent's parent is carried by node `u`. */
  ghost predicate ParentAt(t: Config, agent: string, u: string) {
    exists p :: ParentIs(t, agent, p) && CarriedBy(t, p, u)
  }

  lemma CarriedExactly(t: Config, agent: string, u: string)
    ensures AgentNode(t.nodes, agent) == Some(u) <==> CarriedBy(t, agent, u)
  {
    if CarriedBy(t, agent, u) {
      var k :| 0 <= k < |t.nodes| && t.nodes[k].agentId == Some(agent) && t.nodes[k].nodeId == u
               && forall j :: 0 <= j < k ==> t.nodes[j].agentId != Some(agent);
      AgentNodeIsFirst(t.nodes, agent, k);
    }
    if AgentNode(t.nodes, agent) == Some(u) {
      var n :| n in t.nodes && n.agentId == Some(agent);
      var i :| 0 <= i < |t.nodes| && t.nodes[i] == n;
      var k := FirstCarrier(t, agent, i);
      AgentNodeIsFirst(t.nodes, agent, k);
    }
  }

  lemma {:induction false} FirstCarrier(t: Config, agent: string, i: nat) returns (k: nat)
    requires i < |t.nodes| && t.nodes[i].agentId == Some(agent)
    ensures k <= i && t.nodes[k].agentId == Some(agent) && forall j :: 0 <= j < k ==> t.nodes[j].agentId != Some(agent)
  {
    k := i;
    if j: nat :| j < i && t.nodes[j].agentId == Some(agent) {
      k := FirstCarrier(t, agent, j);
    }
  }

  lemma {:induction false} FirstDependency(t: Config, agent: string, i: nat) returns (k: nat)
    requires i < |t.dependencies| && t.dependencies[i].child == agent
    ensures k <= i && t.dependencies[k].child == agent && forall j :: 0 <= j < k ==> t.dependencies[j].child != agent
  {
    k := i;
    if j: nat :| j < i && t.dependencies[j].child == agent {
      k := FirstDependency(t, agent, j);
    }
  }

  lemma ParentAgentExactly(t: Config, agent: string, p: string)
    ensures ParentAgent(t.dependencies, agent) == Some(p) <==> ParentIs(t, agent, p)
  {
    if ParentIs(t, agent, p) {
      var k :| 0 <= k < |t.dependencies| && t.dependencies[k] == Dependency(p, agent)
               && forall j :: 0 <= j < k ==> t.dependencies[j].child != agent;
      ParentAgentIsFirst(t.dependencies, agent, k);
    }
    if ParentAgent(t.dependencies, agent) == Some(p) {
      var i :| 0 <= i < |t.dependencies| && t.dependencies[i] == Dependency(p, agent);
      var k := FirstDependency(t, agent, i);
      ParentAgentIsFirst(t.dependencies, agent, k);
    }
  }

  lemma ParentExactly(t: Config, agent: string, u: string)
    ensures ParentNode(t, agent) == Some(u) <==> ParentAt(t, agent, u)
  {
    if ParentNode(t, agent) == Some(u) {
      var p := ParentAgent(t.dependencies, agent).value;
      ParentAgentExactly(t, agent, p);
      CarriedExactly(t, p, u);
    }
    if p :| ParentIs(t, agent, p) && CarriedBy(t, p, u) {
      ParentAgentExactly(t, agent, p);
      CarriedExactly(t, p, u);
    }
  }

  /** The way for the kind of topology: in a mothership topology the least route to the parent's
      node and the least route on from there, unless the parent sits on the target itself;
      otherwise the least route. */
  ghost predicate WayTo(t: Config, from: string, target: string, agent: string, via: Path) {
    if t.kind.Mothership? && exists u :: ParentAt(t, agent, u) && u != target then
      exists u, up, down :: ParentAt(t, agent, u) && ByWayOf(t, from, u, target, up, down, via)
    else IsLeastRoute(t, via, from, target)
  }

  ghost predicate ByWayOf(t: Config, from: string, u: string, target: string, up: Path, down: Path, via: Path) {
    IsLeastRoute(t, up, from, u) && IsLeastRoute(t, down, u, target) && via == up + down[1..]
  }

  lemma LeastExactly(t: Config, src: string, dst: string, p: Path)
    ensures LeastRoute(t, src, dst) == Some(p) <==> IsLeastRoute(t, p, src, dst)
  {
    if IsLeastRoute(t, p, src, dst) {
      LeastRouteIsLeast(t, src, dst);
      LeastRouteUnique(t, p, LeastRoute(t, src, dst).value, src, dst);
    }
  }

  lemma ByWayExactly(t: Config, from: string, u: string, target: string, via: Path)
    ensures (exists up, down :: ByWayOf(t, from, u, target, up, down, via)) <==>
            var up, down := LeastRoute(t, from, u), LeastRoute(t, u, target);
            up.Some? && down.Some? && |down.value| > 0 && via == up.value + down.value[1..]
  {
    var first, second := LeastRoute(t, from, u), LeastRoute(t, u, target);
    if first.Some? && second.Some? && |second.value| > 0 && via == first.value + second.value[1..] {
      LeastExactly(t, from, u, first.value);
      LeastExactly(t, u, target, second.value);
      assert ByWayOf(t, from, u, target, first.value, second.value, via);
    }
    if up, down :| ByWayOf(t, from, u, target, up, down, via) {
      LeastExactly(t, from, u, up);
      LeastExactly(t, u, target, down);
    }
  }

  lemma WayExactly(t: Config, from: string, target: string, agent: string, via: Path)
    ensures PathForKind(t, from, target, agent) == Some(via) <==> WayTo(t, from, target, agent, via)
  {
    var parent := ParentNode(t, agent);
    forall u ensures ParentAt(t, agent, u) <==> parent == Some(u) {
      ParentExactly(t, agent, u);
    }
    if t.kind.Mothership? && parent.Some? && parent.value != target {
      assert ParentAt(t, agent, parent.value);
      ByWayExactly(t, from, parent.value, target, via);
    } else {
      LeastExactly(t, from, target, via);
    }
  }

  predicate IsNode(t: Config, id: string) {
    exists n :: n in t.nodes && n.nodeId == id
  }

  /** The way for the kind of topology, past the node of the agent's parent. */
  ghost predicate SoundOpen(t: Config, route: Route, target: string) {
    && WayTo(t, route.from, target, route.to, route.via)
    && forall u :: ParentAt(t, route.to, u) ==> u in route.via
  }

  /** Known nodes only, a reason, and no way. */
  ghost predicate SoundBlocked(t: Config, route: Route, target: string) {
    && (forall id :: id in route.via ==> IsNode(t, id)) && !IsBlank(ReasonText(route.reason))
    && forall via :: !WayTo(t, route.from, target, route.to, via)
  }

  ghost predicate SoundTo(t: Config, route: Route, target: string) {
    && CarriedBy(t, route.to, target)
    && if route.allowed then SoundOpen(t, route, target) else SoundBlocked(t, route, target)
  }

  /** What the checker accepts of one route: it starts at a node and goes to an agent that a node
      carries, and is rightly open or rightly blocked. */
  ghost predicate SoundRoute(t: Config, route: Route) {
    IsNode(t, route.from) && exists target :: SoundTo(t, route, target)
  }

  lemma OpenExactly(t: Config, route: Route, target: string)
    ensures SoundOpen(t, route, target) <==>
            && PathForKind(t, route.from, target, route.to) == Some(route.via)
            && (ParentNode(t, route.to).Some? ==> ParentNode(t, route.to).value in route.via)
  {
    WayExactly(t, route.from, target, route.to, route.via);
    forall u ensures ParentAt(t, route.to, u) <==> ParentNode(t, route.to) == Some(u) {
      ParentExactly(t, route.to, u);
    }
  }

  lemma BlockedExactly(t: Config, route: Route, target: string)
    ensures SoundBlocked(t, route, target) <==>
            && (forall id :: id in route.via ==> id in NodeIds(t)) && !Unreasoned(route.reason)
            && PathForKind(t, route.from, target, route.to).None?
  {
    UnreasonedIsBlank(route.reason);
    assert forall id :: id in NodeIds(t) <==> IsNode(t, id);
    forall via ensures PathForKind(t, route.from, target, route.to) == Some(via) <==>
                       WayTo(t, route.from, target, route.to, via) {
      WayExactly(t, route.from, target, route.to, via);
    }
  }

  lemma SoundExactly(t: Config, route: Route)
    ensures RouteJustified(t, route) <==> SoundRoute(t, route)
  {
    assert route.from in NodeIds(t) <==> IsNode(t, route.from);
    forall u ensures CarriedBy(t, route.to, u) <==> AgentNode(t.nodes, route.to) == Some(u) {
      CarriedExactly(t, route.to, u);
    }
    if AgentNode(t.nodes, route.to).Some? {
      var target := AgentNode(t.nodes, route.to).value;
      OpenExactly(t, route, target);
      BlockedExactly(t, route, target);
      assert RouteJustified(t, route) <==> IsNode(t, route.from) && SoundTo(t, route, target);
    }
  }

  // ----- topologies -----

  ghost predicate LinkEndsKnown(t: Config, l: Link) {
    IsNode(t, l.from) && IsNode(t, l.to)
  }

  /** Leads from parent to child, round to where it began. */
  ghost predicate Circle(dependencies: seq<Dependency>, walk: seq<string>) {
    && |walk| > 1 && walk[0] == walk[|walk| - 1]
    && forall i :: 0 <= i < |walk| - 1 ==> Dependency(walk[i], walk[i + 1]) in dependencies
  }

  ghost predicate ServedAgent(t: Config, routes: seq<Route>, a: string) {
    (exists u :: CarriedBy(t, a, u)) &&
    exists k :: 0 <= k < |routes| && routes[k].to == a && routes[k].from == t.gcsNodeId
  }

  /** Assumptions are stated, no two nodes share an id, and the ground station and all ends of
      links are nodes. */
  ghost predicate SoundNet(t: Config) {
    && !IsBlank(t.hardwareBoundary)
    && (forall i, j :: 0 <= i < j < |t.nodes| ==> t.nodes[i].nodeId != t.nodes[j].nodeId)
    && IsNode(t, t.gcsNodeId) && forall l :: l in t.links ==> LinkEndsKnown(t, l)
  }

  /** The dependencies are among the agents and never go round in a circle. */
  ghost predicate SoundDependencies(t: Config, agents: seq<string>) {
    && (forall d :: d in t.dependencies ==> d.parent in agents && d.child in agents)
    && forall walk :: !Circle(t.dependencies, walk)
  }

  /** A sound topology whose agents are all served, with sound routes only. */
  ghost predicate SoundTopology(t: Config, agents: seq<string>, routes: seq<Route>) {
    && SoundNet(t) && SoundDependencies(t, agents)
    && (forall a :: a in agents ==> ServedAgent(t, routes, a))
    && (forall k :: 0 <= k < |routes| ==> SoundRoute(t, routes[k]))
  }

  lemma CircleIsCycle(dependencies: seq<Dependency>, walk: seq<string>)
    requires |walk| > 0
    ensures Circle(dependencies, walk) <==> IsCycle(GraphOf(dependencies), walk, walk[0])
  {
    GraphOfEdges(dependencies);
    assert forall u, v :: DependsOn(dependencies, u, v) <==> Dependency(u, v) in dependencies;
  }

  lemma AcyclicExactly(dependencies: seq<Dependency>)
    ensures Acyclic(GraphOf(dependencies)) <==> forall walk :: !Circle(dependencies, walk)
  {
    if c, q :| IsCycle(GraphOf(dependencies), q, c) {
      CircleIsCycle(dependencies, q);
    }
    if walk :| Circle(dependencies, walk) {
      CircleIsCycle(dependencies, walk);
    }
  }

  lemma ServedExactly(t: Config, routes: seq<Route>, a: string)
    ensures ServedAgent(t, routes, a) <==> AgentNode(t.nodes, a).Some? && HasCentralRoute(t, routes, a)
  {
    if AgentNode(t.nodes, a).Some? {
      CarriedExactly(t, a, AgentNode(t.nodes, a).value);
    }
    if u :| CarriedBy(t, a, u) {
      CarriedExactly(t, a, u);
    }
  }

  lemma NodesExactly(t: Config)
    ensures Distinct(NodeIdSeq(t)) <==>
            forall i, j :: 0 <= i < j < |t.nodes| ==> t.nodes[i].nodeId != t.nodes[j].nodeId
    ensures forall id :: id in NodeIds(t) <==> IsNode(t, id)
  {
    var ids := NodeIdSeq(t);
    assert forall i :: 0 <= i < |ids| ==> ids[i] == t.nodes[i].nodeId;
  }

  lemma NetExactly(t: Config)
    ensures BasicsOk(t) <==> SoundNet(t)
  {
    NodesExactly(t);
    assert LinksKnown(t) <==> forall l :: l in t.links ==> LinkEndsKnown(t, l);
  }

  lemma DependenciesExactly(t: Config, agents: seq<string>)
    ensures DependenciesKnown(t, agents) && Acyclic(GraphOf(t.dependencies)) <==> SoundDependencies(t, agents)
  {
    AcyclicExactly(t.dependencies);
  }

  /** The checker accepts exactly the sound topologies. */
  lemma AcceptedExactly(t: Config, agents: seq<string>, routes: seq<Route>)
    ensures Accepted(t, agents, routes) <==> SoundTopology(t, agents, routes)
  {
    NetExactly(t);
    DependenciesExactly(t, agents);
    forall a ensures ServedAgent(t, routes, a) <==>
                     AgentNode(t.nodes, a).Some? && HasCentralRoute(t, routes, a) {
      ServedExactly(t, routes, a);
    }
    forall k | 0 <= k < |routes| ensures RouteJustified(t, routes[k]) <==> SoundRoute(t, routes[k]) {
      SoundExactly(t, routes[k]);
    }
  }

  // ----- execution reports -----

  predicate Failing(r: PlanExecutor.StepResult) {
    r.Rejected? || r.Timeout? || r.TransportFailure?
  }

  /** A plausible report: it is named, has steps, numbered from zero; a success is completed and has
      no failing step, and its retries are told right; anything else is aborted at a step that
      failed. */
  predicate Plausible(r: PlanExecutor.Report) {
    && !IsBlank(r.planId) && r.steps != []
    && (forall i :: 0 <= i < |r.steps| ==> r.steps[i].index == i)
    && match r.overall
       case Completed =>
         r.lifecycle.LifecycleCompleted? && forall i :: 0 <= i < |r.steps| ==> !Failing(r.steps[i].result)
       case Retried(times) =>
         && r.lifecycle.LifecycleCompleted? && times == r.retryCount
         && forall i :: 0 <= i < |r.steps| ==> !Failing(r.steps[i].result)
       case Aborted(at, _) => r.lifecycle.LifecycleAborted? && at < |r.steps| && Failing(r.steps[at].result)
       case Failed(at, _) => r.lifecycle.LifecycleAborted? && at < |r.steps| && Failing(r.steps[at].result)
  }

  lemma {:induction false} NotFound(steps: seq<PlanExecutor.Step>, offset: nat, index: nat)
    requires forall i :: 0 <= i < |steps| ==> steps[i].index == offset + i
    requires index >= offset + |steps|
    ensures ExecutionChecks.FindStep(steps, index).None?
  {
    if steps != [] {
      NotFound(steps[1..], offset + 1, index);
    }
  }

  lemma FailedAtExactly(steps: seq<PlanExecutor.Step>, at: nat)
    requires ExecutionChecks.InOrder(steps)
    ensures ExecutionChecks.FailedAt(steps, at) <==> at < |steps| && Failing(steps[at].result)
  {
    if at < |steps| {
      ExecutionChecks.FindInOrder(steps, 0, at);
    } else {
      NotFound(steps, 0, at);
    }
  }

  /** The report checker finds nothing exactly in plausible reports. */
  lemma ReportPassesExactly(r: PlanExecutor.Report)
    ensures ExecutionChecks.Findings(r) == {} <==> Plausible(r)
  {
    if ExecutionChecks.InOrder(r.steps) && (r.overall.Aborted? || r.overall.Failed?) {
      FailedAtExactly(r.steps, r.overall.atStep);
    }
    FindingsEmpty(r);
  }

  lemma FindingsEmpty(r: PlanExecutor.Report)
    ensures ExecutionChecks.Findings(r) == {} <==>
            && !IsBlank(r.planId) && r.steps != [] && ExecutionChecks.InOrder(r.steps)
            && ExecutionChecks.OutcomeFindings(r) == {}
            && (r.overall.Retried? ==> r.overall.times == r.retryCount)
  {
    var f := ExecutionChecks.Findings(r);
    if IsBlank(r.planId) {
      assert ExecutionChecks.PlanIdMissing in f;
    } else if r.steps == [] {
      assert ExecutionChecks.StepsMissing in f;
    } else if !ExecutionChecks.InOrder(r.steps) {
      assert ExecutionChecks.StepOrder in f;
    } else if r.overall.Retried? && r.overall.times != r.retryCount {
      assert ExecutionChecks.RetryCount in f;
    } else {
      assert f == ExecutionChecks.OutcomeFindings(r);
    }
  }

  // ----- compiled plans -----

  /** Some acknowledgement is expected for the command. */
  predicate Acknowledged(plan: Plan, c: CommonCommand) {
    exists k :: 0 <= k < |plan.expectedAcks| && plan.expectedAcks[k].kind == CommandAck
             && plan.expectedAcks[k].commandId == Some(c.commandId) && plan.expectedAcks[k].command == Some(c.command)
  }

  predicate NoLanding(commands: seq<CommonCommand>) {
    forall i :: 0 <= i < |commands| ==> commands[i].command != NavLand && commands[i].command != NavReturnToLaunch
  }

  /** Every command, the upload and the start have an acknowledgement. */
  predicate AllAcknowledged(plan: Plan) {
    && (forall i :: 0 <= i < |plan.prelude| ==> Acknowledged(plan, plan.prelude[i]))
    && (forall i :: 0 <= i < |plan.postlude| ==> Acknowledged(plan, plan.postlude[i]))
    && (plan.start.Some? ==> Acknowledged(plan, plan.start.value))
    && (plan.items != [] ==> exists k :: 0 <= k < |plan.expectedAcks| && plan.expectedAcks[k].kind == MissionAck)
  }

  predicate RowOfCommand(row: Row, c: CommonCommand) {
    row == Row(Some(c.commandId), None, c.command, c.phase, None, row.classification)
  }

  predicate RowOfItem(row: Row, i: MissionItem) {
    row == Row(Some(i.commandId), Some(i.seqNo), i.command, MissionUpload, Some(i.frame), row.classification)
  }

  /** One row for each prelude command, item, start command and postlude command, in this order. */
  predicate RowsOf(plan: Plan, rows: seq<Row>) {
    var itemsAt := |plan.prelude|;
    var startAt := itemsAt + |plan.items|;
    var postludeAt := startAt + if plan.start.Some? then 1 else 0;
    && |rows| == postludeAt + |plan.postlude|
    && (forall i :: 0 <= i < itemsAt ==> RowOfCommand(rows[i], plan.prelude[i]))
    && (forall i :: itemsAt <= i < startAt ==> RowOfItem(rows[i], plan.items[i - itemsAt]))
    && (plan.start.Some? ==> RowOfCommand(rows[startAt], plan.start.value))
    && (forall i :: postludeAt <= i < |rows| ==> RowOfCommand(rows[i], plan.postlude[i - postludeAt]))
  }

  predicate Settled(c: CompatibilityClass) {
    c != UnknownUntilSitlOrHardware && c != RequiresStackSpecificMapping
  }

  /** The report is for the plan's profile and has its rows, none refused; hardware is not allowed
      when some row is unknown or needs a mapping. */
  predicate SoundCompatibility(plan: Plan, report: CompatibilityReport) {
    && report.profile == plan.backendProfile && RowsOf(plan, report.rows)
    && (forall i :: 0 <= i < |report.rows| ==> report.rows[i].classification != NotSupported)
    && (report.hardwareFacingAllowed ==>
          forall i :: 0 <= i < |report.rows| ==> Settled(report.rows[i].classification))
  }

  /** Items are numbered from zero, nothing lands before they are flown, everything is acknowledged
      and the compatibility report is sound. */
  predicate SoundPlan(plan: Plan) {
    && (forall i :: 0 <= i < |plan.items| ==> plan.items[i].seqNo == i)
    && (plan.items == [] || NoLanding(plan.prelude))
    && AllAcknowledged(plan)
    && plan.compatibility.Some? && SoundCompatibility(plan, plan.compatibility.value)
  }

  lemma AcksExactly(plan: Plan)
    ensures PlanChecks.AcksOk(plan) <==> AllAcknowledged(plan)
  {
    assert forall c :: PlanChecks.CommandCovered(plan.expectedAcks, c) <==> Acknowledged(plan, c);
  }

  lemma RowsExactly(plan: Plan, rows: seq<Row>)
    ensures |rows| == |PlanChecks.ExpectedRows(plan)| && PlanChecks.RowsMatch(rows, PlanChecks.ExpectedRows(plan)) <==>
            RowsOf(plan, rows)
  {
    var expected := PlanChecks.ExpectedRows(plan);
    forall i | 0 <= i < |expected| && i < |rows|
      ensures PlanChecks.RowMatches(rows[i], expected[i]) <==>
              rows[i] == Row(Some(expected[i].commandId), expected[i].seqNo, expected[i].command, expected[i].phase,
                             expected[i].frame, rows[i].classification)
    {
    }
  }

  lemma RowFindingsEmpty(plan: Plan, report: CompatibilityReport)
    ensures PlanChecks.RowFindings(plan, report) == {} <==> SoundCompatibility(plan, report)
  {
    var f, rows := PlanChecks.RowFindings(plan, report), report.rows;
    RowsExactly(plan, rows);
    if plan.backendProfile != report.profile {
      assert PlanChecks.ProfileMismatch in f;
    } else if |rows| != |PlanChecks.ExpectedRows(plan)| {
      assert PlanChecks.RowCount in f;
    } else if !PlanChecks.RowsMatch(rows, PlanChecks.ExpectedRows(plan)) {
      assert PlanChecks.RowMismatch in f;
    } else if i :| 0 <= i < |rows| && rows[i].classification.NotSupported? {
      assert PlanChecks.ProfileUnsupported in f;
    } else if CapabilityProfile.AnyBlocks(rows) && report.hardwareFacingAllowed {
      assert PlanChecks.HardwareBlocking in f;
    } else {
      BlocksExactly(rows);
    }
  }

  lemma BlocksExactly(rows: seq<Row>)
    requires forall i :: 0 <= i < |rows| ==> rows[i].classification != NotSupported
    ensures !CapabilityProfile.AnyBlocks(rows) <==>
            forall i :: 0 <= i < |rows| ==> Settled(rows[i].classification)
  {
  }

  /** The plan checker finds nothing exactly in sound plans. */
  lemma PlanPassesExactly(plan: Plan)
    ensures PlanChecks.Findings(plan) == {} <==> SoundPlan(plan)
  {
    var f := PlanChecks.Findings(plan);
    AcksExactly(plan);
    if plan.compatibility.Some? {
      RowFindingsEmpty(plan, plan.compatibility.value);
    } else {
      assert PlanChecks.ProfileMissing in f;
    }
    if !PlanChecks.SequenceOk(plan) {
      assert PlanChecks.ItemSequence in f;
    } else if !PlanChecks.OrderOk(plan) {
      assert PlanChecks.OrderUnsafe in f;
    } else if !PlanChecks.AcksOk(plan) {
      assert PlanChecks.AckMissing in f;
    } else {
      assert f == PlanChecks.CompatibilityFindings(plan);
    }
  }
}
