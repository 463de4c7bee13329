# Verified model of the drone swarm core

A Dafny model of five parts of the drone swarm system, with proofs that hold for every input,
every acknowledgement, every random draw and every run. `dafny verify dfyconfig.toml` checks
everything.

1. **Command-plane routing and its checker** (`Graphs`, `BreadthFirst`, `Topology`,
   `MothershipCycle`, `PeerRoutes`, `RouteValidation`, `Acceptance`). Commands reach agents over the least of the
   shortest available paths; mothership children are reached through their parent. The checker
   recomputes every route. Planner and checker agree exactly on well-formed input whose routes come past the
   parent.
2. **Task allocation and route planning** (`Fleet`, `Cbba`, `CbbaConvergence`, `CbbaGossip`,
   `CbbaMixed`, `CbbaScores`, `CbbaAllocator`, `Tours`, `RoutePlanner`, `RouteOrder`). The consensus-based auction keeps its invariant
   over every run, reaches an equilibrium in bounded time and merges remote bids as a maximum. Routes are
   ordered by nearest neighbour, improved by segment reversal and cut to what the battery allows.
3. **Mission compiler, executor and artifact checks** (`MissionIr`, `CommonPlan`,
   `CapabilityProfile`, `PlanCompiler`, `MavlinkCompiler`, `CompiledPlans`, `PlanContents`, `PlanExecutor`,
   `ExecutionOutcomes`, `ExecutionChecks`, `PlanChecks`, `PlanExamples`). A mission becomes a phased MAVLink Common plan
   (prelude, upload, start, postlude), is executed against arbitrary acknowledgements, and plan and report are judged
   independently.
4. **Simulated mesh network** (`HopSearch`, `HopScan`, `Connectivity`, `Network`, `NetworkHistory`,
   `InMemNetwork`). Two breadth-first searches agree on hop counts; the delayed, lossy bus conserves messages and never delivers early.
5. **Run-level trackers** (`SitlProgress`, `SitlReports`, `SwarmProtocol`, `EnvelopeIds`, `DroneAgent`,
   `DroneAgentLoop`, `DroneReplies`). Mission progress, duplicate suppression and the agent loop are each a
   function of their event history.

`Basics` holds shared vocabulary. Where the source changes things step by step, the model is a
class or a method with a loop, proved against a function of the old state. Those functions are in
turn characterised without naming them, in terms of poses, plans, links and event histories
(`Acceptance`, `CbbaScores`, `Tours`, `RouteOrder`, `PlanContents`, `ExecutionOutcomes`,
`NetworkHistory`, `SitlReports`, `DroneReplies`).

## What the proofs turned up

- The checker demands the parent on every route, while the planner forces it only in mothership
  topologies. `RouteValidation.ShortcutRefused` gives a relay topology whose own plan is refused,
  and `RouteValidation.PlannerAndCheckerAgree` gives the exact condition for agreement.
- Route ids join node and agent with a colon, and the planner passes over a pair whose id is taken.
  With colons in names two pairs can share an id; `PeerRoutes.PairPassedOver` shows a plan that lacks
  a route, `PeerRoutes.AllPairsExactly` is the exact condition.
- A mission that lands before its first item compiles to a plan that the artifact checks call
  unsafe (`PlanExamples.LandThenFly`); `PlanChecks.CompiledPlansPass` shows that this is the only
  finding and exactly when it appears.
- The phases of a plan keep the source order exactly for staged missions
  (`CompiledPlans.PlanOrderExactly`); `PlanExamples.FlyThenArm` is a mission that does not.
- A bid received in the name of a local agent for a task unknown here leaves that agent on record
  without the task, so it may bid again lower: `CbbaMixed.RebidFalls`, with the exact conditions in
  `CbbaMixed.UnheldExactly` and `CbbaMixed.BidFallsExactly`.
- With the legacy battery model a prefix can drain more than the whole route when the last task has
  no position (`RoutePlanner.ShorterDrainsMore`); `RoutePlanner.LegacyPrefixExactly` is the exact
  condition.
- Segment reversal never moves the first stop (`RoutePlanner.TwoOpt`).
- A failure reason outlives a later success: a completed mission report can carry one
  (`SitlProgress.ReasonMeansFailure`, `SitlProgress.StaleReason`).
- A duplicate window of zero behaves like a window of one, and a suppressed copy does not renew the
  memory of its identifier (`SwarmProtocol.SeenAreLatest`, `SwarmProtocol.SuppressedExactly`).
- An agent that starts again reuses its envelope identifiers, and peers drop them as duplicates
  (`DroneAgent.RestartCollides`, `DroneAgent.SameIdRepeats`).
- A partition given at construction with the larger id first blocks nothing
  (`Network.ReversedPairBlocksNothing`).

## Reading conventions

- Floating-point numbers are `real`; a negative infinite score is `None`. Distances are function
  parameters, required to be a metric only where a proof needs it.
- Iteration over hash maps and sets is a nondeterministic choice; theorems hold for every order.
- Random draws, link answers, acknowledgements and polled traffic are arbitrary parameters.
- Identifiers are strings in code point order, which is also the byte order of UTF-8.
- Errors of the source are `Result`, `Option` or `Outcome` values; nothing the source handles is
  excluded by a precondition.
- Fixed texts are values of a datatype with a function that spells them out (`Topology.ReasonText`,
  `CommonPlan.RuleText`, `PlanExecutor.CauseText`, `PlanExecutor.Rendered`).

## Model

| member | source | states |
|---|---|---|
| `BreadthFirst.PathsAreCovered` | crates/swarm-command-plane/src/topology.rs:276-301 | at every moment of the search each path from the source is matched by a tree path that is no larger in length-then-lexicographic order, or lies beyond the front of the queue |
| `BreadthFirst.FrontIsLeast` | crates/swarm-command-plane/src/topology.rs:276-301 | the tree path of the node at the front of the queue is the least of all paths to it |
| `BreadthFirst.EmptyQueueIsComplete` | crates/swarm-command-plane/src/topology.rs:276-304 | when the queue runs empty, a node not in the tree has no path at all |
| `BreadthFirst.ReconstructPath` | crates/swarm-command-plane/src/topology.rs:317-333 | following the predecessor map back from the target and reversing gives exactly the tree path |
| `BreadthFirst.FindPath` | crates/swarm-command-plane/src/topology.rs:254-304 | over sorted neighbour lists the search returns the lexicographically least of the shortest paths, and nothing only when there is no path |
| `Topology.BuildAdjacency` | crates/swarm-command-plane/src/topology.rs:254-275 | an edge of the graph is exactly a hop: an available link from one available node to another; neighbour lists are sorted and free of repeats |
| `Topology.BfsPath` | crates/swarm-command-plane/src/topology.rs:254-304 | the result is the least route over available links between available nodes, none exactly when no route exists |
| `Topology.RouteIgnoresPresentation` | crates/swarm-command-plane/src/topology.rs:254-304 | two topologies with the same available nodes and links, however listed or repeated, have the same route between any two nodes |
| `Topology.RoutePathForKind` | crates/swarm-command-plane/src/topology.rs:190-208 | the path for a kind: the least route, or in a mothership topology the least route to the parent followed by the least route from it; nothing is returned only when no route leads there at all |
| `Topology.RouteBetween` | crates/swarm-command-plane/src/topology.rs:115-156 | the whole route record is the one determined by the topology: allowed flag, via list, degraded mark and reason; it is blocked only when no node carries the agent or no route leads there at all |
| `Topology.AllowedRoutesAreRoutes` | crates/swarm-command-plane/src/topology.rs:115-208 | an allowed route leads from source to target over available links, and past the mothership parent where there is one |
| `Topology.AddAllPeerRoutes` | crates/swarm-command-plane/src/topology.rs:85-110 | every added route joins two different agent nodes, nothing already there is touched, the id of every ordered pair of agent nodes is taken afterwards, and no id is added twice |
| `Topology.RouteCommandPlan` | crates/swarm-command-plane/src/topology.rs:77-113 | one route from the ground station per agent in order, and in a peer-to-peer topology routes between agent nodes under the same promises on ids |
| `PeerRoutes.AllPairsExactly` | crates/swarm-command-plane/src/topology.rs:85-110 | every ordered pair of agent nodes has its own route in the plan exactly when no two routes that are due share an id |
| `PeerRoutes.NoColonSeparates` | crates/swarm-command-plane/src/topology.rs:115-121 | no two routes share an id when no agent name contains a colon, whatever the node names |
| `PeerRoutes.PairPassedOver` | crates/swarm-command-plane/src/topology.rs:98-107 | a two-node topology, with colons in names, whose plan lacks one of the two routes |
| `MothershipCycle.BuildGraph` | crates/swarm-command-plane/src/topology.rs:210-216 | the graph built from the dependency list is the specified one |
| `MothershipCycle.GraphOfEdges` | crates/swarm-command-plane/src/topology.rs:210-216 | its edges are exactly the listed parent-child dependencies, its keys exactly the parents |
| `MothershipCycle.MeetingTheStack` | crates/swarm-command-plane/src/topology.rs:228-240 | meeting an agent that is still being visited means that agent reaches a cycle |
| `MothershipCycle.FinishedReachNoCycle` | crates/swarm-command-plane/src/topology.rs:241-252 | an agent that was finished reaches no cycle: every walk from it goes back in finishing order |
| `MothershipCycle.FewerLeft` | crates/swarm-command-plane/src/topology.rs:228-252 | the agents neither visiting nor visited strictly decrease from call to call, which is why the search ends |
| `MothershipCycle.DfsCycle` | crates/swarm-command-plane/src/topology.rs:228-252 | found only if the agent reaches a cycle; otherwise the agent is finished and the bookkeeping is restored |
| `MothershipCycle.HasMothershipCycle` | crates/swarm-command-plane/src/topology.rs:210-226 | none exactly when the dependency graph is acyclic; a returned agent is the smallest parent from which a cycle can be reached |
| `Topology.DegradedExactly` | crates/swarm-command-plane/src/topology.rs:306-315 | of the planned routes, an allowed one is marked degraded exactly when an available link from one of its nodes to the next has a positive drop rate; a route that is not allowed is marked degraded and leads nowhere |
| `Topology.AgentNodeIsFirst` | crates/swarm-command-plane/src/topology.rs:158-167 | an agent's node is that of the first node listed as carrying it |
| `Topology.ParentAgentIsFirst` | crates/swarm-command-plane/src/topology.rs:169-178 | an agent's parent is that of the first dependency listed for it |
| `RouteValidation.ValidateCommandRoute` | crates/swarm-command-plane/src/validation.rs:246-313 | accepts exactly the routes justified by recomputation (known source and target; when allowed the recomputed path, past the parent; when blocked known nodes, a stated reason and no route at all), and each error names a defect the route has |
| `Topology.UnreasonedIsBlank` | crates/swarm-command-plane/src/validation.rs:274-278 | a route counts as given without reason exactly when the text of its reason is blank; the planner's own reasons never are |
| `RouteValidation.PlannerRouteJustified` | crates/swarm-command-plane/src/validation.rs:246-313 | the planner's own route passes the checker exactly when source and target are known and the path comes past the target's parent |
| `RouteValidation.JustifiedRoutesAreReal` | crates/swarm-command-plane/src/validation.rs:246-313 | any allowed route that passes is a real route over available links, past the parent if there is one, and the least one unless a mothership detour applies |
| `RouteValidation.ParentAlwaysOnTheWay` | crates/swarm-command-plane/src/topology.rs:190-208 | in a mothership topology, and without dependencies, every allowed planned route has the target's parent among its nodes |
| `RouteValidation.ValidateTopology` | crates/swarm-command-plane/src/validation.rs:167-244 | accepts exactly when nodes are distinct, the ground station is known, links and dependencies are known, every agent has a node and a route from the ground station, every route is justified and the dependencies are acyclic; a refusal names the first thing that is wrong, in the order of the checks |
| `RouteValidation.PlannerAndCheckerAgree` | crates/swarm-command-plane/src/validation.rs:167-313 | for every planner output: accepted exactly when the input is well formed and each route comes past its agent's parent |
| `RouteValidation.BypassRefused` | crates/swarm-command-plane/src/validation.rs:304-311 | any planned route that is let through and misses the parent is refused by the checker |
| `RouteValidation.ShortcutRefused` | crates/swarm-command-plane/src/validation.rs:286-313 | a concrete relay topology whose planned route its own checker refuses, because the parent is demanded outside mothership topologies as well |
| `Acceptance.WayExactly` | crates/swarm-command-plane/src/topology.rs:190-208 | the path for a kind, in terms of nodes, dependencies and links: by way of the node of the first listed parent, joined from two least routes, or the least route |
| `Acceptance.SoundExactly` | crates/swarm-command-plane/src/validation.rs:246-313 | a route is accepted exactly when it is sound: from a node to an agent some node carries; when allowed it is the way for the kind of topology and comes past the parent; when blocked it names known nodes, has a reason that is not blank, and there is no way |
| `Acceptance.AcceptedExactly` | crates/swarm-command-plane/src/validation.rs:167-244 | a topology with its routes is accepted exactly when it is sound, spelled out: no two nodes share an id, link ends, ground station and agents are there, agents are served, routes are sound, and no dependency walk comes back to where it began |
| `Cbba.BestIsBest` | crates/swarm-alloc/src/cbba.rs:118-146 | the chosen task is eligible and no eligible task scores higher; none is chosen exactly when none is eligible; what eligible and score mean is fixed by CbbaScores.OpenIsEligible and CbbaScores.ScoreIsWorth |
| `CbbaScores.ScoreIsWorth` | crates/swarm-alloc/src/cbba.rs:83-108 | an able agent scores a task at battery weight times battery, less distance times the distance weight and a tenth for each task held; a task without a pose counts as the origin; without charge, role or a capability there is no score |
| `CbbaScores.OpenIsEligible` | crates/swarm-alloc/src/cbba.rs:124-141 | eligible is exactly: not held, within the agent's abilities, and worth more than what another agent bids for it |
| `CbbaScores.TurnLaw` | crates/swarm-alloc/src/cbba.rs:111-159 | in a turn the first of the open tasks worth the most is claimed, at what it is worth in poses, battery and weights; nothing is claimed exactly when there is no room or nothing open |
| `CbbaScores.TurnsInOrder` | crates/swarm-alloc/src/cbba.rs:111-159 | building bundles is one such turn per agent, in list order, each seeing what those before it claimed |
| `CbbaScores.NearerFirst` | crates/swarm-alloc/src/cbba.rs:83-159 | with a positive distance weight, of two tasks the agent can do the farther one is never claimed while the nearer one is free |
| `CbbaScores.RoundFair` | crates/swarm-alloc/src/cbba.rs:111-328 | in a round, a task newly in a bundle is one its agent is able to do, and a new bid is what the task is worth to its agent |
| `CbbaScores.EveryRunFair` | crates/swarm-alloc/src/cbba.rs:83-328 | over every run: agents hold only tasks they were able to do when the task was claimed (charge, role and capabilities), and every recorded bid is what the task was worth to its agent in some call |
| `CbbaScores.KeptExactly` | crates/swarm-alloc/src/cbba.rs:249-263 | before the turns exactly the bids of current agents for current tasks are left, and of the bundles of current agents exactly the tasks with a bid left |
| `CbbaScores.ConvergedExactly` | crates/swarm-alloc/src/cbba.rs:201-215 | a round is converged exactly when it was and there is nothing to do, when the surviving bids of the round before are the bids now and nothing is rebroadcast, or when the rounds are used up; the bids now are remembered |
| `CbbaScores.RoundCounters` | crates/swarm-alloc/src/cbba.rs:242-311 | the round counter moves on by one, and messages are counted once per agent exactly in the rounds that rebroadcast |
| `CbbaScores.BundlesPlanned` | crates/swarm-alloc/src/cbba.rs:267-295 | after a round every bundle is the planner's answer for its agent's pose and tasks of the call |
| `Cbba.RoundSound` | crates/swarm-alloc/src/cbba.rs:237-328 | every round keeps: each recorded winner holds its task, bundles hold no task twice, respect the size limit and hold only won tasks; afterwards only current agents and tasks appear |
| `Cbba.BidsNeverFall` | crates/swarm-alloc/src/cbba.rs:111-159 | a winning bid never falls in a round while the task and its winner stay in the lists |
| `Cbba.EveryRunSound` | crates/swarm-alloc/src/cbba.rs:237-328 | the invariant over every sequence of calls with changing agent and task lists |
| `CbbaConvergence.PassEffect` | crates/swarm-alloc/src/cbba.rs:111-159 | one pass over the agents either changes nothing, and then nobody could add anything, or grows bundles and changes the bids |
| `CbbaConvergence.RoundAtEquilibrium` | crates/swarm-alloc/src/cbba.rs:237-328 | at equilibrium a round keeps all bids and bundle contents and stays at equilibrium |
| `CbbaConvergence.RoundAwayFromEquilibrium` | crates/swarm-alloc/src/cbba.rs:237-328 | away from equilibrium a round changes the bids and strictly grows the total bundle size |
| `CbbaConvergence.ConvergedMeansEquilibrium` | crates/swarm-alloc/src/cbba.rs:201-215 | convergence is reported exactly at equilibrium with at least one bid, or at the cap on rounds |
| `CbbaConvergence.EquilibriumInTime` | crates/swarm-alloc/src/cbba.rs:237-328 | equilibrium holds after agents times the smaller of bundle limit and task count rounds |
| `CbbaConvergence.StableInTime` | crates/swarm-alloc/src/cbba.rs:237-328 | over every run with fixed lists: from that bound on bids and bundle contents never change, and every further round reports convergence if there is any bid |
| `CbbaGossip.DeliverMerges` | crates/swarm-alloc/src/cbba.rs:163-198 | after any received bids each task's bid is the maximum of the local one and all offers, and no task appears from nowhere |
| `CbbaGossip.OrderDoesNotMatter` | crates/swarm-alloc/src/cbba.rs:163-198 | the merged tasks and bid values depend only on the set of received bids, not on order or repetition |
| `CbbaGossip.RedeliveryChangesNothing` | crates/swarm-alloc/src/cbba.rs:163-198 | delivering any of the same bids again changes neither bids nor bundles |
| `CbbaGossip.OvertakenTaskMoves` | crates/swarm-alloc/src/cbba.rs:175-192 | a higher remote bid takes the task out of the loser's bundle and into the winner's, keeps bundles duplicate-free and touches no other bundle |
| `CbbaMixed.EveryMixedRunTidy` | crates/swarm-alloc/src/cbba.rs:163-198 | over every run mixing rounds and received bids bundles hold no task twice and only won tasks, and after a round only current agents and tasks are left |
| `CbbaMixed.UnheldExactly` | crates/swarm-alloc/src/cbba.rs:171-195 | a received bid leaves a winner that does not hold its task exactly when the task was unknown here, or the bid overtakes and its agent has no bundle here |
| `CbbaMixed.BidFallsExactly` | crates/swarm-alloc/src/cbba.rs:111-159 | in a turn, in any state, a winning bid falls exactly when the agent on record chooses the task again at a lower score |
| `CbbaMixed.RebidMeansUnheld` | crates/swarm-alloc/src/cbba.rs:124-128 | and then that agent did not hold the task |
| `CbbaMixed.HeldTaskIsSafe` | crates/swarm-alloc/src/cbba.rs:237-328 | in any tidy state a task held by its winner is still held after a round in which both stay in the lists, and its bid does not fall |
| `CbbaMixed.RebidFalls` | crates/swarm-alloc/src/cbba.rs:111-198 | a bid that falls: reported from elsewhere in the name of a local agent for a task unknown here |
| `CbbaMixed.ReceiveGrows` | crates/swarm-alloc/src/cbba.rs:176-192 | a received bid lengthens only its own agent's bundle, by one task; the size limit is not looked at |
| `CbbaAllocator.Allocator.BuildBundles` | crates/swarm-alloc/src/cbba.rs:111-159 | the in-place loop over agents and tasks computes one pass of the auction, which CbbaScores.TurnsInOrder and CbbaScores.TurnLaw spell out in poses, batteries and weights |
| `CbbaAllocator.Allocator.ApplyRemoteBids` | crates/swarm-alloc/src/cbba.rs:163-198 | does nothing once converged; otherwise merges the bids of all messages in whatever order the maps give them |
| `CbbaAllocator.Allocator.CheckConvergence` | crates/swarm-alloc/src/cbba.rs:201-215 | the stored and returned flag and the remembered bids are those of the convergence test |
| `CbbaAllocator.Allocator.Allocate` | crates/swarm-alloc/src/cbba.rs:237-328 | one call performs exactly one round and returns exactly the held task-agent pairs; CbbaScores.RoundFair, ConvergedExactly and BundlesPlanned say what a round does |
| `CbbaAllocator.Allocator.CurrentAssignments` | crates/swarm-alloc/src/cbba.rs:218-226 | lists exactly the held task-agent pairs |
| `RoutePlanner.ComputeRouteCost` | crates/swarm-alloc/src/route_planner.rs:7-18 | the loop adds up the distances between consecutive poses, from the start on, as a plain sum over the poses |
| `RoutePlanner.NearestNeighbour` | crates/swarm-alloc/src/route_planner.rs:35-72 | each id comes exactly once, and every stop is at least as near to the previous position as all that come later |
| `RoutePlanner.DistinctIdsPermuted` | crates/swarm-alloc/src/route_planner.rs:35-72 | for distinct task ids that makes the order a permutation of the input |
| `RoutePlanner.TryReversal` | crates/swarm-alloc/src/route_planner.rs:132-143 | a reversal is kept only if it lowers the cost; otherwise the route is unchanged and this reversal gains nothing |
| `RoutePlanner.Pass` | crates/swarm-alloc/src/route_planner.rs:128-146 | a pass permutes the route, never raises the cost, and if it found nothing no scanned reversal lowers the cost |
| `RoutePlanner.TwoOpt` | crates/swarm-alloc/src/route_planner.rs:98-148 | a permutation of the nearest-neighbour start (so of the tasks, for distinct ids), never costlier than it, with the same first stop, locally optimal when a pass found nothing and strictly cheaper when the iteration limit stopped it |
| `RoutePlanner.ComputeBatteryDrain` | crates/swarm-alloc/src/route_planner.rs:211-240 | with a battery model the drain is cruise rate times the closed length over the ground plus climb rate times the closed length in height, both plain sums over consecutive poses and back to the start; without one it is the drain rate times the length in space and the way back from a last task with a pose |
| `RoutePlanner.IsFeasible` | crates/swarm-alloc/src/route_planner.rs:191-207 | feasible exactly when the route is empty, or battery less the drain so spelled out is at least battery times the reserve, the model's where there is one and the planner's otherwise |
| `RoutePlanner.BatteryAware` | crates/swarm-alloc/src/route_planner.rs:174-189 | the remaining tasks are the longest feasible prefix of the known tasks in the inner order, for any inner order, and flying them leaves the reserve; ids are dropped in step, so with known ids the result is exactly those tasks |
| `RoutePlanner.DrainIsSpent` | crates/swarm-alloc/src/route_planner.rs:211-240 | for every route the drain is the closed length over the ground at the cruise rate plus the closed length in height at the climb rate, or the legacy sum |
| `RoutePlanner.FeasibleReturns` | crates/swarm-alloc/src/route_planner.rs:191-207 | feasible means that the reserve is left after the trip |
| `RouteOrder.NearestByPlace` | crates/swarm-alloc/src/route_planner.rs:35-72 | the greedy order in terms of places: from the last place come to, or the start, no later stop is nearer than the next one; a stop without a place is no way off |
| `RouteOrder.ReversedAt` | crates/swarm-alloc/src/route_planner.rs:132-143 | a reversal turns round the stops between its ends, position by position, and leaves all others |
| `RouteOrder.CostOfTour` | crates/swarm-alloc/src/route_planner.rs:103-124 | what 2-opt compares is the length of the walk through the poses and the way back where the last stop has a pose, for the last task listed under each id |
| `RoutePlanner.PrefixDrainsLess` | crates/swarm-alloc/src/route_planner.rs:211-240 | with a metric leg drain no prefix of a round trip drains more than the whole |
| `RoutePlanner.FeasibleExactlyUpTo` | crates/swarm-alloc/src/route_planner.rs:174-240 | with the per-leg model and non-negative rates a prefix is feasible exactly up to the kept length, so the kept set is maximal and the return leg fits the reserve |
| `RoutePlanner.LegacyPrefixExactly` | crates/swarm-alloc/src/route_planner.rs:230-239 | for every metric, start, route and rate: with the legacy model a prefix drains no more than the whole exactly when the rate is zero, the way back is counted for the whole or not for the prefix, or the rest of the route is at least as long as the way back charged to the prefix |
| `RoutePlanner.ShorterDrainsMore` | crates/swarm-alloc/src/route_planner.rs:230-239 | a task away from the start followed by one without position: the first alone drains strictly more than both |
| `MissionIr.Validate` | crates/swarm-mission-ir/src/validation.rs:18-100 | accepts exactly the plans with distinct command ids and valid commands for the frame |
| `PlanCompiler.StagedExactly` | crates/swarm-comms/src/mavlink_common_plan.rs:432-557 | ranks of what is emitted ascend exactly for staged sources: no arm, disarm or takeoff after the first item and no item after a post-item land, return or abort |
| `CompiledPlans.PlanAccounts` | crates/swarm-comms/src/mavlink_common_plan.rs:432-735 | every source command is in the compiled plan exactly once: as one prelude or postlude command, as one or more items, or as one unsupported record, and in no second list |
| `CompiledPlans.PlanHasNoStrays` | crates/swarm-comms/src/mavlink_common_plan.rs:654-735 | everything in the four lists, the fence command aside, carries the id of a source command |
| `CompiledPlans.PhasesInOrder` | crates/swarm-comms/src/mavlink_common_plan.rs:668-721 | prelude, items and postlude of a compiled plan are each in source order, whatever the source |
| `CompiledPlans.PlanOrderExactly` | crates/swarm-comms/src/mavlink_common_plan.rs:432-721 | prelude, items and postlude of a compiled plan, laid end to end, are in source order exactly when the source is staged |
| `PlanContents.RouteFlown` | crates/swarm-comms/src/mavlink_common_plan.rs:517-528 | in every compiled plan a route is a block of items: the k-th is a waypoint at the converted k-th position with that waypoint's radius, in the order given |
| `PlanContents.GoToFlown` | crates/swarm-comms/src/mavlink_common_plan.rs:508-516 | a single destination is one waypoint at its converted position |
| `PlanContents.OrbitFlown` | crates/swarm-comms/src/mavlink_common_plan.rs:587-652 | an orbit is a block of waypoints, the k-th at orbit point k, as many as turns times segments rounded up, at most 65535; without an approximation it is one unsupported record |
| `PlanContents.HoldFlown` | crates/swarm-comms/src/mavlink_common_plan.rs:559-585 | a hold is one timed loiter where the item before it is, else at the default position, with the duration first; else one unsupported record |
| `PlanContents.LoiterFlown` | crates/swarm-comms/src/mavlink_common_plan.rs:559-585 | the same for a loiter, under its own rule |
| `PlanContents.CommandSent` | crates/swarm-comms/src/mavlink_common_plan.rs:437-507 | arm and disarm are told apart by the first parameter, a takeoff has its altitude last; these three are in the prelude; land, return and abort are in the postlude exactly when an earlier command has an item, in the prelude otherwise |
| `PlanContents.PauseRecorded` | crates/swarm-comms/src/mavlink_common_plan.rs:540-555 | pause and resume are one unsupported record each |
| `PlanContents.MissionStarted` | crates/swarm-comms/src/mavlink_common_plan.rs:789-802 | the mission is started, and its upload acknowledged by the number of the last item, exactly when there are items |
| `PlanContents.RestOfPlan` | crates/swarm-comms/src/mavlink_common_plan.rs:763-874 | required and missing are counted as the unsupported commands and the violations of a blocking contract; names, fence and contract are passed on, and the fence command comes first |
| `PlanContents.CompatibilityExactly` | crates/swarm-comms/src/mavlink_capability_profile.rs:366-560 | the compatibility class of a compiled plan and whether hardware is allowed, by profile and whether there is anything to do |
| `PlanContents.CompilesExactly` | crates/swarm-comms/src/mavlink_common_plan.rs:432-735 | commands compile exactly when every position they are flown at converts and item numbers stay within 16 bits; otherwise the error is about a command that does not fit |
| `PlanExamples.FlyThenArm` | crates/swarm-comms/src/mavlink_common_plan.rs:436-520 | a valid mission that compiles to a plan out of source order: fly, then arm |
| `MavlinkCompiler.Compiler.PushItem` | crates/swarm-comms/src/mavlink_common_plan.rs:693-721 | appends one item with the next sequence number, refuses past 65535 and moves the anchor |
| `MavlinkCompiler.Compiler.CompileHold` | crates/swarm-comms/src/mavlink_common_plan.rs:559-585 | a hold is anchored at the last item, at the default position, or recorded as unsupported |
| `MavlinkCompiler.Compiler.CompileOrbit` | crates/swarm-comms/src/mavlink_common_plan.rs:587-652 | an orbit becomes its waypoints or one unsupported record |
| `MavlinkCompiler.Compiler.Compile` | crates/swarm-comms/src/mavlink_common_plan.rs:432-557 | compiling one entry in place extends the emissions as specified, or reports the specified error; what the emissions are is spelled out in the PlanContents rows |
| `MavlinkCompiler.BuildExpectedAcks` | crates/swarm-comms/src/mavlink_common_plan.rs:896-940 | the expected acknowledgements: one per prelude command, one mission acknowledgement with the last item's number when there are items, the start and one per postlude command, in order |
| `MavlinkCompiler.CompilePlan` | crates/swarm-comms/src/mavlink_common_plan.rs:30-45 | a plan is produced exactly for a valid mission, valid orbit option, convertible positions, few enough items and no refused fence, and it is the specified plan, whose contents the PlanContents rows spell out; a refusal names the first thing in the way |
| `MavlinkCompiler.CompiledItemsNumbered` | crates/swarm-comms/src/mavlink_common_plan.rs:693-721 | items are numbered 0, 1, 2, … without gap |
| `MavlinkCompiler.PassedExactly` | crates/swarm-comms/src/mavlink_common_plan.rs:820-866 | a compiled plan says it passed exactly when every source command was supported and the flight-controller contract does not block; no profile refuses a command |
| `CapabilityProfile.AggregateBlocks` | crates/swarm-comms/src/mavlink_capability_profile.rs:120-147 | the aggregate class is the maximum rank of all rows, and blocks exactly when some row blocks |
| `CapabilityProfile.WorstExactly` | crates/swarm-comms/src/mavlink_capability_profile.rs:120-147 | the aggregate is the worst class that occurs, in the order not supported, unknown, needs mapping, caveats, fallback, supported |
| `CapabilityProfile.ItemClassified` | crates/swarm-comms/src/mavlink_capability_profile.rs:433-485 | for any profile an item in an unlisted frame is not supported; otherwise the first rule for its command decides, but waypoints of an orbit are at best a fallback |
| `CapabilityProfile.Classify` | crates/swarm-comms/src/mavlink_capability_profile.rs:366-414 | one row per command and item in plan order; hardware-facing use is allowed exactly when the profile is not generic and the aggregate class does not block |
| `CapabilityProfile.ProfileVerdicts` | crates/swarm-comms/src/mavlink_capability_profile.rs:431-560 | for items in the global frame no profile marks anything unsupported, and only the ArduPilot profile blocks, exactly when there is anything to classify |
| `PlanExecutor.TryWithRetry` | crates/swarm-comms/src/mavlink_executor.rs:561-575 | asks at least once and at most budget plus one times, again only after a timeout, and reports the last answer and the retries |
| `PlanExecutor.RunPhase` | crates/swarm-comms/src/mavlink_executor.rs:337-556 | a phase continues the run step by step, and its early return is the report of that run, as ExecutionOutcomes.ReportIsItsSteps spells out |
| `PlanExecutor.Execute` | crates/swarm-comms/src/mavlink_executor.rs:281-556 | for any acknowledgements the report and the questions asked are those of a run of the plan: guards first, then prelude, upload, start, postlude, stopping at the first failure; ExecutionOutcomes says what the report then holds |
| `ExecutionOutcomes.OutcomeExactly` | crates/swarm-comms/src/mavlink_executor.rs:320-556 | failed exactly when the last step's result is a transport failure, aborted exactly when it is a rejection or timeout, each at that step; completed exactly without failure and retries, retried with their number exactly with some; the heartbeat milestone exactly on success |
| `ExecutionOutcomes.ReportIsItsSteps` | crates/swarm-comms/src/mavlink_executor.rs:320-556 | step i asks for what the plan has in place i and is named after it; all but the last step passed; the reason is the text given with the result, or its timeout with the request and milliseconds; lifecycle and outcome go together; a success has gone through every step |
| `ExecutionOutcomes.GuardsAbort` | crates/swarm-comms/src/mavlink_executor.rs:286-327 | a fence to upload, and then a contract that blocks, abort at step 0 with their own reason before anything is asked |
| `ExecutionChecks.ValidateExecutionReport` | crates/swarm-examples/src/artifact_validator.rs:371-435 | the loop finds exactly the specified defects; by Acceptance.ReportPassesExactly none exactly in plausible reports |
| `Acceptance.ReportPassesExactly` | crates/swarm-examples/src/artifact_validator.rs:371-435 | nothing is found exactly in a report that is named, has steps numbered from zero, and either is completed with no failing step and its retries told right, or is aborted at a step that failed |
| `ExecutionChecks.ExecutedReportsPass` | crates/swarm-examples/src/artifact_validator.rs:371-435 | every report of an execution has no finding except a blank mission id or no steps, each exactly when it is so |
| `ExecutionChecks.RequestsMatchAcks` | crates/swarm-comms/src/mavlink_common_plan.rs:896-940 | what the executor asks for matches the compiler's expected acknowledgements one for one in order |
| `ExecutionChecks.StepsFollowExpectedAcks` | crates/swarm-comms/src/mavlink_executor.rs:281-556 | the recorded steps of a compiled plan match a prefix of its expected acknowledgements, and succeed exactly when they match all of them without a failed step |
| `ExecutionChecks.QuestionsInTurn` | crates/swarm-comms/src/mavlink_executor.rs:286-575 | nothing is asked when a guard trips; otherwise the log of questions is one block per recorded step in step order, each of 1 to budget plus one questions for that step, all but the last answered by a timeout and the last by the recorded result; at every question all earlier steps already had their last question, accepted or skipped; and questions number steps plus retries |
| `PlanChecks.CheckSequence` | crates/swarm-examples/src/artifact_validator.rs:1586-1603 | true exactly when item numbers are contiguous from zero |
| `PlanChecks.CheckAcks` | crates/swarm-examples/src/artifact_validator.rs:1605-1659 | true exactly when every command has its acknowledgement, and the upload too when there are items |
| `PlanChecks.CheckRows` | crates/swarm-examples/src/artifact_validator.rs:2415-2440 | true exactly when rows and expectation match position by position |
| `PlanChecks.CheckCompatibility` | crates/swarm-examples/src/artifact_validator.rs:1458-1563 | finds exactly the specified defects of the compatibility report |
| `PlanChecks.ValidatePlan` | crates/swarm-examples/src/artifact_validator.rs:1458-1659 | finds exactly the specified defects of item numbering, order, acknowledgements and compatibility |
| `Acceptance.PlanPassesExactly` | crates/swarm-examples/src/artifact_validator.rs:1458-1659 | nothing is found exactly in a plan with items numbered from zero, no landing before them, an acknowledgement for every command, the upload and the start, and a compatibility report for its profile with one row per element in place, none refused, and no hardware while a row is unsettled |
| `PlanChecks.RowsAgree` | crates/swarm-examples/src/artifact_validator.rs:2378-2424 | for every plan and profile the classifier's rows match the rows the checker expects |
| `PlanChecks.AcksCoverPlan` | crates/swarm-examples/src/artifact_validator.rs:1605-1659 | the compiler's acknowledgements satisfy the checker for every plan |
| `PlanChecks.CompiledPlansPass` | crates/swarm-examples/src/artifact_validator.rs:1458-1659 | a compiled plan passes all of these checks, except that it is called unsafe in order exactly when it has items and a landing command precedes the first of them |
| `PlanExamples.LandThenFly` | crates/swarm-examples/src/artifact_validator.rs:1565-1584 | a valid mission whose compiled plan is called unsafe: land, then fly |
| `Connectivity.BuildAdjacency` | crates/swarm-comms/src/connectivity.rs:32-70 | an edge is exactly a pair of alive radios in range of each other, in both directions |
| `Connectivity.LinkedExactly` | crates/swarm-comms/src/connectivity.rs:18-70 | two names are linked exactly when radios of these names (base, alive agents, ground nodes) are each in the other's range, an infinite range covering everything |
| `Connectivity.HopCount` | crates/swarm-comms/src/connectivity.rs:111-138 | the search that stops at the target returns the exact distance, none exactly when there is no path |
| `Connectivity.AllHopCounts` | crates/swarm-comms/src/connectivity.rs:73-93 | the search that visits everything gives the exact distance of every node it holds and misses no reachable node |
| `Connectivity.HopCountBetween` | crates/swarm-comms/src/connectivity.rs:111-138 | the exact shortest distance in the mesh, none exactly when disconnected |
| `Connectivity.ReachabilityFromBase` | crates/swarm-comms/src/connectivity.rs:73-93 | holds exactly the nodes with a hop count from the base, with equal values: the two searches agree |
| `Connectivity.MeshDistanceSymmetric` | crates/swarm-comms/src/connectivity.rs:18-138 | the distance is the same both ways |
| `Network.StepAccounted` | crates/swarm-comms/src/network.rs:56-163 | every event keeps each message number in exactly one place, queues in send order and under their own recipient, and nothing delivered twice |
| `Network.EveryRunGood` | crates/swarm-comms/src/network.rs:56-163 | over every run with any draws: accounting and timing hold |
| `Network.Conservation` | crates/swarm-comms/src/network.rs:56-163 | over every run attempted messages equal dropped plus the lengths of all queues plus drained |
| `Network.EveryPacketWasSent` | crates/swarm-comms/src/network.rs:114-163 | no packet is forged or altered: each goes back to one send of the run that was not lost, with the tick and mesh distance of that moment |
| `Network.NeverEarly` | crates/swarm-comms/src/network.rs:60-163 | every hand-over happens no earlier than its send tick plus base latency plus per-hop latency over the mesh distance at that moment |
| `Network.DrainIsPrompt` | crates/swarm-comms/src/network.rs:60-78 | a drain hands over exactly what is due, in the order sent, and leaves nothing due behind |
| `Network.PartitionHolds` | crates/swarm-comms/src/network.rs:92-126 | from adding a pair until its removal in either spelling, each send between the two in either direction is dropped, whatever else happens in between |
| `NetworkHistory.PartitionedExactly` | crates/swarm-comms/src/network.rs:36-126 | over every run two agents are partitioned exactly when the last add or remove of the two, in either spelling, was an add, or there was none and the pair was given with the smaller id first |
| `NetworkHistory.OtherPairsStay` | crates/swarm-comms/src/network.rs:92-108 | adding or removing one pair leaves every other pair as it was |
| `NetworkHistory.SendExactly` | crates/swarm-comms/src/network.rs:114-163 | over every run a message that is not partitioned, has a way through the mesh and is not unlucky joins the end of its recipient's queue, stamped with send tick, mesh distance and due tick, and nothing is dropped; every other one is dropped and no queue changes |
| `NetworkHistory.DrainExactly` | crates/swarm-comms/src/network.rs:60-78 | over every run a drain hands over exactly what is due to the agent at that tick, in the order it was sent, keeps back the rest in order, and changes nothing else |
| `NetworkHistory.CountersAreHistory` | crates/swarm-comms/src/network.rs:52-126 | attempted, bytes, clock and snapshot are the number of sends, the sum of payload lengths, the number of ticks and the last snapshot set |
| `Network.InitialPairBlocks` | crates/swarm-comms/src/network.rs:36-50 | a pair given at construction blocks, until it is added or removed, exactly when it was given with the smaller id first |
| `Network.ReversedPairBlocksNothing` | crates/swarm-comms/src/network.rs:36-50 | a pair given the other way round blocks nothing |
| `InMemNetwork.BusBooks` | crates/swarm-comms/src/network.rs:22-33 | in the bus's own counters: attempted equals dropped plus the lengths of its queues plus what was handed over |
| `InMemNetwork.Bus.Send` | crates/swarm-comms/src/network.rs:114-163 | the in-place send is one send event of the model: counters, drop decisions and queue |
| `InMemNetwork.Bus.DrainReady` | crates/swarm-comms/src/network.rs:60-78 | the popping loop is one drain event and returns the due messages |
| `InMemNetwork.SplitQueue` | crates/swarm-comms/src/network.rs:65-77 | popping from the front splits the queue into due and delayed entries, both in order |
| `InMemNetwork.Bus.AdvanceTick` | crates/swarm-comms/src/network.rs:56-58 | one tick event |
| `InMemNetwork.Bus.SetConnectivitySnapshot` | crates/swarm-comms/src/network.rs:52-54 | one snapshot event |
| `InMemNetwork.Bus.Partition` | crates/swarm-comms/src/network.rs:92-99 | one partition event on the unordered pair |
| `InMemNetwork.Bus.Unpartition` | crates/swarm-comms/src/network.rs:101-108 | one removal event on the unordered pair; NetworkHistory.PartitionedExactly says what it does |
| `InMemNetwork.AgentTransport.Poll` | crates/swarm-comms/src/network.rs:196-207 | what a poll returns followed by what stays buffered is what was buffered followed by what the bus handed over; the bus is asked only with an empty buffer, and nothing is returned only when nothing is due |
| `SitlProgress.ReadWaypoints` | crates/swarm-examples/src/sitl_progress.rs:80-109 | refused exactly when empty, or at the first repeated sequence number; otherwise the map holds exactly the waypoints |
| `SitlProgress.StatusesAreHistory` | crates/swarm-examples/src/sitl_progress.rs:111-187 | after any history a task is completed exactly when one of its numbers was reached, else failed exactly when a failure happened, else in progress exactly when announced as current |
| `SitlProgress.SettledExactly` | crates/swarm-examples/src/sitl_progress.rs:205-262 | completed plus failed equals total exactly when a failure happened or everything was reached |
| `SitlProgress.SettledForever` | crates/swarm-examples/src/sitl_progress.rs:249-266 | after the first failure completed plus failed equals total whatever follows |
| `SitlProgress.FinalIsLastVerdict` | crates/swarm-examples/src/sitl_progress.rs:132-180 | the final status is the verdict of the last event that gives one |
| `SitlProgress.CompletedIsComplete` | crates/swarm-examples/src/sitl_progress.rs:132-156 | a mission whose final status is completed has every task completed and none failed |
| `SitlProgress.ReasonMeansFailure` | crates/swarm-examples/src/sitl_progress.rs:249-278 | a failure reason is held exactly when a failure ever happened; it is never cleared |
| `SitlProgress.StaleReason` | crates/swarm-examples/src/sitl_progress.rs:132-143 | after any history with a failure, reaching the last missing task ends as completed with a failure reason |
| `SitlProgress.LateSuccess` | crates/swarm-examples/src/sitl_progress.rs:132-180 | every mission can end like that: the link is lost and then all waypoints are reached |
| `SitlProgress.TimesAreHistory` | crates/swarm-examples/src/sitl_progress.rs:111-150 | the kept times are those of the last heartbeat and of the last event that counts as progress |
| `SitlReports.ReportIsHistory` | crates/swarm-examples/src/sitl_progress.rs:205-278 | a report counts the tasks reached as completed, and after a failure all others as failed; it names the task last announced or reached, the last verdict and the words of the last failure |
| `SitlReports.AnswerIsHistory` | crates/swarm-examples/src/sitl_progress.rs:111-187 | what the caller hears after each event, with the tasks reached so far and in all, or the report |
| `SitlProgress.Progress.ApplyEvent` | crates/swarm-examples/src/sitl_progress.rs:111-180 | the in-place update follows the history, times included, and answers as specified; an unknown number changes nothing |
| `SitlProgress.Progress.MarkNoProgressTimeout` | crates/swarm-examples/src/sitl_progress.rs:182-187 | a timeout is one failure event, with its report |
| `SitlProgress.Progress.MarkIncompleteFailed` | crates/swarm-examples/src/sitl_progress.rs:260-266 | exactly the tasks that are not completed become failed |
| `SwarmProtocol.SuppressedExactly` | crates/swarm-comms/src/swarm_protocol.rs:514-523 | an arrival is suppressed exactly when the same identifier was let through with fewer than a window of others let through since; suppressed arrivals do not renew the memory |
| `SwarmProtocol.AcceptedSpacedOut` | crates/swarm-comms/src/swarm_protocol.rs:514-523 | two accepted arrivals of one identifier have at least a window of other accepted ones between them |
| `SwarmProtocol.ExactlyOnce` | crates/swarm-comms/src/swarm_protocol.rs:486-523 | when no more identifiers are around than the window holds, each gets through exactly once, however its copies arrive |
| `SwarmProtocol.DistinctAllAccepted` | crates/swarm-comms/src/swarm_protocol.rs:514-523 | distinct identifiers all get through |
| `SwarmProtocol.SeenAreLatest` | crates/swarm-comms/src/swarm_protocol.rs:514-523 | the deque holds the latest accepted identifiers, a window of them, and one when the window is zero |
| `SwarmProtocol.DuplicateSuppressor.IsDuplicate` | crates/swarm-comms/src/swarm_protocol.rs:514-523 | true exactly for a held identifier; otherwise it is stored and the oldest evicted at capacity |
| `EnvelopeIds.EnvelopeIdInjective` | crates/swarm-examples/src/drone_agent_runtime.rs:359-363 | identifiers agree only when agent, tick and counter agree, even for agent names with dashes and digits |
| `DroneAgent.CountersAreHistory` | crates/swarm-examples/src/drone_agent_runtime.rs:232-306 | after any history and for any link behaviour each incoming counter is the number of inputs it is about |
| `DroneAgent.NothingUncounted` | crates/swarm-examples/src/drone_agent_runtime.rs:232-261 | every polled message is received, a duplicate or malformed, and counted once |
| `DroneAgent.ReceivedAreAccepted` | crates/swarm-examples/src/drone_agent_runtime.rs:251-259 | the received count is the number of arrivals the suppressor lets through |
| `DroneAgent.LogIsHistory` | crates/swarm-examples/src/drone_agent_runtime.rs:263-373 | the envelopes sent are exactly those the history calls for, in order, the k-th stamped with the k-th counter value, each counted as sent or as an error by the link's answer |
| `DroneReplies.RepliesExactly` | crates/swarm-examples/src/drone_agent_runtime.rs:263-373 | after any history the next input makes the agent hand over exactly what it calls for, as its next envelope, or nothing |
| `DroneReplies.StateRequestAnswered` | crates/swarm-examples/src/drone_agent_runtime.rs:288-297 | an accepted state request is answered to the envelope's sender under its session id, with the tick |
| `DroneReplies.OfferRejected` | crates/swarm-examples/src/drone_agent_runtime.rs:272-287 | in a dry run an accepted offer is rejected to its sender under the envelope's id |
| `DroneAgent.PostsAddUp` | crates/swarm-examples/src/drone_agent_runtime.rs:263-343 | one envelope per order and per state request, and in a dry run one per offer |
| `DroneAgent.IdsAgreeExactly` | crates/swarm-examples/src/drone_agent_runtime.rs:345-363 | two envelopes of any two runs share an identifier exactly when agent, position in the run and tick agree |
| `DroneAgent.IdsUnique` | crates/swarm-examples/src/drone_agent_runtime.rs:345-363 | no two envelopes of one run, and no two envelopes of agents with different names, share an identifier |
| `DroneAgent.RestartCollides` | crates/swarm-examples/src/drone_agent_runtime.rs:221-230 | two runs of one agent that first send at the same tick give their first envelopes the same identifier |
| `DroneAgent.SameIdRepeats` | crates/swarm-examples/src/drone_agent_runtime.rs:246-252 | and a peer that heard the one drops the other as a duplicate |
| `DroneAgent.OneSenderAllReceived` | crates/swarm-examples/src/drone_agent_runtime.rs:232-261 | a receiver that gets envelopes of one agent once each, in any order, suppresses none |
| `DroneAgentLoop.Protocol.SendEnvelope` | crates/swarm-examples/src/drone_agent_runtime.rs:345-373 | one send in place: next counter value, named envelope, sent or error counted |
| `DroneAgentLoop.Protocol.PollIncoming` | crates/swarm-examples/src/drone_agent_runtime.rs:232-261 | the polling loop is the run over the polled messages, and fails exactly when the last poll fails |
| `DroneAgentLoop.Protocol.SendToAll` | crates/swarm-examples/src/drone_agent_runtime.rs:308-343 | heartbeats and presence go to each target once, in order |
| `DroneAgentLoop.RunLoop` | crates/swarm-examples/src/drone_agent_runtime.rs:171-191 | the whole tick loop yields the counters of the specified history, and nothing exactly when some poll fails |
| `DroneReplies.EveryTickInPlace` | crates/swarm-examples/src/drone_agent_runtime.rs:171-191 | each tick of a run first hears all that was polled, then sends a heartbeat to each target, then, every 25th tick, presence to each target |
| `DroneAgentLoop.RunBooks` | crates/swarm-examples/src/drone_agent_runtime.rs:171-191 | over every run received plus duplicates plus malformed equals what was polled, and sent plus errors equals targets times ticks and every 25th tick, plus the replies |

## Left out

- JSON and hash encoding, files, command line, UDP and serial links, clocks and timestamps.
- Random generators: every draw is an arbitrary value.
- Rounding, infinities and not-a-number values of floating point.
- Widths of counters and ticks, except the limit of 65535 on item sequence numbers.
- Coordinate conversion and orbit trigonometry: function parameters; kept are which position each item is at, count, order, numbering and conversion errors.
- The geofence compiler and the flight-controller contract check: their results are inputs of the compiler.
- Telemetry milestones, execution-mode rules, caveat and note texts of a compiled plan.
- The checks of a compiled plan on schema version, hash, non-emptiness, milestones and the consistency of its passed flag.
- Ownership, hand-over, abort-policy and window checks of the whole swarm command plan; only topology and routes are modelled.
- Link delay and reason texts, node kinds and the building of a default topology.
- The travel distance statistic of the auction, which no decision reads.
- Greedy, auction and centralized allocators: short loops with easy claims.
- Listing of completed waypoints and the reachable fraction: easy reads of state whose content is proved.
- Message contents of the agent protocol beyond those the agent reacts to, leases and time to live; schema versions are known or unknown.
- Links that never stop handing over messages within one tick: each tick polls a finite list.
- CbbaGossip.OrderDoesNotMatter: does not fix the winner among equal bids, because the code keeps whichever came first.
- DroneAgentLoop.RunLoop: covers the common loop; the loop for the internet-like mock differs only in advancing the mock's clock.
