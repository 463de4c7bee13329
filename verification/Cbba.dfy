/** One round of the consensus-based bundle algorithm, as a function on the allocator state,
    and what every run of rounds keeps. */
module Cbba {
  import opened Basics
  import opened Fleet

  datatype Config = Config(maxBundleSize: nat, maxRounds: nat, weightDistance: real, weightBattery: real,
                           backoffTicks: nat, lossThreshold: real)

  type Planner = (Pose, seq<Task>, Agent) -> seq<string>

  /** Everything a round consults that is not state. */
  datatype World = World(config: Config, distance: Distance, planner: Planner)

  datatype Bid = Bid(agent: string, value: real)

  type Bundles = map<string, seq<string>>
  type Bids = map<string, Bid>

  datatype State = State(bundles: Bundles, winning: Bids, previous: Bids, round: nat, converged: bool, messages: nat)

  const FRESH := State(map[], map[], map[], 0, false, 0)

  // ----- scoring -----

  predicate Qualified(agent: Agent, task: Task) {
    && (forall c :: c in task.requiredCapabilities ==> c in agent.capabilities)
    && (task.requiredRole.Some? ==> task.requiredRole.value == agent.role)
    && agent.battery > 0.0
  }

  function PositionPenalty(size: nat, dist: real): real {
    size as real * 0.1 * dist
  }

  /** `None` stands for negative infinity. */
  function MarginalScore(w: World, agent: Agent, task: Task, bundle: seq<string>): Option<real> {
    var taskPose := if task.pose.Some? then task.pose.value else Pose(0.0, 0.0, 0.0);
    var dist := w.distance(agent.pose, taskPose);
    var base := -w.config.weightDistance * dist + w.config.weightBattery * agent.battery;
    if !Qualified(agent, task) then None
    else if bundle != [] then Some(base - PositionPenalty(|bundle|, dist))
    else Some(base)
  }

  /** A task the agent may add: not in its bundle yet, within its abilities, and not already
      won by another agent at the same or a better score. */
  predicate Eligible(w: World, agent: Agent, task: Task, bundle: seq<string>, winning: Bids) {
    var score := MarginalScore(w, agent, task, bundle);
    && task.id !in bundle && score.Some?
    && (task.id in winning && winning[task.id].agent != agent.id ==> winning[task.id].value < score.value)
  }

  datatype Choice = Choice(task: string, score: real)

  /** The first of the best-scoring eligible tasks. */
  function Best(w: World, agent: Agent, tasks: seq<Task>, bundle: seq<string>, winning: Bids): Option<Choice> {
    if tasks == [] then None
    else
      var best, t := Best(w, agent, tasks[..|tasks| - 1], bundle, winning), tasks[|tasks| - 1];
      if !Eligible(w, agent, t, bundle, winning) then best
      else
        var score := MarginalScore(w, agent, t, bundle).value;
        if best.None? || score > best.value.score then Some(Choice(t.id, score)) else best
  }

  /** Nothing is chosen exactly when nothing is eligible; what is chosen is eligible and no
      eligible task scores higher. */
  lemma {:induction false} BestIsBest(w: World, agent: Agent, tasks: seq<Task>, bundle: seq<string>, winning: Bids)
    ensures Best(w, agent, tasks, bundle, winning).None? <==>
            forall t :: t in tasks ==> !Eligible(w, agent, t, bundle, winning)
    ensures Best(w, agent, tasks, bundle, winning).Some? ==>
              exists t :: t in tasks && Eligible(w, agent, t, bundle, winning)
                       && Best(w, agent, tasks, bundle, winning) ==
                            Some(Choice(t.id, MarginalScore(w, agent, t, bundle).value))
    ensures Best(w, agent, tasks, bundle, winning).Some? ==>
              forall t :: t in tasks && Eligible(w, agent, t, bundle, winning) ==>
                MarginalScore(w, agent, t, bundle).value <= Best(w, agent, tasks, bundle, winning).value.score
  {
    if tasks != [] {
      var rest, t := tasks[..|tasks| - 1], tasks[|tasks| - 1];
      BestIsBest(w, agent, rest, bundle, winning);
      assert tasks == rest + [t];
    }
  }

  // ----- building bundles -----

  function BundleOf(bundles: Bundles, id: string): seq<string> {
    if id in bundles then bundles[id] else []
  }

  /** One agent adds at most one task and claims it at its own score. */
  function AgentTurn(w: World, s: State, agent: Agent, tasks: seq<Task>): State {
    var bundle := BundleOf(s.bundles, agent.id);
    if |bundle| >= w.config.maxBundleSize then s.(bundles := s.bundles[agent.id := bundle])
    else
      match Best(w, agent, tasks, bundle, s.winning)
      case None => s.(bundles := s.bundles[agent.id := bundle])
      case Some(c) =>
        s.(bundles := s.bundles[agent.id := bundle + [c.task]],
           winning := s.winning[c.task := Bid(agent.id, c.score)])
  }

  function Turns(w: World, s: State, agents: seq<Agent>, tasks: seq<Task>): State {
    if agents == [] then s
    else AgentTurn(w, Turns(w, s, agents[..|agents| - 1], tasks), agents[|agents| - 1], tasks)
  }

  function BuildBundles(w: World, s: State, agents: seq<Agent>, tasks: seq<Task>): State {
    if s.converged then s else Turns(w, s, agents, tasks)
  }

  // ----- the other phases of a round -----

  function Retain(bundle: seq<string>, keep: set<string>): (r: seq<string>)
    ensures forall t :: t in r <==> t in bundle && t in keep
    ensures Distinct(bundle) ==> Distinct(r)
    ensures |r| <= |bundle|
    ensures (forall t :: t in bundle ==> t in keep) ==> r == bundle
  {
    if bundle == [] then []
    else
      var rest, t := Retain(bundle[..|bundle| - 1], keep), bundle[|bundle| - 1];
      assert bundle == bundle[..|bundle| - 1] + [t];
      if t in keep then rest + [t] else rest
  }

  function RetainBids(bids: Bids, agents: seq<Agent>, tasks: seq<Task>): Bids {
    map t | t in bids && bids[t].agent in AgentIds(agents) && t in TaskIds(tasks) :: bids[t]
  }

  /** Forget dead agents and finished tasks, and free the bundle slots of unclaimed tasks. */
  function Cleanup(s: State, agents: seq<Agent>, tasks: seq<Task>): State {
    var winning := RetainBids(s.winning, agents, tasks);
    var bundles := map a | a in s.bundles && a in AgentIds(agents) :: Retain(s.bundles[a], winning.Keys);
    s.(bundles := bundles, winning := winning, previous := RetainBids(s.previous, agents, tasks))
  }

  function TasksOf(bundle: seq<string>, tasks: seq<Task>): (r: seq<Task>)
    ensures (forall t :: t in bundle ==> t in TaskIds(tasks)) ==> Ids(r) == bundle
  {
    if bundle == [] then []
    else
      var rest, id := TasksOf(bundle[..|bundle| - 1], tasks), bundle[|bundle| - 1];
      assert bundle == bundle[..|bundle| - 1] + [id];
      match FindTask(tasks, id)
      case None => rest
      case Some(t) => rest + [t]
  }

  function OrderedBundle(w: World, id: string, bundle: seq<string>, agents: seq<Agent>, tasks: seq<Task>): seq<string> {
    match FindAgent(agents, id)
    case None => bundle
    case Some(a) => w.planner(a.pose, TasksOf(bundle, tasks), a.(batteryModel := None))
  }

  function OrderBundles(w: World, s: State, agents: seq<Agent>, tasks: seq<Task>): State {
    s.(bundles := map id | id in s.bundles :: OrderedBundle(w, id, s.bundles[id], agents, tasks))
  }

  /** `u32::is_multiple_of`: a zero divisor divides only zero. */
  predicate IsMultipleOf(n: nat, d: nat) {
    if d == 0 then n == 0 else n % d == 0
  }

  predicate Retransmits(w: World, lossRate: real, round: nat) {
    lossRate > w.config.lossThreshold && IsMultipleOf(round, w.config.backoffTicks % 0x1_0000_0000)
  }

  function Rebroadcast(w: World, s: State, lossRate: real, agents: seq<Agent>): State {
    if Retransmits(w, lossRate, s.round) then s.(messages := s.messages + |agents|, previous := map[]) else s
  }

  function CheckConvergence(w: World, s: State): State {
    if s.converged then s
    else if s.previous == s.winning && s.winning != map[] then s.(converged := true)
    else s.(previous := s.winning, converged := s.round >= w.config.maxRounds)
  }

  function StartRound(s: State, tasks: seq<Task>): State {
    s.(round := s.round + 1, converged := if tasks != [] then false else s.converged)
  }

  /** A round up to and including the building of bundles. */
  function Built(w: World, s: State, agents: seq<Agent>, tasks: seq<Task>): State {
    BuildBundles(w, Cleanup(StartRound(s, tasks), agents, tasks), agents, tasks)
  }

  /** A full `allocate` call. */
  function Round(w: World, s: State, lossRate: real, agents: seq<Agent>, tasks: seq<Task>): State {
    var ordered := OrderBundles(w, Built(w, s, agents, tasks), agents, tasks);
    CheckConvergence(w, Rebroadcast(w, ordered, lossRate, agents))
  }

  // ----- what every round keeps -----

  /** Each recorded winner holds its task; bundles hold no task twice, are within the limit,
      and hold only tasks somebody has won. */
  ghost predicate WinnerHolds(s: State, t: string) {
    t in s.winning && s.winning[t].agent in s.bundles && t in s.bundles[s.winning[t].agent]
  }

  ghost predicate BundleOk(w: World, s: State, a: string) {
    && a in s.bundles && Distinct(s.bundles[a]) && |s.bundles[a]| <= w.config.maxBundleSize
    && (forall t :: t in s.bundles[a] ==> t in s.winning)
  }

  ghost predicate Sound(w: World, s: State) {
    && (forall t {:trigger WinnerHolds(s, t)} :: t in s.winning ==> WinnerHolds(s, t))
    && (forall a {:trigger BundleOk(w, s, a)} :: a in s.bundles ==> BundleOk(w, s, a))
  }

  /** Only agents and tasks of the current lists occur. */
  ghost predicate Live(s: State, agents: seq<Agent>, tasks: seq<Task>) {
    && s.bundles.Keys <= AgentIds(agents) && s.winning.Keys <= TaskIds(tasks)
  }

  /** The planner only rearranges: every task it is given comes out exactly once. */
  ghost predicate Permuting(planner: Planner) {
    forall start, tasks, agent {:trigger planner(start, tasks, agent)} ::
      Distinct(Ids(tasks)) ==> multiset(planner(start, tasks, agent)) == multiset(Ids(tasks))
  }

  lemma CleanupSound(w: World, s: State, agents: seq<Agent>, tasks: seq<Task>)
    requires Sound(w, s)
    ensures Sound(w, Cleanup(s, agents, tasks)) && Live(Cleanup(s, agents, tasks), agents, tasks)
  {
    var c := Cleanup(s, agents, tasks);
    forall t | t in c.winning ensures WinnerHolds(c, t) {
      assert WinnerHolds(s, t);
    }
    forall a | a in c.bundles ensures BundleOk(w, c, a) {
      assert BundleOk(w, s, a);
    }
  }

  /** In a sound state an agent never bids again for a task it has already won. */
  lemma EligibleIsNew(w: World, s: State, agent: Agent, task: Task)
    requires Sound(w, s) && Eligible(w, agent, task, BundleOf(s.bundles, agent.id), s.winning)
    requires task.id in s.winning
    ensures s.winning[task.id].agent != agent.id
    ensures s.winning[task.id].value < MarginalScore(w, agent, task, BundleOf(s.bundles, agent.id)).value
  {
    assert WinnerHolds(s, task.id);
  }

  /** The effect of one agent's turn: either nothing but an empty bundle appears, or one task
      is added and claimed by a bid above the one it replaces. */
  ghost predicate Claimed(s: State, n: State, agent: Agent, t: string) {
    && t !in BundleOf(s.bundles, agent.id) && t in n.winning && n.winning[t].agent == agent.id
    && n.bundles == s.bundles[agent.id := BundleOf(s.bundles, agent.id) + [t]]
    && n.winning == s.winning[t := n.winning[t]]
    && (t in s.winning ==> s.winning[t].agent != agent.id && s.winning[t].value < n.winning[t].value)
  }

  ghost predicate Idle(s: State, n: State, agent: Agent) {
    n.winning == s.winning && n.bundles == s.bundles[agent.id := BundleOf(s.bundles, agent.id)]
  }

  lemma TurnEffect(w: World, s: State, agent: Agent, tasks: seq<Task>) returns (t: string)
    requires Sound(w, s)
    ensures var n := AgentTurn(w, s, agent, tasks);
            Idle(s, n, agent)
            || (&& Claimed(s, n, agent, t) && t in TaskIds(tasks)
                && |BundleOf(s.bundles, agent.id)| < w.config.maxBundleSize)
  {
    var bundle := BundleOf(s.bundles, agent.id);
    t := "";
    if |bundle| < w.config.maxBundleSize && Best(w, agent, tasks, bundle, s.winning).Some? {
      BestIsBest(w, agent, tasks, bundle, s.winning);
      var task :| task in tasks && Eligible(w, agent, task, bundle, s.winning)
               && Best(w, agent, tasks, bundle, s.winning) ==
                    Some(Choice(task.id, MarginalScore(w, agent, task, bundle).value));
      t := task.id;
      if t in s.winning {
        EligibleIsNew(w, s, agent, task);
      }
    }
  }

  lemma ClaimedSound(w: World, s: State, n: State, agent: Agent, t: string)
    requires Sound(w, s) && Claimed(s, n, agent, t) && |BundleOf(s.bundles, agent.id)| < w.config.maxBundleSize
    ensures Sound(w, n)
  {
    forall x | x in n.winning ensures WinnerHolds(n, x) {
      if x != t {
        assert WinnerHolds(s, x);
      } else {
        assert n.bundles[agent.id][|BundleOf(s.bundles, agent.id)|] == t;
      }
    }
    forall a | a in n.bundles ensures BundleOk(w, n, a) {
      assert a in s.bundles ==> BundleOk(w, s, a);
    }
  }

  lemma IdleSound(w: World, s: State, n: State, agent: Agent)
    requires Sound(w, s) && Idle(s, n, agent)
    ensures Sound(w, n)
  {
    forall x | x in n.winning ensures WinnerHolds(n, x) {
      assert WinnerHolds(s, x);
    }
    forall a | a in n.bundles ensures BundleOk(w, n, a) {
      assert a in s.bundles ==> BundleOk(w, s, a);
    }
  }

  lemma TurnSound(w: World, s: State, agent: Agent, tasks: seq<Task>)
    requires Sound(w, s)
    ensures Sound(w, AgentTurn(w, s, agent, tasks))
  {
    var n := AgentTurn(w, s, agent, tasks);
    var t := TurnEffect(w, s, agent, tasks);
    if Claimed(s, n, agent, t) && |BundleOf(s.bundles, agent.id)| < w.config.maxBundleSize {
      ClaimedSound(w, s, n, agent, t);
    } else {
      IdleSound(w, s, n, agent);
    }
  }

  lemma {:induction false} TurnsSound(w: World, s: State, agents: seq<Agent>, tasks: seq<Task>)
    requires Sound(w, s)
    ensures Sound(w, Turns(w, s, agents, tasks))
    ensures Turns(w, s, agents, tasks).bundles.Keys <= s.bundles.Keys + AgentIds(agents)
    ensures Turns(w, s, agents, tasks).winning.Keys <= s.winning.Keys + TaskIds(tasks)
  {
    if agents != [] {
      var init, agent := agents[..|agents| - 1], agents[|agents| - 1];
      assert agents == init + [agent] && agent in agents;
      TurnsSound(w, s, init, tasks);
      TurnSound(w, Turns(w, s, init, tasks), agent, tasks);
      var t := TurnEffect(w, Turns(w, s, init, tasks), agent, tasks);
    }
  }

  lemma PermutedBundle(planner: Planner, start: Pose, agent: Agent, bundle: seq<string>, tasks: seq<Task>)
    requires Permuting(planner) && Distinct(bundle) && forall t :: t in bundle ==> t in TaskIds(tasks)
    ensures multiset(planner(start, TasksOf(bundle, tasks), agent)) == multiset(bundle)
  {
    assert Ids(TasksOf(bundle, tasks)) == bundle;
  }

  /** Two states whose bundles differ only in the order of their tasks. */
  ghost predicate SameBundle(s: State, n: State, a: string) {
    a in s.bundles && a in n.bundles && multiset(n.bundles[a]) == multiset(s.bundles[a])
  }

  ghost predicate Reordered(s: State, n: State) {
    && n.winning == s.winning && n.bundles.Keys == s.bundles.Keys
    && forall a {:trigger SameBundle(s, n, a)} :: a in s.bundles ==> SameBundle(s, n, a)
  }

  lemma OrderingReorders(w: World, s: State, agents: seq<Agent>, tasks: seq<Task>)
    requires Sound(w, s) && Live(s, agents, tasks) && Permuting(w.planner)
    ensures Reordered(s, OrderBundles(w, s, agents, tasks))
  {
    var n := OrderBundles(w, s, agents, tasks);
    forall a | a in s.bundles ensures SameBundle(s, n, a) {
      assert BundleOk(w, s, a);
      var agent := FindAgent(agents, a).value;
      PermutedBundle(w.planner, agent.pose, agent.(batteryModel := None), s.bundles[a], tasks);
    }
  }

  lemma ReorderedSound(w: World, s: State, n: State)
    requires Sound(w, s) && Reordered(s, n)
    ensures Sound(w, n)
  {
    forall t | t in n.winning ensures WinnerHolds(n, t) {
      assert WinnerHolds(s, t);
      var a := s.winning[t].agent;
      assert SameBundle(s, n, a);
      PermutationKeeps(n.bundles[a], s.bundles[a]);
    }
    forall a | a in n.bundles ensures BundleOk(w, n, a) {
      assert SameBundle(s, n, a) && BundleOk(w, s, a);
      PermutationKeeps(n.bundles[a], s.bundles[a]);
    }
  }

  lemma BuiltSound(w: World, s: State, agents: seq<Agent>, tasks: seq<Task>)
    requires Sound(w, s)
    ensures Sound(w, Built(w, s, agents, tasks)) && Live(Built(w, s, agents, tasks), agents, tasks)
  {
    var started := StartRound(s, tasks);
    SoundIgnoresRest(w, s, started);
    CleanupSound(w, started, agents, tasks);
    TurnsSound(w, Cleanup(started, agents, tasks), agents, tasks);
  }

  lemma ConvergenceKeeps(w: World, s: State, lossRate: real, agents: seq<Agent>)
    ensures var r := CheckConvergence(w, Rebroadcast(w, s, lossRate, agents));
            r.bundles == s.bundles && r.winning == s.winning
  {
  }

  lemma RestOfRound(w: World, s: State, lossRate: real, agents: seq<Agent>, tasks: seq<Task>)
    ensures var r := Round(w, s, lossRate, agents, tasks);
            var ordered := OrderBundles(w, Built(w, s, agents, tasks), agents, tasks);
            r.bundles == ordered.bundles && r.winning == ordered.winning
  {
    ConvergenceKeeps(w, OrderBundles(w, Built(w, s, agents, tasks), agents, tasks), lossRate, agents);
  }

  /** Every round keeps the state sound and leaves only current agents and tasks in it, for
      any change of the agent and task lists between rounds. */
  lemma RoundSound(w: World, s: State, lossRate: real, agents: seq<Agent>, tasks: seq<Task>)
    requires Sound(w, s) && Permuting(w.planner)
    ensures Sound(w, Round(w, s, lossRate, agents, tasks))
    ensures Live(Round(w, s, lossRate, agents, tasks), agents, tasks)
  {
    BuiltSound(w, s, agents, tasks);
    var built := Built(w, s, agents, tasks);
    OrderingReorders(w, built, agents, tasks);
    var ordered := OrderBundles(w, built, agents, tasks);
    ReorderedSound(w, built, ordered);
    RestOfRound(w, s, lossRate, agents, tasks);
    SoundIgnoresRest(w, ordered, Round(w, s, lossRate, agents, tasks));
  }

  lemma SoundIgnoresRest(w: World, s: State, n: State)
    requires Sound(w, s) && n.bundles == s.bundles && n.winning == s.winning
    ensures Sound(w, n)
  {
    forall t | t in n.winning ensures WinnerHolds(n, t) {
      assert WinnerHolds(s, t);
    }
    forall a | a in n.bundles ensures BundleOk(w, n, a) {
      assert BundleOk(w, s, a);
    }
  }

  // ----- bids never fall -----

  /** The bid for `t` is still there and is the same bid or a higher one. */
  ghost predicate NotLower(old_: Bids, new_: Bids, t: string) {
    t in old_ && t in new_ && (new_[t] == old_[t] || new_[t].value > old_[t].value)
  }

  lemma {:induction false} TurnsRaiseBids(w: World, s: State, agents: seq<Agent>, tasks: seq<Task>, t: string)
    requires Sound(w, s) && t in s.winning
    ensures NotLower(s.winning, Turns(w, s, agents, tasks).winning, t)
  {
    if agents != [] {
      var init, agent := agents[..|agents| - 1], agents[|agents| - 1];
      TurnsRaiseBids(w, s, init, tasks, t);
      TurnsSound(w, s, init, tasks);
      var x := TurnEffect(w, Turns(w, s, init, tasks), agent, tasks);
    }
  }

  /** While a task and its winner stay in the lists, the winning bid of the task never falls;
      it changes only by being outbid. */
  lemma BidsNeverFall(w: World, s: State, lossRate: real, agents: seq<Agent>, tasks: seq<Task>, t: string)
    requires Sound(w, s) && t in s.winning
    requires t in TaskIds(tasks) && s.winning[t].agent in AgentIds(agents)
    ensures NotLower(s.winning, Round(w, s, lossRate, agents, tasks).winning, t)
  {
    BuiltRaisesBids(w, s, agents, tasks, t);
    RestOfRound(w, s, lossRate, agents, tasks);
  }

  lemma BuiltRaisesBids(w: World, s: State, agents: seq<Agent>, tasks: seq<Task>, t: string)
    requires Sound(w, s) && t in s.winning
    requires t in TaskIds(tasks) && s.winning[t].agent in AgentIds(agents)
    ensures NotLower(s.winning, Built(w, s, agents, tasks).winning, t)
  {
    var started := StartRound(s, tasks);
    SoundIgnoresRest(w, s, started);
    var cleaned := Cleanup(started, agents, tasks);
    CleanupSound(w, started, agents, tasks);
    assert t in cleaned.winning && cleaned.winning[t] == s.winning[t];
    TurnsRaiseBids(w, cleaned, agents, tasks, t);
  }

  // ----- runs -----

  datatype Call = Call(lossRate: real, agents: seq<Agent>, tasks: seq<Task>)

  function Run(w: World, calls: seq<Call>): State {
    if calls == [] then FRESH
    else
      var c := calls[|calls| - 1];
      Round(w, Run(w, calls[..|calls| - 1]), c.lossRate, c.agents, c.tasks)
  }

  /** Over every run of rounds, with agents and tasks coming and going. */
  lemma {:induction false} EveryRunSound(w: World, calls: seq<Call>)
    requires Permuting(w.planner)
    ensures Sound(w, Run(w, calls))
    ensures calls != [] ==> Live(Run(w, calls), calls[|calls| - 1].agents, calls[|calls| - 1].tasks)
  {
    if calls != [] {
      EveryRunSound(w, calls[..|calls| - 1]);
      var c := calls[|calls| - 1];
      RoundSound(w, Run(w, calls[..|calls| - 1]), c.lossRate, c.agents, c.tasks);
    }
  }
}
