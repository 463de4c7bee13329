/** What the auction does in terms of poses, distances, batteries and abilities. */
module CbbaScores {
  import opened Basics
  import opened Fleet
  import opened Cbba

  /** Distance of the agent from the task; a task without a pose counts as being at the origin. */
  function Away(w: World, agent: Agent, task: Task): real {
    w.distance(agent.pose, if task.pose.Some? then task.pose.value else Pose(0.0, 0.0, 0.0))
  }

  /** What a task is worth to an agent that holds `held` tasks already: battery counts for it,
      distance against it, and the more so the more tasks are held. */
  function Worth(w: World, agent: Agent, task: Task, held: nat): real {
    w.config.weightBattery * agent.battery - (w.config.weightDistance + 0.1 * held as real) * Away(w, agent, task)
  }

  /** The agent has charge left, the role and every capability the task asks for. */
  predicate Able(agent: Agent, task: Task) {
    && agent.battery > 0.0 && (task.requiredRole == None || task.requiredRole == Some(agent.role))
    && forall i :: 0 <= i < |task.requiredCapabilities| ==> task.requiredCapabilities[i] in agent.capabilities
  }

  /** The agent does not hold the task, is able to do it, and outbids whoever else has won it. */
  predicate Open(w: World, s: State, agent: Agent, task: Task) {
    var bundle := BundleOf(s.bundles, agent.id);
    && task.id !in bundle && Able(agent, task)
    && (task.id in s.winning && s.winning[task.id].agent != agent.id ==>
          s.winning[task.id].value < Worth(w, agent, task, |bundle|))
  }

  // ----- the score -----

  lemma ScoreArithmetic(a: real, b: real, d: real, x: real, n: real, score: real, worth: real)
    requires worth == b * x - (a + 0.1 * n) * d
    requires score == -a * d + b * x - n * 0.1 * d
    ensures score == worth
  {
    assert (a + 0.1 * n) * d == a * d + n * 0.1 * d;
  }

  lemma AbleIsQualified(agent: Agent, task: Task)
    ensures Able(agent, task) <==> Qualified(agent, task)
  {
    var needed := task.requiredCapabilities;
    if Able(agent, task) {
      forall c | c in needed ensures c in agent.capabilities {
        var i :| 0 <= i < |needed| && needed[i] == c;
      }
    }
  }

  lemma ScoreIsWorth(w: World, agent: Agent, task: Task, bundle: seq<string>)
    ensures MarginalScore(w, agent, task, bundle) ==
            if Able(agent, task) then Some(Worth(w, agent, task, |bundle|)) else None
  {
    AbleIsQualified(agent, task);
    if Able(agent, task) {
      var n, score := |bundle| as real, MarginalScore(w, agent, task, bundle).value;
      if bundle == [] {
        assert n == 0.0;
      }
      ScoreArithmetic(w.config.weightDistance, w.config.weightBattery, Away(w, agent, task), agent.battery, n,
                      score, Worth(w, agent, task, |bundle|));
    }
  }

  lemma OpenIsEligible(w: World, s: State, agent: Agent, task: Task)
    ensures Open(w, s, agent, task) <==> Eligible(w, agent, task, BundleOf(s.bundles, agent.id), s.winning)
  {
    ScoreIsWorth(w, agent, task, BundleOf(s.bundles, agent.id));
  }

  // ----- one turn -----

  /** Task number `i` is open and worth the most, more than every open one before it. */
  ghost predicate Preferred(w: World, s: State, agent: Agent, tasks: seq<Task>, i: nat) {
    var held := |BundleOf(s.bundles, agent.id)|;
    && i < |tasks| && Open(w, s, agent, tasks[i])
    && forall j :: 0 <= j < |tasks| && Open(w, s, agent, tasks[j]) ==>
         if j < i then Worth(w, agent, tasks[j], held) < Worth(w, agent, tasks[i], held)
         else Worth(w, agent, tasks[j], held) <= Worth(w, agent, tasks[i], held)
  }

  /** The first of the best-scoring tasks is the preferred one. */
  lemma {:induction false} BestIsPreferred(w: World, s: State, agent: Agent, tasks: seq<Task>) returns (i: nat)
    ensures var bundle := BundleOf(s.bundles, agent.id);
            var best := Best(w, agent, tasks, bundle, s.winning);
            if best.None? then forall j :: 0 <= j < |tasks| ==> !Open(w, s, agent, tasks[j])
            else
              && Preferred(w, s, agent, tasks, i)
              && best == Some(Choice(tasks[i].id, Worth(w, agent, tasks[i], |bundle|)))
  {
    i := 0;
    if tasks != [] {
      var init, last := tasks[..|tasks| - 1], tasks[|tasks| - 1];
      i := BestIsPreferred(w, s, agent, init);
      OpenIsEligible(w, s, agent, last);
      ScoreIsWorth(w, agent, last, BundleOf(s.bundles, agent.id));
      i := PreferLater(w, s, agent, tasks, i);
    }
  }

  /** The preference among the first tasks, once one more is looked at. */
  lemma PreferLater(w: World, s: State, agent: Agent, tasks: seq<Task>, i: nat) returns (k: nat)
    requires tasks != []
    requires var init, bundle := tasks[..|tasks| - 1], BundleOf(s.bundles, agent.id);
             var best := Best(w, agent, init, bundle, s.winning);
             if best.None? then forall j :: 0 <= j < |init| ==> !Open(w, s, agent, init[j])
             else
               && Preferred(w, s, agent, init, i)
               && best == Some(Choice(init[i].id, Worth(w, agent, init[i], |bundle|)))
    requires var last, bundle := tasks[|tasks| - 1], BundleOf(s.bundles, agent.id);
             && (Open(w, s, agent, last) <==> Eligible(w, agent, last, bundle, s.winning))
             && (Open(w, s, agent, last) ==>
                   MarginalScore(w, agent, last, bundle) == Some(Worth(w, agent, last, |bundle|)))
    ensures var bundle := BundleOf(s.bundles, agent.id);
            var best := Best(w, agent, tasks, bundle, s.winning);
            if best.None? then forall j :: 0 <= j < |tasks| ==> !Open(w, s, agent, tasks[j])
            else
              && Preferred(w, s, agent, tasks, k)
              && best == Some(Choice(tasks[k].id, Worth(w, agent, tasks[k], |bundle|)))
  {
    var init, last, bundle := tasks[..|tasks| - 1], tasks[|tasks| - 1], BundleOf(s.bundles, agent.id);
    var before := Best(w, agent, init, bundle, s.winning);
    assert forall j :: 0 <= j < |init| ==> tasks[j] == init[j];
    k := i;
    if Open(w, s, agent, last)
       && (before.None? || Worth(w, agent, last, |bundle|) > Worth(w, agent, init[i], |bundle|)) {
      k := |init|;
    }
  }

  /** The agent adds its preferred task and records what it is worth to it. */
  ghost predicate Claims(w: World, s: State, n: State, agent: Agent, tasks: seq<Task>, i: nat) {
    var bundle := BundleOf(s.bundles, agent.id);
    && |bundle| < w.config.maxBundleSize && Preferred(w, s, agent, tasks, i)
    && n.bundles == s.bundles[agent.id := bundle + [tasks[i].id]]
    && n.winning == s.winning[tasks[i].id := Bid(agent.id, Worth(w, agent, tasks[i], |bundle|))]
  }

  /** The agent has no room, or nothing is open to it. */
  ghost predicate Passes(w: World, s: State, n: State, agent: Agent, tasks: seq<Task>) {
    var bundle := BundleOf(s.bundles, agent.id);
    && (|bundle| >= w.config.maxBundleSize || forall j :: 0 <= j < |tasks| ==> !Open(w, s, agent, tasks[j]))
    && n.bundles == s.bundles[agent.id := bundle] && n.winning == s.winning
  }

  ghost predicate Turn(w: World, s: State, n: State, agent: Agent, tasks: seq<Task>) {
    Passes(w, s, n, agent, tasks) || exists i: nat :: Claims(w, s, n, agent, tasks, i)
  }

  /** A turn: the first of the open tasks that are worth the most is claimed at its worth, and
      nothing is claimed exactly when there is no room or nothing open. */
  lemma TurnLaw(w: World, s: State, agent: Agent, tasks: seq<Task>)
    ensures Turn(w, s, AgentTurn(w, s, agent, tasks), agent, tasks)
  {
    var n, bundle := AgentTurn(w, s, agent, tasks), BundleOf(s.bundles, agent.id);
    if |bundle| < w.config.maxBundleSize {
      var i := BestIsPreferred(w, s, agent, tasks);
      if Best(w, agent, tasks, bundle, s.winning).Some? {
        assert Claims(w, s, n, agent, tasks, i);
      }
    }
  }

  /** One turn each, in the order of the list. */
  ghost predicate TurnStep(w: World, path: seq<State>, agents: seq<Agent>, tasks: seq<Task>, k: nat) {
    k < |agents| && |path| == |agents| + 1 && Turn(w, path[k], path[k + 1], agents[k], tasks)
  }

  ghost predicate TakeTurns(w: World, path: seq<State>, agents: seq<Agent>, tasks: seq<Task>) {
    |path| == |agents| + 1 && forall k :: 0 <= k < |agents| ==> TurnStep(w, path, agents, tasks, k)
  }

  /** Building bundles is one turn for each agent, in list order, each seeing what those before
      it have claimed. */
  lemma {:induction false} TurnsInOrder(w: World, s: State, agents: seq<Agent>, tasks: seq<Task>)
    returns (path: seq<State>)
    ensures TakeTurns(w, path, agents, tasks) && path[0] == s && path[|agents|] == Turns(w, s, agents, tasks)
  {
    path := [s];
    if agents != [] {
      var init, agent := agents[..|agents| - 1], agents[|agents| - 1];
      var before := TurnsInOrder(w, s, init, tasks);
      var n := Turns(w, s, agents, tasks);
      TurnLaw(w, before[|init|], agent, tasks);
      path := before + [n];
      forall k | 0 <= k < |agents| ensures TurnStep(w, path, agents, tasks, k) {
        assert k < |init| ==> TurnStep(w, before, init, tasks, k);
      }
    }
  }

  lemma FartherIsWorthLess(w: World, agent: Agent, near: Task, far: Task, held: nat)
    requires w.config.weightDistance > 0.0 && Away(w, agent, near) < Away(w, agent, far)
    ensures Worth(w, agent, far, held) < Worth(w, agent, near, held)
  {
    var k, x, y := w.config.weightDistance + 0.1 * held as real, Away(w, agent, near), Away(w, agent, far);
    assert k > 0.0 && (y - x) * k > 0.0;
    assert (y - x) * k == y * k - x * k;
  }

  /** Of two tasks the agent is able to do, neither in its bundle, a farther one is never claimed
      while the nearer one is free. */
  lemma NearerFirst(w: World, s: State, agent: Agent, tasks: seq<Task>, near: nat, far: nat)
    requires Distinct(Ids(tasks)) && near < |tasks| && far < |tasks| && w.config.weightDistance > 0.0
    requires Able(agent, tasks[near]) && tasks[near].id !in BundleOf(s.bundles, agent.id)
    requires tasks[near].id in s.winning ==> s.winning[tasks[near].id].agent == agent.id
    requires tasks[far].id !in BundleOf(s.bundles, agent.id)
    requires Away(w, agent, tasks[near]) < Away(w, agent, tasks[far])
    ensures tasks[far].id !in BundleOf(AgentTurn(w, s, agent, tasks).bundles, agent.id)
  {
    var n := AgentTurn(w, s, agent, tasks);
    TurnLaw(w, s, agent, tasks);
    if i: nat :| Claims(w, s, n, agent, tasks, i) {
      FartherIsWorthLess(w, agent, tasks[near], tasks[far], |BundleOf(s.bundles, agent.id)|);
      assert Open(w, s, agent, tasks[near]);
      assert Ids(tasks)[i] == tasks[i].id && Ids(tasks)[far] == tasks[far].id;
    }
  }

  // ----- rounds -----

  /** The call has an agent and a task of these names, and the agent is able to do the task. */
  ghost predicate AbleIn(agents: seq<Agent>, tasks: seq<Task>, a: string, t: string) {
    exists agent, task :: agent in agents && task in tasks && agent.id == a && task.id == t && Able(agent, task)
  }

  /** The bid is what a task of this name is worth to an able agent that holds fewer tasks than
      the limit. */
  ghost predicate FairBid(w: World, agents: seq<Agent>, tasks: seq<Task>, t: string, b: Bid) {
    exists agent, task, held: nat ::
      && agent in agents && task in tasks && agent.id == b.agent && task.id == t && Able(agent, task)
      && held < w.config.maxBundleSize && b.value == Worth(w, agent, task, held)
  }

  /** A recorded bid is the one recorded before, or a fair one. */
  ghost predicate OldOrFair(w: World, agents: seq<Agent>, tasks: seq<Task>, before: Bids, after: Bids, t: string) {
    t in after ==> (t in before && after[t] == before[t]) || FairBid(w, agents, tasks, t, after[t])
  }

  lemma TurnFair(w: World, s: State, agents: seq<Agent>, agent: Agent, tasks: seq<Task>, a: string, t: string)
    requires agent in agents
    ensures var n := AgentTurn(w, s, agent, tasks);
            && (t in BundleOf(n.bundles, a) && t !in BundleOf(s.bundles, a) ==> AbleIn(agents, tasks, a, t))
            && OldOrFair(w, agents, tasks, s.winning, n.winning, t)
  {
    var n, held := AgentTurn(w, s, agent, tasks), |BundleOf(s.bundles, agent.id)|;
    TurnLaw(w, s, agent, tasks);
    if i: nat :| Claims(w, s, n, agent, tasks, i) {
      var task := tasks[i];
      assert task in tasks && Able(agent, task);
      if t == task.id {
        assert n.winning[t].value == Worth(w, agent, task, held);
      }
    }
  }

  lemma {:induction false} TurnsFair(w: World, s: State, agents: seq<Agent>, all: seq<Agent>, tasks: seq<Task>,
                                     a: string, t: string)
    requires forall agent :: agent in agents ==> agent in all
    ensures var n := Turns(w, s, agents, tasks);
            && (t in BundleOf(n.bundles, a) && t !in BundleOf(s.bundles, a) ==> AbleIn(all, tasks, a, t))
            && OldOrFair(w, all, tasks, s.winning, n.winning, t)
  {
    if agents != [] {
      var init, agent := agents[..|agents| - 1], agents[|agents| - 1];
      assert agent in agents && forall x :: x in init ==> x in agents;
      TurnsFair(w, s, init, all, tasks, a, t);
      TurnFair(w, Turns(w, s, init, tasks), all, agent, tasks, a, t);
    }
  }

  lemma BuiltFair(w: World, s: State, agents: seq<Agent>, tasks: seq<Task>, a: string, t: string)
    ensures var n := Built(w, s, agents, tasks);
            && (t in BundleOf(n.bundles, a) && t !in BundleOf(s.bundles, a) ==> AbleIn(agents, tasks, a, t))
            && OldOrFair(w, agents, tasks, s.winning, n.winning, t)
  {
    var cleaned := Cleanup(StartRound(s, tasks), agents, tasks);
    assert t in BundleOf(cleaned.bundles, a) ==> t in BundleOf(s.bundles, a);
    TurnsFair(w, cleaned, agents, agents, tasks, a, t);
  }

  /** In a round, whatever the state it starts from: a task newly in an agent's bundle is one the
      agent is able to do, and a new bid is the task's worth to its agent. */
  lemma RoundFair(w: World, s: State, lossRate: real, agents: seq<Agent>, tasks: seq<Task>, a: string, t: string)
    requires Sound(w, s) && Permuting(w.planner)
    ensures var r := Round(w, s, lossRate, agents, tasks);
            && (t in BundleOf(r.bundles, a) && t !in BundleOf(s.bundles, a) ==> AbleIn(agents, tasks, a, t))
            && OldOrFair(w, agents, tasks, s.winning, r.winning, t)
  {
    var built := Built(w, s, agents, tasks);
    BuiltFair(w, s, agents, tasks, a, t);
    BuiltSound(w, s, agents, tasks);
    OrderingReorders(w, built, agents, tasks);
    RestOfRound(w, s, lossRate, agents, tasks);
    ReorderedMember(built, OrderBundles(w, built, agents, tasks), a, t);
  }

  lemma ReorderedMember(s: State, n: State, a: string, t: string)
    requires Reordered(s, n)
    ensures t in BundleOf(n.bundles, a) <==> t in BundleOf(s.bundles, a)
  {
    if a in s.bundles {
      assert SameBundle(s, n, a);
      SameElements(n.bundles[a], s.bundles[a], t);
    }
  }

  // ----- runs -----

  ghost predicate AbleOnce(calls: seq<Call>, a: string, t: string) {
    exists k :: 0 <= k < |calls| && AbleIn(calls[k].agents, calls[k].tasks, a, t)
  }

  ghost predicate FairOnce(w: World, calls: seq<Call>, t: string, b: Bid) {
    exists k :: 0 <= k < |calls| && FairBid(w, calls[k].agents, calls[k].tasks, t, b)
  }

  /** Over every run, agents only ever hold tasks they were able to do when they claimed them, and
      every recorded bid is what the task was worth to its agent at that call. */
  lemma {:induction false} EveryRunFair(w: World, calls: seq<Call>, a: string, t: string)
    requires Permuting(w.planner)
    ensures t in BundleOf(Run(w, calls).bundles, a) ==> AbleOnce(calls, a, t)
    ensures t in Run(w, calls).winning ==> FairOnce(w, calls, t, Run(w, calls).winning[t])
  {
    if calls != [] {
      var init, c := calls[..|calls| - 1], calls[|calls| - 1];
      EveryRunFair(w, init, a, t);
      EveryRunSound(w, init);
      RoundFair(w, Run(w, init), c.lossRate, c.agents, c.tasks, a, t);
      OnceLonger(w, calls, a, t);
    }
  }

  lemma OnceLonger(w: World, calls: seq<Call>, a: string, t: string)
    requires calls != []
    ensures AbleOnce(calls[..|calls| - 1], a, t) ==> AbleOnce(calls, a, t)
    ensures forall b :: FairOnce(w, calls[..|calls| - 1], t, b) ==> FairOnce(w, calls, t, b)
  {
    assert forall k :: 0 <= k < |calls| - 1 ==> calls[..|calls| - 1][k] == calls[k];
  }

  // ----- what else a round leaves behind -----

  /** The bid is for a task of the call by an agent of the call. */
  ghost predicate Lives(agents: seq<Agent>, tasks: seq<Task>, t: string, b: Bid) {
    (exists agent :: agent in agents && agent.id == b.agent) && exists task :: task in tasks && task.id == t
  }

  /** `after` holds exactly the bids of `before` that live. */
  ghost predicate Survive(before: Bids, after: Bids, agents: seq<Agent>, tasks: seq<Task>) {
    && (forall t :: t in after ==> t in before && after[t] == before[t])
    && forall t :: t in before ==> (t in after <==> Lives(agents, tasks, t, before[t]))
  }

  lemma RetainedSurvive(bids: Bids, agents: seq<Agent>, tasks: seq<Task>)
    ensures Survive(bids, RetainBids(bids, agents, tasks), agents, tasks)
  {
  }

  /** Before the turns, exactly the bids that live are left, and of the bundles of the agents
      of the call exactly the tasks with a bid left. */
  lemma KeptExactly(s: State, agents: seq<Agent>, tasks: seq<Task>, a: string, t: string)
    ensures var c := Cleanup(s, agents, tasks);
            && Survive(s.winning, c.winning, agents, tasks)
            && (t in BundleOf(c.bundles, a) <==>
                  t in BundleOf(s.bundles, a) && t in c.winning && exists agent :: agent in agents && agent.id == a)
  {
    RetainedSurvive(s.winning, agents, tasks);
  }

  /** A round is converged exactly when it was before and there is nothing to do, when the bids
      that live of those recorded by the round before are the bids now, and this is no
      rebroadcast, or when the rounds are used up; and the bids now are recorded. */
  lemma ConvergedExactly(w: World, s: State, lossRate: real, agents: seq<Agent>, tasks: seq<Task>)
    returns (recorded: Bids)
    ensures Survive(s.previous, recorded, agents, tasks)
    ensures var r := Round(w, s, lossRate, agents, tasks);
            && (r.converged <==>
                  || (tasks == [] && s.converged)
                  || (recorded == r.winning != map[] && !RebroadcastDue(w, lossRate, s.round + 1))
                  || s.round + 1 >= w.config.maxRounds)
            && (tasks != [] || !s.converged ==> r.previous == r.winning)
  {
    recorded := RetainBids(s.previous, agents, tasks);
    RetainedSurvive(s.previous, agents, tasks);
    var cleaned := Cleanup(StartRound(s, tasks), agents, tasks);
    TurnsRecord(w, cleaned, agents, tasks);
    var ordered := OrderBundles(w, Built(w, s, agents, tasks), agents, tasks);
    EndConverged(w, ordered, lossRate, agents);
  }

  lemma {:induction false} TurnsRecord(w: World, s: State, agents: seq<Agent>, tasks: seq<Task>)
    ensures var n := Turns(w, s, agents, tasks);
            n.previous == s.previous && n.converged == s.converged && n.round == s.round
  {
    if agents != [] {
      TurnsRecord(w, s, agents[..|agents| - 1], tasks);
    }
  }

  lemma EndConverged(w: World, s: State, lossRate: real, agents: seq<Agent>)
    requires s.round > 0
    ensures var r := CheckConvergence(w, Rebroadcast(w, s, lossRate, agents));
            && r.winning == s.winning
            && (r.converged <==>
                  || s.converged
                  || (s.previous == s.winning != map[] && !RebroadcastDue(w, lossRate, s.round))
                  || s.round >= w.config.maxRounds)
            && (!s.converged ==> r.previous == r.winning)
  {
  }

  /** Above the loss threshold, every so many rounds; the interval is cut to 32 bits, and an
      interval of zero never comes round. */
  predicate RebroadcastDue(w: World, lossRate: real, round: nat) {
    var every := w.config.backoffTicks % 0x1_0000_0000;
    lossRate > w.config.lossThreshold && every > 0 && round % every == 0
  }

  lemma EndCounters(w: World, s: State, lossRate: real, agents: seq<Agent>)
    requires s.round > 0
    ensures var r := CheckConvergence(w, Rebroadcast(w, s, lossRate, agents));
            && r.round == s.round
            && r.messages == s.messages + if RebroadcastDue(w, lossRate, s.round) then |agents| else 0
  {
  }

  /** The round counter moves on by one, and messages are counted once per agent exactly in the
      rounds that rebroadcast. */
  lemma RoundCounters(w: World, s: State, lossRate: real, agents: seq<Agent>, tasks: seq<Task>)
    ensures var r := Round(w, s, lossRate, agents, tasks);
            && r.round == s.round + 1
            && r.messages == s.messages + if RebroadcastDue(w, lossRate, s.round + 1) then |agents| else 0
  {
    TurnsCount(w, Cleanup(StartRound(s, tasks), agents, tasks), agents, tasks);
    var ordered := OrderBundles(w, Built(w, s, agents, tasks), agents, tasks);
    assert ordered.round == s.round + 1 && ordered.messages == s.messages;
    EndCounters(w, ordered, lossRate, agents);
  }

  lemma {:induction false} TurnsCount(w: World, s: State, agents: seq<Agent>, tasks: seq<Task>)
    ensures Turns(w, s, agents, tasks).round == s.round && Turns(w, s, agents, tasks).messages == s.messages
  {
    if agents != [] {
      TurnsCount(w, s, agents[..|agents| - 1], tasks);
    }
  }

  /** The planner's answer for an agent of the list, from its pose and for tasks of the list. */
  ghost predicate PlannedFor(w: World, agents: seq<Agent>, tasks: seq<Task>, id: string, bundle: seq<string>) {
    exists agent, stops ::
      && agent in agents && agent.id == id && (forall t :: t in stops ==> t in tasks)
      && bundle == w.planner(agent.pose, stops, agent.(batteryModel := None))
  }

  lemma {:induction false} StopsAreTasks(bundle: seq<string>, tasks: seq<Task>, t: Task)
    requires t in TasksOf(bundle, tasks)
    ensures t in tasks
  {
    if bundle != [] && FindTask(tasks, bundle[|bundle| - 1]) != Some(t) {
      StopsAreTasks(bundle[..|bundle| - 1], tasks, t);
    }
  }

  /** After a round every bundle is in the order the planner gives for its agent's pose. */
  lemma BundlesPlanned(w: World, s: State, lossRate: real, agents: seq<Agent>, tasks: seq<Task>, id: string)
    requires Sound(w, s) && Permuting(w.planner) && id in Round(w, s, lossRate, agents, tasks).bundles
    ensures PlannedFor(w, agents, tasks, id, Round(w, s, lossRate, agents, tasks).bundles[id])
  {
    var built := Built(w, s, agents, tasks);
    BuiltSound(w, s, agents, tasks);
    RestOfRound(w, s, lossRate, agents, tasks);
    assert id in built.bundles && id in AgentIds(agents);
    var agent, stops := FindAgent(agents, id).value, TasksOf(built.bundles[id], tasks);
    forall t | t in stops ensures t in tasks {
      StopsAreTasks(built.bundles[id], tasks, t);
    }
    assert agent in agents && agent.id == id;
  }
}
