/** With agents and tasks fixed, rounds reach an equilibrium in bounded time, stay there, and
    report convergence exactly then. */
module CbbaConvergence {
  import opened Basics
  import opened Fleet
  import opened Cbba

  /** Agent `a` has room and could still win task `t`. */
  predicate CanAdd(w: World, s: State, a: Agent, t: Task) {
    && |BundleOf(s.bundles, a.id)| < w.config.maxBundleSize
    && Eligible(w, a, t, BundleOf(s.bundles, a.id), s.winning)
  }

  /** None of the agents can improve its bundle against the recorded bids. */
  predicate Equilibrium(w: World, s: State, agents: seq<Agent>, tasks: seq<Task>) {
    forall a, t :: a in agents && t in tasks ==> !CanAdd(w, s, a, t)
  }

  // ----- one pass over the agents -----

  ghost predicate SameHoldings(s: State, n: State) {
    n.winning == s.winning && forall id :: BundleOf(n.bundles, id) == BundleOf(s.bundles, id)
  }

  ghost predicate BundlesGrow(s: State, n: State) {
    forall id :: |BundleOf(s.bundles, id)| <= |BundleOf(n.bundles, id)|
  }

  /** Some task is newly won or won at a higher bid. */
  ghost predicate Raised(s: State, n: State, t: string) {
    t in n.winning && (t in s.winning ==> s.winning[t].value < n.winning[t].value)
  }

  ghost predicate Advanced(s: State, n: State, agents: seq<Agent>) {
    && BundlesGrow(s, n)
    && (exists a :: a in agents && |BundleOf(s.bundles, a.id)| < |BundleOf(n.bundles, a.id)|)
    && (exists t :: Raised(s, n, t))
  }

  lemma IdleMeansNothing(w: World, s: State, agent: Agent, tasks: seq<Task>)
    requires Sound(w, s) && Idle(s, AgentTurn(w, s, agent, tasks), agent)
    ensures forall t :: t in tasks ==> !CanAdd(w, s, agent, t)
  {
    var bundle := BundleOf(s.bundles, agent.id);
    BestIsBest(w, agent, tasks, bundle, s.winning);
    assert s.bundles[agent.id := bundle][agent.id] == bundle;
  }

  /** The pass either adds nothing, and then no agent could, or it advances. */
  ghost predicate PassOutcome(w: World, s: State, n: State, agents: seq<Agent>, tasks: seq<Task>) {
    (SameHoldings(s, n) && Equilibrium(w, s, agents, tasks)) || Advanced(s, n, agents)
  }

  lemma SameHoldingsSameChoices(w: World, s: State, n: State, a: Agent, tasks: seq<Task>)
    requires SameHoldings(s, n) && forall t :: t in tasks ==> !CanAdd(w, n, a, t)
    ensures forall t :: t in tasks ==> !CanAdd(w, s, a, t)
  {
    assert BundleOf(n.bundles, a.id) == BundleOf(s.bundles, a.id);
    forall t | t in tasks ensures !CanAdd(w, s, a, t) {
      assert !CanAdd(w, n, a, t);
    }
  }

  lemma IdleStep(s: State, n: State, agent: Agent)
    requires Idle(s, n, agent)
    ensures SameHoldings(s, n)
  {
  }

  lemma ClaimStep(s: State, n: State, agent: Agent, t: string)
    requires Claimed(s, n, agent, t)
    ensures BundlesGrow(s, n) && |BundleOf(s.bundles, agent.id)| < |BundleOf(n.bundles, agent.id)|
    ensures Raised(s, n, t)
  {
  }

  lemma AdvanceContinues(s: State, m: State, n: State, agents: seq<Agent>, agent: Agent, t: string)
    requires Advanced(s, m, agents) && (SameHoldings(m, n) || Claimed(m, n, agent, t))
    ensures Advanced(s, n, agents + [agent])
  {
    forall id ensures |BundleOf(s.bundles, id)| <= |BundleOf(n.bundles, id)| {
      assert |BundleOf(s.bundles, id)| <= |BundleOf(m.bundles, id)| <= |BundleOf(n.bundles, id)|;
    }
    var a :| a in agents && |BundleOf(s.bundles, a.id)| < |BundleOf(m.bundles, a.id)|;
    assert a in agents + [agent];
    assert |BundleOf(m.bundles, a.id)| <= |BundleOf(n.bundles, a.id)|;
    var x :| Raised(s, m, x);
    assert Raised(s, n, x);
  }

  lemma AdvanceStarts(s: State, m: State, n: State, agents: seq<Agent>, agent: Agent, t: string)
    requires SameHoldings(s, m) && Claimed(m, n, agent, t)
    ensures Advanced(s, n, agents + [agent])
  {
    ClaimStep(m, n, agent, t);
    forall id ensures |BundleOf(s.bundles, id)| <= |BundleOf(n.bundles, id)| {
      assert BundleOf(m.bundles, id) == BundleOf(s.bundles, id);
      assert |BundleOf(m.bundles, id)| <= |BundleOf(n.bundles, id)|;
    }
    assert BundleOf(m.bundles, agent.id) == BundleOf(s.bundles, agent.id);
    assert agent in agents + [agent];
    assert Raised(s, n, t);
  }

  lemma {:induction false} PassEffect(w: World, s: State, agents: seq<Agent>, tasks: seq<Task>)
    requires Sound(w, s)
    ensures PassOutcome(w, s, Turns(w, s, agents, tasks), agents, tasks)
  {
    if agents != [] {
      var init, agent := agents[..|agents| - 1], agents[|agents| - 1];
      assert agents == init + [agent];
      var m, n := Turns(w, s, init, tasks), Turns(w, s, agents, tasks);
      PassEffect(w, s, init, tasks);
      TurnsSound(w, s, init, tasks);
      var t := TurnEffect(w, m, agent, tasks);
      if Idle(m, n, agent) {
        IdleStep(m, n, agent);
        if SameHoldings(s, m) && Equilibrium(w, s, init, tasks) {
          IdleMeansNothing(w, m, agent, tasks);
          SameHoldingsSameChoices(w, s, m, agent, tasks);
        } else {
          AdvanceContinues(s, m, n, init, agent, t);
        }
      } else if SameHoldings(s, m) {
        AdvanceStarts(s, m, n, init, agent, t);
      } else {
        AdvanceContinues(s, m, n, init, agent, t);
      }
    }
  }

  /** An advance is possible only away from equilibrium. */
  lemma AdvancedNotSame(s: State, n: State, agents: seq<Agent>)
    requires Advanced(s, n, agents)
    ensures !SameHoldings(s, n) && n.winning != s.winning
  {
    var t :| Raised(s, n, t);
  }

  /** At equilibrium a pass over the agents adds nothing. */
  lemma {:induction false} PassAtEquilibrium(w: World, s: State, agents: seq<Agent>, tasks: seq<Task>)
    requires Sound(w, s) && Equilibrium(w, s, agents, tasks)
    ensures SameHoldings(s, Turns(w, s, agents, tasks))
  {
    if agents != [] {
      var init, agent := agents[..|agents| - 1], agents[|agents| - 1];
      assert agents == init + [agent];
      var m := Turns(w, s, init, tasks);
      PassAtEquilibrium(w, s, init, tasks);
      assert BundleOf(m.bundles, agent.id) == BundleOf(s.bundles, agent.id);
      BestIsBest(w, agent, tasks, BundleOf(s.bundles, agent.id), s.winning);
      if |BundleOf(s.bundles, agent.id)| < w.config.maxBundleSize {
        forall t | t in tasks ensures !Eligible(w, agent, t, BundleOf(s.bundles, agent.id), s.winning) {
          assert agent in agents && !CanAdd(w, s, agent, t);
        }
      }
    }
  }

  // ----- the load -----

  /** Total number of bundle slots in use. */
  function Load(bundles: Bundles, agents: seq<Agent>): nat {
    if agents == [] then 0
    else Load(bundles, agents[..|agents| - 1]) + |BundleOf(bundles, agents[|agents| - 1].id)|
  }

  lemma {:induction false} LoadGrows(s: State, n: State, agents: seq<Agent>)
    requires BundlesGrow(s, n)
    ensures Load(s.bundles, agents) <= Load(n.bundles, agents)
    ensures (exists a :: a in agents && |BundleOf(s.bundles, a.id)| < |BundleOf(n.bundles, a.id)|) ==>
              Load(s.bundles, agents) < Load(n.bundles, agents)
  {
    if agents != [] {
      var init, agent := agents[..|agents| - 1], agents[|agents| - 1];
      assert agents == init + [agent];
      LoadGrows(s, n, init);
      assert |BundleOf(s.bundles, agent.id)| <= |BundleOf(n.bundles, agent.id)|;
    }
  }

  function Capacity(w: World, tasks: seq<Task>): nat {
    if w.config.maxBundleSize <= |tasks| then w.config.maxBundleSize else |tasks|
  }

  lemma BundleFits(w: World, s: State, agents: seq<Agent>, tasks: seq<Task>, a: string)
    requires Sound(w, s) && Live(s, agents, tasks)
    ensures |BundleOf(s.bundles, a)| <= Capacity(w, tasks)
  {
    if a in s.bundles {
      assert BundleOk(w, s, a);
      DistinctCount(s.bundles[a]);
      TaskIdsCount(tasks);
      SubsetCount(Elements(s.bundles[a]), TaskIds(tasks));
    }
  }

  lemma OneMore(n: nat, k: nat)
    ensures (n + 1) * k == n * k + k
  {
  }

  lemma {:induction false} LoadBounded(w: World, s: State, all: seq<Agent>, agents: seq<Agent>, tasks: seq<Task>)
    requires Sound(w, s) && Live(s, all, tasks)
    ensures Load(s.bundles, agents) <= |agents| * Capacity(w, tasks)
  {
    if agents != [] {
      var init := agents[..|agents| - 1];
      LoadBounded(w, s, all, init, tasks);
      BundleFits(w, s, all, tasks, agents[|agents| - 1].id);
      OneMore(|init|, Capacity(w, tasks));
    }
  }

  // ----- a round from a settled state -----

  /** A state some round may start from when the lists stay as they are. */
  ghost predicate Settled(w: World, s: State, agents: seq<Agent>, tasks: seq<Task>) {
    Sound(w, s) && Live(s, agents, tasks) && s.previous == s.winning
  }

  lemma CleanupIsIdentity(w: World, s: State, agents: seq<Agent>, tasks: seq<Task>)
    requires Settled(w, s, agents, tasks)
    ensures Cleanup(s, agents, tasks) == s
  {
    forall t | t in s.winning ensures s.winning[t].agent in AgentIds(agents) && t in TaskIds(tasks) {
      assert WinnerHolds(s, t);
    }
    assert RetainBids(s.winning, agents, tasks) == s.winning;
    var c := Cleanup(s, agents, tasks);
    forall a | a in s.bundles ensures c.bundles[a] == s.bundles[a] {
      assert BundleOk(w, s, a);
    }
    assert c.bundles == s.bundles;
  }

  /** Bundles hold the same tasks, in whatever order. */
  ghost predicate SameTasks(s: State, n: State) {
    n.winning == s.winning
    && forall id :: multiset(BundleOf(n.bundles, id)) == multiset(BundleOf(s.bundles, id))
  }

  lemma ScoreByLength(w: World, a: Agent, t: Task, b: seq<string>, b': seq<string>)
    requires |b| == |b'|
    ensures MarginalScore(w, a, t, b') == MarginalScore(w, a, t, b)
  {
    assert b != [] <==> b' != [];
  }

  lemma SameTasksSameChoices(w: World, s: State, n: State, agents: seq<Agent>, tasks: seq<Task>)
    requires SameTasks(s, n) && Equilibrium(w, s, agents, tasks)
    ensures Equilibrium(w, n, agents, tasks)
  {
    forall a, t | a in agents && t in tasks ensures !CanAdd(w, n, a, t) {
      assert !CanAdd(w, s, a, t);
      var b, b' := BundleOf(s.bundles, a.id), BundleOf(n.bundles, a.id);
      PermutationKeeps(b', b);
      ScoreByLength(w, a, t, b, b');
    }
  }

  lemma ReorderedHoldings(s: State, n: State)
    requires Reordered(s, n)
    ensures SameTasks(s, n)
  {
    forall id ensures multiset(BundleOf(n.bundles, id)) == multiset(BundleOf(s.bundles, id)) {
      assert id in s.bundles ==> SameBundle(s, n, id);
    }
  }

  /** Bookkeeping of a round that is neither rebroadcast nor skipped. */
  lemma RoundBookkeeping(w: World, s: State, lossRate: real, agents: seq<Agent>, tasks: seq<Task>)
    requires Settled(w, s, agents, tasks) && Permuting(w.planner) && tasks != [] && lossRate <= w.config.lossThreshold
    ensures var r, pass := Round(w, s, lossRate, agents, tasks), Turns(w, StartRound(s, tasks), agents, tasks);
            && SameTasks(pass, r) && r.previous == r.winning && r.round == s.round + 1
            && (r.converged <==> (pass.winning == s.winning && s.winning != map[]) || r.round >= w.config.maxRounds)
  {
    var started := StartRound(s, tasks);
    SoundIgnoresRest(w, s, started);
    CleanupIsIdentity(w, started, agents, tasks);
    var pass := Turns(w, started, agents, tasks);
    assert Built(w, s, agents, tasks) == pass;
    BuiltSound(w, s, agents, tasks);
    OrderingReorders(w, pass, agents, tasks);
    TurnsKeepRest(w, started, agents, tasks);
    ReorderedHoldings(pass, OrderBundles(w, pass, agents, tasks));
  }

  lemma {:induction false} TurnsKeepRest(w: World, s: State, agents: seq<Agent>, tasks: seq<Task>)
    ensures var n := Turns(w, s, agents, tasks);
            n.previous == s.previous && n.round == s.round && n.converged == s.converged
  {
    if agents != [] {
      TurnsKeepRest(w, s, agents[..|agents| - 1], tasks);
    }
  }

  lemma RoundSettled(w: World, s: State, lossRate: real, agents: seq<Agent>, tasks: seq<Task>)
    requires Settled(w, s, agents, tasks) && Permuting(w.planner) && tasks != [] && lossRate <= w.config.lossThreshold
    ensures Settled(w, Round(w, s, lossRate, agents, tasks), agents, tasks)
  {
    RoundSound(w, s, lossRate, agents, tasks);
    RoundBookkeeping(w, s, lossRate, agents, tasks);
  }

  /** At equilibrium a round changes no bid and no bundle content, and stays at equilibrium. */
  lemma RoundAtEquilibrium(w: World, s: State, lossRate: real, agents: seq<Agent>, tasks: seq<Task>)
    requires Settled(w, s, agents, tasks) && Permuting(w.planner) && tasks != [] && lossRate <= w.config.lossThreshold
    requires Equilibrium(w, s, agents, tasks)
    ensures SameTasks(s, Round(w, s, lossRate, agents, tasks))
    ensures Equilibrium(w, Round(w, s, lossRate, agents, tasks), agents, tasks)
  {
    var started := StartRound(s, tasks);
    SoundIgnoresRest(w, s, started);
    StartKeepsChoices(w, s, agents, tasks);
    PassAtEquilibrium(w, started, agents, tasks);
    RoundBookkeeping(w, s, lossRate, agents, tasks);
    var r, pass := Round(w, s, lossRate, agents, tasks), Turns(w, started, agents, tasks);
    forall id ensures multiset(BundleOf(r.bundles, id)) == multiset(BundleOf(s.bundles, id)) {
      assert BundleOf(pass.bundles, id) == BundleOf(started.bundles, id);
      assert multiset(BundleOf(r.bundles, id)) == multiset(BundleOf(pass.bundles, id));
    }
    SameTasksSameChoices(w, s, r, agents, tasks);
  }

  lemma StartKeepsChoices(w: World, s: State, agents: seq<Agent>, tasks: seq<Task>)
    ensures Equilibrium(w, StartRound(s, tasks), agents, tasks) <==> Equilibrium(w, s, agents, tasks)
  {
    var started := StartRound(s, tasks);
    forall a, t ensures CanAdd(w, started, a, t) <==> CanAdd(w, s, a, t) {
    }
  }

  /** Away from equilibrium a round changes the bids and uses more bundle slots. */
  lemma RoundAwayFromEquilibrium(w: World, s: State, lossRate: real, agents: seq<Agent>, tasks: seq<Task>)
    requires Settled(w, s, agents, tasks) && Permuting(w.planner) && tasks != [] && lossRate <= w.config.lossThreshold
    requires !Equilibrium(w, s, agents, tasks)
    ensures Round(w, s, lossRate, agents, tasks).winning != s.winning
    ensures Load(s.bundles, agents) < Load(Round(w, s, lossRate, agents, tasks).bundles, agents)
  {
    var started := StartRound(s, tasks);
    SoundIgnoresRest(w, s, started);
    StartKeepsChoices(w, s, agents, tasks);
    PassEffect(w, started, agents, tasks);
    var r, pass := Round(w, s, lossRate, agents, tasks), Turns(w, started, agents, tasks);
    AdvancedNotSame(started, pass, agents);
    RoundBookkeeping(w, s, lossRate, agents, tasks);
    LoadGrows(started, pass, agents);
    forall id ensures |BundleOf(pass.bundles, id)| <= |BundleOf(r.bundles, id)| {
      assert multiset(BundleOf(r.bundles, id)) == multiset(BundleOf(pass.bundles, id));
      PermutationKeeps(BundleOf(r.bundles, id), BundleOf(pass.bundles, id));
    }
    LoadGrows(pass, r, agents);
  }

  /** Convergence is reported exactly at equilibrium with at least one bid, or at the cap on
      the number of rounds. */
  lemma ConvergedMeansEquilibrium(w: World, s: State, lossRate: real, agents: seq<Agent>, tasks: seq<Task>)
    requires Settled(w, s, agents, tasks) && Permuting(w.planner) && tasks != [] && lossRate <= w.config.lossThreshold
    ensures var r := Round(w, s, lossRate, agents, tasks);
            r.converged <==> (Equilibrium(w, s, agents, tasks) && s.winning != map[]) || r.round >= w.config.maxRounds
  {
    RoundBookkeeping(w, s, lossRate, agents, tasks);
    var r := Round(w, s, lossRate, agents, tasks);
    if Equilibrium(w, s, agents, tasks) {
      RoundAtEquilibrium(w, s, lossRate, agents, tasks);
    } else {
      RoundAwayFromEquilibrium(w, s, lossRate, agents, tasks);
    }
  }

  // ----- rounds with fixed lists -----

  /** The next state comes from a round in which nothing is rebroadcast. */
  ghost predicate QuietStep(w: World, agents: seq<Agent>, tasks: seq<Task>, s: State, r: State) {
    exists lossRate: real :: lossRate <= w.config.lossThreshold && r == Round(w, s, lossRate, agents, tasks)
  }

  ghost predicate StepAt(w: World, agents: seq<Agent>, tasks: seq<Task>, trace: seq<State>, i: nat)
    requires i + 1 < |trace|
  {
    QuietStep(w, agents, tasks, trace[i], trace[i + 1])
  }

  /** The states of a fresh allocator round after round, agents and tasks staying the same. */
  ghost predicate IsRun(w: World, agents: seq<Agent>, tasks: seq<Task>, trace: seq<State>) {
    && |trace| > 0 && trace[0] == FRESH && Permuting(w.planner)
    && forall i: nat :: i + 1 < |trace| ==> StepAt(w, agents, tasks, trace, i)
  }

  lemma FreshSettled(w: World, agents: seq<Agent>, tasks: seq<Task>)
    ensures Settled(w, FRESH, agents, tasks)
  {
  }

  lemma SettledNext(w: World, agents: seq<Agent>, tasks: seq<Task>, trace: seq<State>, i: nat)
    requires IsRun(w, agents, tasks, trace) && tasks != [] && i + 1 < |trace| && Settled(w, trace[i], agents, tasks)
    ensures Settled(w, trace[i + 1], agents, tasks)
  {
    assert StepAt(w, agents, tasks, trace, i);
    var lossRate: real :| lossRate <= w.config.lossThreshold
                       && trace[i + 1] == Round(w, trace[i], lossRate, agents, tasks);
    RoundSettled(w, trace[i], lossRate, agents, tasks);
  }

  lemma {:induction false} SettledAt(w: World, agents: seq<Agent>, tasks: seq<Task>, trace: seq<State>, i: nat)
    requires IsRun(w, agents, tasks, trace) && tasks != [] && i < |trace|
    ensures Settled(w, trace[i], agents, tasks)
  {
    if i == 0 {
      FreshSettled(w, agents, tasks);
    } else {
      SettledAt(w, agents, tasks, trace, i - 1);
      SettledNext(w, agents, tasks, trace, i - 1);
    }
  }

  ghost predicate DoneOrUsed(w: World, s: State, agents: seq<Agent>, tasks: seq<Task>, used: nat) {
    Equilibrium(w, s, agents, tasks) || Load(s.bundles, agents) >= used
  }

  lemma SlotUsed(w: World, agents: seq<Agent>, tasks: seq<Task>, trace: seq<State>, i: nat)
    requires IsRun(w, agents, tasks, trace) && tasks != [] && i + 1 < |trace|
    requires Settled(w, trace[i], agents, tasks) && DoneOrUsed(w, trace[i], agents, tasks, i)
    ensures DoneOrUsed(w, trace[i + 1], agents, tasks, i + 1)
  {
    assert StepAt(w, agents, tasks, trace, i);
    var s := trace[i];
    var lossRate: real :| lossRate <= w.config.lossThreshold && trace[i + 1] == Round(w, s, lossRate, agents, tasks);
    if Equilibrium(w, s, agents, tasks) {
      RoundAtEquilibrium(w, s, lossRate, agents, tasks);
    } else {
      RoundAwayFromEquilibrium(w, s, lossRate, agents, tasks);
    }
  }

  /** As long as there is no equilibrium, every round uses up at least one more slot. */
  lemma {:induction false} SlotsUsed(w: World, agents: seq<Agent>, tasks: seq<Task>, trace: seq<State>, i: nat)
    requires IsRun(w, agents, tasks, trace) && tasks != [] && i < |trace|
    ensures DoneOrUsed(w, trace[i], agents, tasks, i)
  {
    if i > 0 {
      SlotsUsed(w, agents, tasks, trace, i - 1);
      SettledAt(w, agents, tasks, trace, i - 1);
      SlotUsed(w, agents, tasks, trace, i - 1);
    }
  }

  function RoundBound(w: World, agents: seq<Agent>, tasks: seq<Task>): nat {
    |agents| * Capacity(w, tasks)
  }

  /** With every slot in use there is nothing left to add. */
  lemma FullHouse(w: World, s: State, agents: seq<Agent>, tasks: seq<Task>)
    requires Settled(w, s, agents, tasks) && Permuting(w.planner) && tasks != []
    requires Load(s.bundles, agents) >= RoundBound(w, agents, tasks)
    ensures Equilibrium(w, s, agents, tasks)
  {
    var lossRate := w.config.lossThreshold;
    if !Equilibrium(w, s, agents, tasks) {
      RoundAwayFromEquilibrium(w, s, lossRate, agents, tasks);
      RoundSettled(w, s, lossRate, agents, tasks);
      LoadBounded(w, Round(w, s, lossRate, agents, tasks), agents, agents, tasks);
    }
  }

  lemma EquilibriumInTime(w: World, agents: seq<Agent>, tasks: seq<Task>, trace: seq<State>, bound: nat)
    requires IsRun(w, agents, tasks, trace) && tasks != [] && bound < |trace| && bound == RoundBound(w, agents, tasks)
    ensures Equilibrium(w, trace[bound], agents, tasks)
  {
    SlotsUsed(w, agents, tasks, trace, bound);
    SettledAt(w, agents, tasks, trace, bound);
    if !Equilibrium(w, trace[bound], agents, tasks) {
      FullHouse(w, trace[bound], agents, tasks);
    }
  }

  /** At equilibrium a further round keeps bids, bundle contents and the equilibrium, and
      reports convergence if there is any bid. */
  lemma StableNext(w: World, agents: seq<Agent>, tasks: seq<Task>, trace: seq<State>, i: nat)
    requires IsRun(w, agents, tasks, trace) && tasks != [] && i + 1 < |trace|
    requires Settled(w, trace[i], agents, tasks) && Equilibrium(w, trace[i], agents, tasks)
    ensures Equilibrium(w, trace[i + 1], agents, tasks) && SameTasks(trace[i], trace[i + 1])
    ensures trace[i].winning != map[] ==> trace[i + 1].converged
  {
    assert StepAt(w, agents, tasks, trace, i);
    var lossRate: real :| lossRate <= w.config.lossThreshold
                       && trace[i + 1] == Round(w, trace[i], lossRate, agents, tasks);
    RoundAtEquilibrium(w, trace[i], lossRate, agents, tasks);
    ConvergedMeansEquilibrium(w, trace[i], lossRate, agents, tasks);
  }

  lemma {:induction false} StableFrom(w: World, agents: seq<Agent>, tasks: seq<Task>, trace: seq<State>, m: nat, n: nat)
    requires IsRun(w, agents, tasks, trace) && tasks != [] && m <= n < |trace|
    requires Equilibrium(w, trace[m], agents, tasks)
    ensures Equilibrium(w, trace[n], agents, tasks) && SameTasks(trace[m], trace[n])
    ensures n > m && trace[m].winning != map[] ==> trace[n].converged
    decreases n
  {
    if m < n {
      StableFrom(w, agents, tasks, trace, m, n - 1);
      SettledAt(w, agents, tasks, trace, n - 1);
      StableNext(w, agents, tasks, trace, n - 1);
      SameTasksTransitive(trace[m], trace[n - 1], trace[n]);
    }
  }

  lemma SameTasksTransitive(a: State, b: State, c: State)
    requires SameTasks(a, b) && SameTasks(b, c)
    ensures SameTasks(a, c)
  {
    forall id ensures multiset(BundleOf(c.bundles, id)) == multiset(BundleOf(a.bundles, id)) {
      assert multiset(BundleOf(c.bundles, id)) == multiset(BundleOf(b.bundles, id));
      assert multiset(BundleOf(b.bundles, id)) == multiset(BundleOf(a.bundles, id));
    }
  }

  // ----- without tasks -----

  lemma SomethingIn(bundle: seq<string>)
    ensures bundle == [] || exists t :: t in bundle
  {
    assert bundle == [] || bundle[0] in bundle;
  }

  lemma NothingHeld(w: World, s: State, agents: seq<Agent>)
    requires Sound(w, s) && Live(s, agents, [])
    ensures s.winning == map[] && forall id :: BundleOf(s.bundles, id) == []
  {
    assert s.winning == map[];
    forall id ensures BundleOf(s.bundles, id) == [] {
      assert id in s.bundles ==> BundleOk(w, s, id);
      assert forall t :: t !in BundleOf(s.bundles, id);
      SomethingIn(BundleOf(s.bundles, id));
    }
  }

  lemma SoundNext(w: World, agents: seq<Agent>, tasks: seq<Task>, trace: seq<State>, i: nat)
    requires IsRun(w, agents, tasks, trace) && i + 1 < |trace| && Sound(w, trace[i])
    ensures Sound(w, trace[i + 1]) && Live(trace[i + 1], agents, tasks)
  {
    assert StepAt(w, agents, tasks, trace, i);
    var lossRate: real :| lossRate <= w.config.lossThreshold
                       && trace[i + 1] == Round(w, trace[i], lossRate, agents, tasks);
    RoundSound(w, trace[i], lossRate, agents, tasks);
  }

  /** Without tasks nothing is ever won or held. */
  lemma {:induction false} IdleWithoutTasks(w: World, agents: seq<Agent>, trace: seq<State>, i: nat)
    requires IsRun(w, agents, [], trace) && i < |trace|
    ensures Sound(w, trace[i]) && trace[i].winning == map[] && forall id :: BundleOf(trace[i].bundles, id) == []
  {
    if i > 0 {
      IdleWithoutTasks(w, agents, trace, i - 1);
      SoundNext(w, agents, [], trace, i - 1);
      NothingHeld(w, trace[i], agents);
    }
  }

  // ----- the whole run -----

  /** Over every run from a fresh allocator with fixed agents and tasks, a permuting planner and
      no rebroadcasts: after at most |agents| * min(bundle limit, |tasks|) rounds the allocation
      is an equilibrium; from then on neither the bids nor the bundle contents change, and
      every further round reports convergence if there is any bid. */
  lemma StableInTime(w: World, agents: seq<Agent>, tasks: seq<Task>, trace: seq<State>, bound: nat, n: nat)
    requires IsRun(w, agents, tasks, trace) && bound == RoundBound(w, agents, tasks) && bound <= n < |trace|
    ensures Equilibrium(w, trace[n], agents, tasks) && SameTasks(trace[bound], trace[n])
    ensures n > bound && trace[bound].winning != map[] ==> trace[n].converged
  {
    if tasks == [] {
      IdleWithoutTasks(w, agents, trace, bound);
      IdleWithoutTasks(w, agents, trace, n);
    } else {
      EquilibriumInTime(w, agents, tasks, trace, bound);
      StableFrom(w, agents, tasks, trace, bound, n);
    }
  }
}
