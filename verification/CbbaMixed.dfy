/** Runs that mix rounds with bids received from other agents: what survives of the invariant,
    and when a winning bid can fall. */
module CbbaMixed {
  import opened Basics
  import opened Fleet
  import opened Cbba
  import opened CbbaGossip

  ghost predicate TidyBundle(s: State, a: string) {
    a in s.bundles && Distinct(s.bundles[a]) && forall t :: t in s.bundles[a] ==> t in s.winning
  }

  /** Bundles hold no task twice and only tasks somebody has won. Unlike `Sound`, this says
      nothing about size, nor that winners hold what they won. */
  ghost predicate Tidy(s: State) {
    forall a {:trigger TidyBundle(s, a)} :: a in s.bundles ==> TidyBundle(s, a)
  }

  // ----- received bids -----

  lemma MovedBundle(bundles: Bundles, task: string, loser: string, winner: string, a: string)
    requires a in bundles && Distinct(bundles[a])
    ensures var b := MoveTask(bundles, task, loser, winner);
            a in b && Distinct(b[a]) && forall t :: t in b[a] ==> t in bundles[a] || t == task
  {
  }

  lemma ReceiveTidy(s: State, r: RemoteBid)
    requires Tidy(s)
    ensures Tidy(Receive(s, r))
  {
    var n := Receive(s, r);
    forall a | a in n.bundles ensures TidyBundle(n, a) {
      assert TidyBundle(s, a);
      if Overtakes(s, r) {
        MovedBundle(s.bundles, r.task, s.winning[r.task].agent, r.bid.agent, a);
      }
    }
  }

  lemma {:induction false} DeliverTidy(s: State, received: seq<RemoteBid>)
    requires Tidy(s)
    ensures Tidy(Deliver(s, received))
  {
    if received != [] {
      DeliverTidy(s, received[..|received| - 1]);
      ReceiveTidy(Deliver(s, received[..|received| - 1]), received[|received| - 1]);
    }
  }

  /** The received bid replaces the local one. */
  predicate Overtakes(s: State, r: RemoteBid) {
    r.task in s.winning && r.bid.value > s.winning[r.task].value
  }

  lemma MovedTaskStays(bundles: Bundles, task: string, loser: string, winner: string, a: string, t: string)
    requires a in bundles && t in bundles[a] && (t != task || a != loser || a == winner)
    ensures var b := MoveTask(bundles, task, loser, winner); a in b && t in b[a]
  {
  }

  /** A task that its winner holds, or that nobody has won, is left by a received bid with a winner
      that does not hold it exactly when it was unknown here, or the bid overtakes and its agent
      has no bundle here. */
  lemma UnheldExactly(s: State, r: RemoteBid, t: string)
    requires Tidy(s) && (t in s.winning ==> WinnerHolds(s, t)) && t in Receive(s, r).winning
    ensures !WinnerHolds(Receive(s, r), t) <==>
            r.task == t && (t !in s.winning || (Overtakes(s, r) && r.bid.agent !in s.bundles))
  {
    var n := Receive(s, r);
    if t !in s.winning {
      assert r.bid.agent in s.bundles ==> TidyBundle(s, r.bid.agent);
    } else {
      assert WinnerHolds(s, t);
      if Overtakes(s, r) && r.task != t {
        MovedTaskStays(s.bundles, r.task, s.winning[r.task].agent, r.bid.agent, s.winning[t].agent, t);
      }
    }
  }

  /** A received bid makes a bundle longer only for its own agent, by one task; the limit on the
      bundle size is not looked at. */
  lemma ReceiveGrows(s: State, r: RemoteBid, a: string)
    requires a in s.bundles
    ensures a in Receive(s, r).bundles
    ensures |Receive(s, r).bundles[a]| <= |s.bundles[a]| + if Overtakes(s, r) && a == r.bid.agent then 1 else 0
  {
  }

  // ----- one turn -----

  /** What a turn can do in any state: nothing, or add and claim one task. */
  ghost predicate Took(s: State, n: State, agent: Agent, t: string, score: real) {
    && t !in BundleOf(s.bundles, agent.id)
    && n.bundles == s.bundles[agent.id := BundleOf(s.bundles, agent.id) + [t]]
    && n.winning == s.winning[t := Bid(agent.id, score)]
    && (t in s.winning && s.winning[t].agent != agent.id ==> s.winning[t].value < score)
  }

  predicate Chooses(w: World, s: State, agent: Agent, tasks: seq<Task>, t: string, score: real) {
    var bundle := BundleOf(s.bundles, agent.id);
    |bundle| < w.config.maxBundleSize && Best(w, agent, tasks, bundle, s.winning) == Some(Choice(t, score))
  }

  lemma TurnTakes(w: World, s: State, agent: Agent, tasks: seq<Task>, t: string, score: real)
    requires Chooses(w, s, agent, tasks, t, score)
    ensures Took(s, AgentTurn(w, s, agent, tasks), agent, t, score) && t in TaskIds(tasks)
  {
    var bundle := BundleOf(s.bundles, agent.id);
    BestIsBest(w, agent, tasks, bundle, s.winning);
    var task :| task in tasks && Eligible(w, agent, task, bundle, s.winning)
             && Best(w, agent, tasks, bundle, s.winning) ==
                  Some(Choice(task.id, MarginalScore(w, agent, task, bundle).value));
  }

  lemma TurnCases(w: World, s: State, agent: Agent, tasks: seq<Task>) returns (took: bool, t: string, score: real)
    ensures took ==> Chooses(w, s, agent, tasks, t, score) && Took(s, AgentTurn(w, s, agent, tasks), agent, t, score)
    ensures took ==> t in TaskIds(tasks)
    ensures !took ==> Idle(s, AgentTurn(w, s, agent, tasks), agent)
  {
    var bundle := BundleOf(s.bundles, agent.id);
    var best := Best(w, agent, tasks, bundle, s.winning);
    took := |bundle| < w.config.maxBundleSize && best.Some?;
    t, score := "", 0.0;
    if took {
      t, score := best.value.task, best.value.score;
      TurnTakes(w, s, agent, tasks, t, score);
    }
  }

  /** In one turn the winning bid for a task falls exactly when the agent that already holds the
      record chooses the task again, at a lower score. */
  lemma BidFallsExactly(w: World, s: State, agent: Agent, tasks: seq<Task>, t: string)
    requires t in s.winning
    ensures !NotLower(s.winning, AgentTurn(w, s, agent, tasks).winning, t) <==>
            && s.winning[t].agent == agent.id
            && exists score :: Chooses(w, s, agent, tasks, t, score) && score < s.winning[t].value
  {
    var n := AgentTurn(w, s, agent, tasks);
    var took, x, score := TurnCases(w, s, agent, tasks);
    if took && x == t {
      assert n.winning[t] == Bid(agent.id, score);
    }
  }

  /** That agent does not hold the task: a task held by its winner is safe. */
  lemma RebidMeansUnheld(w: World, s: State, agent: Agent, tasks: seq<Task>, t: string, score: real)
    requires t in s.winning && s.winning[t].agent == agent.id && Chooses(w, s, agent, tasks, t, score)
    ensures !WinnerHolds(s, t)
  {
    TurnTakes(w, s, agent, tasks, t, score);
  }

  lemma TurnKeepsHeld(w: World, s: State, agent: Agent, tasks: seq<Task>, t: string)
    requires WinnerHolds(s, t)
    ensures var n := AgentTurn(w, s, agent, tasks); WinnerHolds(n, t) && NotLower(s.winning, n.winning, t)
  {
    var n := AgentTurn(w, s, agent, tasks);
    var took, x, score := TurnCases(w, s, agent, tasks);
    if took && x == t {
      assert n.bundles[agent.id][|BundleOf(s.bundles, agent.id)|] == t;
    }
  }

  lemma TurnTidy(w: World, s: State, agent: Agent, tasks: seq<Task>)
    requires Tidy(s)
    ensures Tidy(AgentTurn(w, s, agent, tasks))
  {
    var n := AgentTurn(w, s, agent, tasks);
    var took, x, score := TurnCases(w, s, agent, tasks);
    forall a | a in n.bundles ensures TidyBundle(n, a) {
      assert a in s.bundles ==> TidyBundle(s, a);
    }
  }

  // ----- one round -----

  lemma {:induction false} TurnsTidy(w: World, s: State, agents: seq<Agent>, tasks: seq<Task>)
    requires Tidy(s)
    ensures Tidy(Turns(w, s, agents, tasks))
    ensures Turns(w, s, agents, tasks).bundles.Keys <= s.bundles.Keys + AgentIds(agents)
    ensures Turns(w, s, agents, tasks).winning.Keys <= s.winning.Keys + TaskIds(tasks)
  {
    if agents != [] {
      var init, agent := agents[..|agents| - 1], agents[|agents| - 1];
      assert agents == init + [agent] && agent in agents;
      TurnsTidy(w, s, init, tasks);
      TurnTidy(w, Turns(w, s, init, tasks), agent, tasks);
      var took, x, score := TurnCases(w, Turns(w, s, init, tasks), agent, tasks);
    }
  }

  lemma {:induction false} TurnsKeepHeld(w: World, s: State, agents: seq<Agent>, tasks: seq<Task>, t: string)
    requires WinnerHolds(s, t)
    ensures var n := Turns(w, s, agents, tasks); WinnerHolds(n, t) && NotLower(s.winning, n.winning, t)
  {
    if agents != [] {
      var init := agents[..|agents| - 1];
      TurnsKeepHeld(w, s, init, tasks, t);
      TurnKeepsHeld(w, Turns(w, s, init, tasks), agents[|agents| - 1], tasks, t);
    }
  }

  lemma CleanupTidy(s: State, agents: seq<Agent>, tasks: seq<Task>)
    requires Tidy(s)
    ensures Tidy(Cleanup(s, agents, tasks)) && Live(Cleanup(s, agents, tasks), agents, tasks)
  {
    var c := Cleanup(s, agents, tasks);
    forall a | a in c.bundles ensures TidyBundle(c, a) {
      assert TidyBundle(s, a);
    }
  }

  lemma OrderingKeeps(w: World, s: State, agents: seq<Agent>, tasks: seq<Task>)
    requires Tidy(s) && Live(s, agents, tasks) && Permuting(w.planner)
    ensures Reordered(s, OrderBundles(w, s, agents, tasks))
  {
    var n := OrderBundles(w, s, agents, tasks);
    forall a | a in s.bundles ensures SameBundle(s, n, a) {
      assert TidyBundle(s, a);
      var agent := FindAgent(agents, a).value;
      PermutedBundle(w.planner, agent.pose, agent.(batteryModel := None), s.bundles[a], tasks);
    }
  }

  lemma ReorderedTidy(s: State, n: State)
    requires Tidy(s) && Reordered(s, n)
    ensures Tidy(n)
  {
    forall a | a in n.bundles ensures TidyBundle(n, a) {
      assert SameBundle(s, n, a) && TidyBundle(s, a);
      PermutationKeeps(n.bundles[a], s.bundles[a]);
    }
  }

  lemma ReorderedHeld(s: State, n: State, t: string)
    requires WinnerHolds(s, t) && Reordered(s, n)
    ensures WinnerHolds(n, t)
  {
    var a := s.winning[t].agent;
    assert SameBundle(s, n, a);
    PermutationKeeps(n.bundles[a], s.bundles[a]);
  }

  lemma TidyIgnoresRest(s: State, n: State)
    requires Tidy(s) && n.bundles == s.bundles && n.winning == s.winning
    ensures Tidy(n)
  {
    forall a | a in n.bundles ensures TidyBundle(n, a) {
      assert TidyBundle(s, a);
    }
  }

  lemma BuiltTidy(w: World, s: State, agents: seq<Agent>, tasks: seq<Task>)
    requires Tidy(s)
    ensures Tidy(Built(w, s, agents, tasks)) && Live(Built(w, s, agents, tasks), agents, tasks)
  {
    var started := StartRound(s, tasks);
    TidyIgnoresRest(s, started);
    CleanupTidy(started, agents, tasks);
    TurnsTidy(w, Cleanup(started, agents, tasks), agents, tasks);
  }

  /** Every round keeps bundles tidy and leaves only current agents and tasks. */
  lemma RoundTidy(w: World, s: State, lossRate: real, agents: seq<Agent>, tasks: seq<Task>)
    requires Tidy(s) && Permuting(w.planner)
    ensures Tidy(Round(w, s, lossRate, agents, tasks)) && Live(Round(w, s, lossRate, agents, tasks), agents, tasks)
  {
    var built := Built(w, s, agents, tasks);
    BuiltTidy(w, s, agents, tasks);
    OrderingKeeps(w, built, agents, tasks);
    var ordered := OrderBundles(w, built, agents, tasks);
    ReorderedTidy(built, ordered);
    RestOfRound(w, s, lossRate, agents, tasks);
    TidyIgnoresRest(ordered, Round(w, s, lossRate, agents, tasks));
  }

  lemma BuiltKeepsHeld(w: World, s: State, agents: seq<Agent>, tasks: seq<Task>, t: string)
    requires WinnerHolds(s, t) && t in TaskIds(tasks) && s.winning[t].agent in AgentIds(agents)
    ensures var n := Built(w, s, agents, tasks); WinnerHolds(n, t) && NotLower(s.winning, n.winning, t)
  {
    var cleaned := Cleanup(StartRound(s, tasks), agents, tasks);
    assert WinnerHolds(cleaned, t) && cleaned.winning[t] == s.winning[t];
    TurnsKeepHeld(w, cleaned, agents, tasks, t);
  }

  /** In any tidy state, however it came about: a task that its winner holds is still held after
      a round in which both stay in the lists, and its bid does not fall. */
  lemma HeldTaskIsSafe(w: World, s: State, lossRate: real, agents: seq<Agent>, tasks: seq<Task>, t: string)
    requires Tidy(s) && Permuting(w.planner) && WinnerHolds(s, t)
    requires t in TaskIds(tasks) && s.winning[t].agent in AgentIds(agents)
    ensures var r := Round(w, s, lossRate, agents, tasks); WinnerHolds(r, t) && NotLower(s.winning, r.winning, t)
  {
    var built := Built(w, s, agents, tasks);
    BuiltTidy(w, s, agents, tasks);
    BuiltKeepsHeld(w, s, agents, tasks, t);
    OrderingKeeps(w, built, agents, tasks);
    ReorderedHeld(built, OrderBundles(w, built, agents, tasks), t);
    RestOfRound(w, s, lossRate, agents, tasks);
  }

  // ----- runs -----

  datatype Move = Allocating(call: Call) | Hearing(received: seq<RemoteBid>)

  /** Remote bids are ignored once converged. */
  function MoveStep(w: World, s: State, m: Move): State {
    match m
    case Allocating(c) => Round(w, s, c.lossRate, c.agents, c.tasks)
    case Hearing(received) => if s.converged then s else Deliver(s, received)
  }

  function MixedRun(w: World, moves: seq<Move>): State {
    if moves == [] then FRESH else MoveStep(w, MixedRun(w, moves[..|moves| - 1]), moves[|moves| - 1])
  }

  /** Over every mixed run bundles stay tidy, and after a round only current agents and tasks
      are left. */
  lemma {:induction false} EveryMixedRunTidy(w: World, moves: seq<Move>)
    requires Permuting(w.planner)
    ensures Tidy(MixedRun(w, moves))
    ensures moves != [] && moves[|moves| - 1].Allocating? ==>
              Live(MixedRun(w, moves), moves[|moves| - 1].call.agents, moves[|moves| - 1].call.tasks)
  {
    if moves != [] {
      var before := MixedRun(w, moves[..|moves| - 1]);
      EveryMixedRunTidy(w, moves[..|moves| - 1]);
      match moves[|moves| - 1]
      case Allocating(c) => RoundTidy(w, before, c.lossRate, c.agents, c.tasks);
      case Hearing(received) => DeliverTidy(before, received);
    }
  }

  /** A bid that does fall: another agent reports a bid for a task unknown here in the name of a
      local agent; that agent does not hold the task, so in its next turn it bids again at its
      own, lower score. */
  lemma RebidFalls(w: World, agent: Agent, task: Task, heard: real)
    requires Qualified(agent, task) && w.config.maxBundleSize > 0
    requires MarginalScore(w, agent, task, []).value < heard
    ensures var s := Deliver(FRESH, [RemoteBid(task.id, Bid(agent.id, heard))]);
            && s.winning == map[task.id := Bid(agent.id, heard)]
            && AgentTurn(w, s, agent, [task]).winning[task.id].value < heard
  {
    var r := RemoteBid(task.id, Bid(agent.id, heard));
    assert [r][..0] == [] && Deliver(FRESH, []) == FRESH;
    var s := Receive(FRESH, r);
    assert Deliver(FRESH, [r]) == s && s.winning == map[task.id := r.bid] && s.bundles == map[];
    assert [task][..0] == [] && Eligible(w, agent, task, [], s.winning);
    assert Best(w, agent, [task], [], s.winning) == Some(Choice(task.id, MarginalScore(w, agent, task, []).value));
  }
}
