/** The allocator object: the fields the rounds update in place. */
module CbbaAllocator {
  import opened Basics
  import opened Fleet
  import opened Cbba
  import opened CbbaGossip

  class Allocator {
    const world: World
    var bundles: Bundles
    var winningBids: Bids
    var prevWinningBids: Bids
    var currentRound: nat
    var converged: bool
    var messagesExchanged: nat
    var packetLossRate: real
    var forceRebroadcast: bool

    ghost predicate Valid()
      reads this
    {
      !forceRebroadcast
    }

    ghost function View(): State
      reads this
    {
      State(bundles, winningBids, prevWinningBids, currentRound, converged, messagesExchanged)
    }

    constructor (world: World)
      ensures Valid() && View() == FRESH && this.world == world && packetLossRate == 0.0
    {
      this.world := world;
      bundles, winningBids, prevWinningBids := map[], map[], map[];
      currentRound, converged, messagesExchanged := 0, false, 0;
      packetLossRate, forceRebroadcast := 0.0, false;
    }

    /** Scan the tasks for the best one the agent may add. */
    method FindBest(agent: Agent, tasks: seq<Task>, bundle: seq<string>) returns (best: Option<Choice>)
      ensures best == Best(world, agent, tasks, bundle, winningBids)
    {
      best := None;
      for k := 0 to |tasks|
        invariant best == Best(world, agent, tasks[..k], bundle, winningBids)
      {
        var task := tasks[k];
        assert tasks[..k + 1][..k] == tasks[..k];
        if task.id in bundle {
          continue;
        }
        var score := MarginalScore(world, agent, task, bundle);
        if score.None? {
          continue;
        }
        var claimed := task.id in winningBids && winningBids[task.id].agent != agent.id;
        if claimed && winningBids[task.id].value >= score.value {
          continue;
        }
        if best.None? || score.value > best.value.score {
          best := Some(Choice(task.id, score.value));
        }
      }
      assert tasks[..|tasks|] == tasks;
    }

    /** One agent adds its best task, if it has room and any. */
    method TakeTurn(agent: Agent, tasks: seq<Task>)
      modifies this
      ensures View() == AgentTurn(world, old(View()), agent, tasks)
      ensures packetLossRate == old(packetLossRate) && forceRebroadcast == old(forceRebroadcast)
    {
      var bundle := if agent.id in bundles then bundles[agent.id] else [];
      if |bundle| < world.config.maxBundleSize {
        var best := FindBest(agent, tasks, bundle);
        if best.Some? {
          bundles := bundles[agent.id := bundle + [best.value.task]];
          winningBids := winningBids[best.value.task := Bid(agent.id, best.value.score)];
          return;
        }
      }
      bundles := bundles[agent.id := bundle];
    }

    method BuildBundles(agents: seq<Agent>, tasks: seq<Task>)
      modifies this
      ensures View() == Cbba.BuildBundles(world, old(View()), agents, tasks)
      ensures packetLossRate == old(packetLossRate) && forceRebroadcast == old(forceRebroadcast)
    {
      if converged {
        return;
      }
      for k := 0 to |agents|
        invariant View() == Turns(world, old(View()), agents[..k], tasks)
        invariant packetLossRate == old(packetLossRate) && forceRebroadcast == old(forceRebroadcast)
      {
        assert agents[..k + 1][..k] == agents[..k];
        TakeTurn(agents[k], tasks);
      }
      assert agents[..|agents|] == agents;
    }

    /** Merge received bids; `order` is the order in which the entries happened to come out of
        the messages. */
    method ApplyRemoteBids(remote: seq<(string, Bids)>) returns (ghost order: seq<RemoteBid>)
      modifies this
      ensures forall r :: r in order <==>
              exists i :: 0 <= i < |remote| && r.task in remote[i].1 && remote[i].1[r.task] == r.bid
      ensures old(converged) ==> View() == old(View())
      ensures !old(converged) ==>
                View() == Deliver(old(View()), order).(messages := old(messagesExchanged) + |remote|)
      ensures packetLossRate == old(packetLossRate) && forceRebroadcast == old(forceRebroadcast)
    {
      if converged {
        order := ListAll(remote);
        return;
      }
      order := [];
      for i := 0 to |remote|
        invariant View() == Deliver(old(View()), order)
        invariant forall r :: r in order <==>
                  exists j :: 0 <= j < i && r.task in remote[j].1 && remote[j].1[r.task] == r.bid
        invariant packetLossRate == old(packetLossRate) && forceRebroadcast == old(forceRebroadcast)
      {
        var bids := remote[i].1;
        var rest := bids.Keys;
        ghost var before := order;
        while rest != {}
          invariant rest <= bids.Keys && View() == Deliver(old(View()), order)
          invariant forall r :: r in order <==> r in before || (r.task in bids.Keys - rest && bids[r.task] == r.bid)
          invariant packetLossRate == old(packetLossRate) && forceRebroadcast == old(forceRebroadcast)
          decreases rest
        {
          var task :| task in rest;
          ReceiveOne(task, bids[task]);
          assert (order + [RemoteBid(task, bids[task])])[..|order|] == order;
          order := order + [RemoteBid(task, bids[task])];
          rest := rest - {task};
        }
      }
      messagesExchanged := messagesExchanged + |remote|;
      DeliverKeepsRest(old(View()), order);
    }

    method ReceiveOne(task: string, remoteBid: Bid)
      modifies this
      ensures View() == Receive(old(View()), RemoteBid(task, remoteBid))
      ensures packetLossRate == old(packetLossRate) && forceRebroadcast == old(forceRebroadcast)
    {
      if task !in winningBids {
        winningBids := winningBids[task := remoteBid];
      } else {
        var local := winningBids[task];
        if remoteBid.value > local.value {
          if local.agent in bundles {
            bundles := bundles[local.agent := Without(bundles[local.agent], task)];
          }
          if remoteBid.agent in bundles {
            if task !in bundles[remoteBid.agent] {
              bundles := bundles[remoteBid.agent := bundles[remoteBid.agent] + [task]];
            }
          }
          winningBids := winningBids[task := remoteBid];
        }
      }
    }

    method CheckConvergence() returns (r: bool)
      modifies this
      ensures View() == Cbba.CheckConvergence(world, old(View())) && r == converged
      ensures packetLossRate == old(packetLossRate) && forceRebroadcast == old(forceRebroadcast)
    {
      if converged {
        return true;
      }
      if prevWinningBids == winningBids && winningBids != map[] {
        converged := true;
        return true;
      }
      prevWinningBids := winningBids;
      if currentRound >= world.config.maxRounds {
        converged := true;
        return true;
      }
      r := false;
    }

    /** Reorder every bundle; the map hands its entries out in any order. */
    method OrderAll(agents: seq<Agent>, tasks: seq<Task>)
      modifies this
      ensures View() == OrderBundles(world, old(View()), agents, tasks)
      ensures packetLossRate == old(packetLossRate) && forceRebroadcast == old(forceRebroadcast)
    {
      var rest := bundles.Keys;
      ghost var was := bundles;
      while rest != {}
        invariant PartlyOrdered(world, was, bundles, rest, agents, tasks)
        invariant View() == old(View()).(bundles := bundles)
        invariant packetLossRate == old(packetLossRate) && forceRebroadcast == old(forceRebroadcast)
        decreases rest
      {
        var id :| id in rest;
        OrderOne(world, was, bundles, rest, agents, tasks, id);
        var agent := FindAgent(agents, id);
        if agent.Some? {
          var a := agent.value;
          bundles := bundles[id := world.planner(a.pose, TasksOf(bundles[id], tasks), a.(batteryModel := None))];
        }
        rest := rest - {id};
      }
    }

    /** Drop everything about dead agents and finished tasks. */
    method DropStale(agents: seq<Agent>, tasks: seq<Task>)
      modifies this
      ensures View() == Cleanup(old(View()), agents, tasks)
      ensures packetLossRate == old(packetLossRate) && forceRebroadcast == old(forceRebroadcast)
    {
      winningBids := RetainBids(winningBids, agents, tasks);
      prevWinningBids := RetainBids(prevWinningBids, agents, tasks);
      bundles := map a | a in bundles && a in AgentIds(agents) :: Retain(bundles[a], winningBids.Keys);
    }

    /** Under heavy packet loss, periodically force convergence to be judged anew. */
    method Retransmit(agents: seq<Agent>)
      requires Valid()
      modifies this
      ensures Valid() && View() == Rebroadcast(world, old(View()), packetLossRate, agents)
      ensures packetLossRate == old(packetLossRate)
    {
      if packetLossRate > world.config.lossThreshold
         && IsMultipleOf(currentRound, world.config.backoffTicks % 0x1_0000_0000) {
        forceRebroadcast := true;
        messagesExchanged := messagesExchanged + |agents|;
      }
      if forceRebroadcast {
        prevWinningBids := map[];
        forceRebroadcast := false;
      }
    }

    /** One allocation round; the result lists every task of every bundle with its holder. */
    method Allocate(tasks: seq<Task>, agents: seq<Agent>) returns (assignments: seq<(string, string)>)
      requires Valid()
      modifies this
      ensures Valid() && packetLossRate == old(packetLossRate)
      ensures View() == Round(world, old(View()), packetLossRate, agents, tasks)
      ensures forall t, a :: (t, a) in assignments <==> a in bundles && t in bundles[a]
    {
      currentRound := currentRound + 1;
      if tasks != [] && converged {
        converged := false;
      }
      assert View() == StartRound(old(View()), tasks);
      DropStale(agents, tasks);
      BuildBundles(agents, tasks);
      OrderAll(agents, tasks);
      Retransmit(agents);
      var _ := CheckConvergence();
      assignments := CurrentAssignments();
    }

    method CurrentAssignments() returns (assignments: seq<(string, string)>)
      ensures forall t, a :: (t, a) in assignments <==> a in bundles && t in bundles[a]
    {
      assignments := [];
      var rest := bundles.Keys;
      while rest != {}
        invariant rest <= bundles.Keys
        invariant forall t, a :: (t, a) in assignments <==> a in bundles.Keys - rest && t in bundles[a]
        decreases rest
      {
        var agent :| agent in rest;
        ghost var before := assignments;
        for k := 0 to |bundles[agent]|
          invariant forall t, a :: (t, a) in assignments <==>
                    (t, a) in before || (a == agent && t in bundles[agent][..k])
        {
          assert bundles[agent][..k + 1] == bundles[agent][..k] + [bundles[agent][k]];
          assignments := assignments + [(bundles[agent][k], agent)];
        }
        assert bundles[agent][..|bundles[agent]|] == bundles[agent];
        rest := rest - {agent};
      }
    }
  }

  predicate OrderedSoFar(w: World, was: Bundles, now: Bundles, rest: set<string>, agents: seq<Agent>, tasks: seq<Task>,
                         id: string)
  {
    && id in was && id in now
    && now[id] == if id in rest then was[id] else OrderedBundle(w, id, was[id], agents, tasks)
  }

  /** The bundles outside `rest` are in their new order. */
  ghost predicate PartlyOrdered(w: World, was: Bundles, now: Bundles, rest: set<string>, agents: seq<Agent>,
                                tasks: seq<Task>)
  {
    && rest <= now.Keys == was.Keys
    && forall id :: id in was ==> OrderedSoFar(w, was, now, rest, agents, tasks, id)
  }

  lemma OrderOne(w: World, was: Bundles, now: Bundles, rest: set<string>, agents: seq<Agent>, tasks: seq<Task>,
                 id: string)
    requires PartlyOrdered(w, was, now, rest, agents, tasks) && id in rest
    ensures id in now && now[id] == was[id]
    ensures PartlyOrdered(w, was, now[id := OrderedBundle(w, id, now[id], agents, tasks)], rest - {id}, agents, tasks)
    ensures FindAgent(agents, id).None? ==> PartlyOrdered(w, was, now, rest - {id}, agents, tasks)
  {
    assert OrderedSoFar(w, was, now, rest, agents, tasks, id);
    var next := now[id := OrderedBundle(w, id, now[id], agents, tasks)];
    forall x | x in was ensures OrderedSoFar(w, was, next, rest - {id}, agents, tasks, x) {
      assert OrderedSoFar(w, was, now, rest, agents, tasks, x);
    }
    if FindAgent(agents, id).None? {
      forall x | x in was ensures OrderedSoFar(w, was, now, rest - {id}, agents, tasks, x) {
        assert OrderedSoFar(w, was, now, rest, agents, tasks, x);
      }
    }
  }

  lemma {:induction false} DeliverKeepsRest(s: State, received: seq<RemoteBid>)
    ensures var n := Deliver(s, received);
            n.previous == s.previous && n.round == s.round && n.converged == s.converged && n.messages == s.messages
  {
    if received != [] {
      DeliverKeepsRest(s, received[..|received| - 1]);
    }
  }

  /** Some listing of the entries of all messages. */
  ghost function ListAll(remote: seq<(string, Bids)>): (r: seq<RemoteBid>)
    ensures forall x :: x in r <==>
            exists i :: 0 <= i < |remote| && x.task in remote[i].1 && remote[i].1[x.task] == x.bid
  {
    if remote == [] then []
    else
      var rest := ListAll(remote[..|remote| - 1]);
      var last := ListEntries(remote[|remote| - 1].1, remote[|remote| - 1].1.Keys);
      rest + last
  }

  ghost function ListEntries(bids: Bids, keys: set<string>): (r: seq<RemoteBid>)
    requires keys <= bids.Keys
    ensures forall x :: x in r <==> x.task in keys && bids[x.task] == x.bid
  {
    if keys == {} then [] else var t :| t in keys; ListEntries(bids, keys - {t}) + [RemoteBid(t, bids[t])]
  }
}
