/** Merging the winning bids received from other agents. */
module CbbaGossip {
  import opened Basics
  import opened Fleet
  import opened Cbba

  /** One entry of one received message. */
  datatype RemoteBid = RemoteBid(task: string, bid: Bid)

  function Without(bundle: seq<string>, task: string): seq<string> {
    Retain(bundle, Elements(bundle) - {task})
  }

  /** The task leaves the bundle of the loser and joins the bundle of the winner, for those of
      the two that have a bundle here. */
  function MoveTask(bundles: Bundles, task: string, loser: string, winner: string): Bundles {
    var b := if loser in bundles then bundles[loser := Without(bundles[loser], task)] else bundles;
    if winner in b && task !in b[winner] then b[winner := b[winner] + [task]] else b
  }

  function Receive(s: State, r: RemoteBid): State {
    if r.task !in s.winning then s.(winning := s.winning[r.task := r.bid])
    else if r.bid.value > s.winning[r.task].value then
      s.(bundles := MoveTask(s.bundles, r.task, s.winning[r.task].agent, r.bid.agent),
         winning := s.winning[r.task := r.bid])
    else s
  }

  function Deliver(s: State, received: seq<RemoteBid>): State {
    if received == [] then s
    else Receive(Deliver(s, received[..|received| - 1]), received[|received| - 1])
  }

  /** `b` is the maximum of the local bid for the task and all the received ones. */
  ghost predicate IsMaximum(local: Bids, received: seq<RemoteBid>, task: string, b: Bid) {
    && ((task in local && b == local[task]) || RemoteBid(task, b) in received)
    && (task in local ==> local[task].value <= b.value)
    && (forall r :: r in received && r.task == task ==> r.bid.value <= b.value)
  }

  ghost predicate Offered(received: seq<RemoteBid>, task: string) {
    exists r :: r in received && r.task == task
  }

  ghost predicate IsMerge(local: Bids, received: seq<RemoteBid>, merged: Bids) {
    && (forall t :: t in merged <==> t in local || Offered(received, t))
    && (forall t {:trigger merged[t]} :: t in merged ==> IsMaximum(local, received, t, merged[t]))
  }

  lemma OfferedSnoc(received: seq<RemoteBid>, r: RemoteBid, task: string)
    ensures Offered(received + [r], task) <==> Offered(received, task) || r.task == task
  {
    assert r in received + [r];
  }

  lemma MaximumSnoc(local: Bids, received: seq<RemoteBid>, s: State, r: RemoteBid, t: string)
    requires t in Receive(s, r).winning && (t in s.winning <==> t in local || Offered(received, t))
    requires t in s.winning ==> IsMaximum(local, received, t, s.winning[t])
    ensures IsMaximum(local, received + [r], t, Receive(s, r).winning[t])
  {
    var more := received + [r];
    assert forall x :: x in more <==> x in received || x == r;
    if t !in s.winning {
      assert forall x :: x in received ==> x.task != t;
    }
  }

  lemma ReceiveMerges(local: Bids, received: seq<RemoteBid>, s: State, r: RemoteBid)
    requires IsMerge(local, received, s.winning)
    ensures IsMerge(local, received + [r], Receive(s, r).winning)
  {
    var n := Receive(s, r);
    forall t ensures t in n.winning <==> t in local || Offered(received + [r], t) {
      OfferedSnoc(received, r, t);
    }
    forall t | t in n.winning ensures IsMaximum(local, received + [r], t, n.winning[t]) {
      MaximumSnoc(local, received, s, r, t);
    }
  }

  /** Delivery is a max-merge, whatever the order of the messages and of their entries. */
  lemma {:induction false} DeliverMerges(s: State, received: seq<RemoteBid>)
    ensures IsMerge(s.winning, received, Deliver(s, received).winning)
  {
    if received != [] {
      var init, r := received[..|received| - 1], received[|received| - 1];
      DeliverMerges(s, init);
      ReceiveMerges(s.winning, init, Deliver(s, init), r);
      assert received == init + [r];
    }
  }

  /** Two deliveries of the same entries in different orders, or with repeats, agree on which
      tasks are won and at what value. */
  lemma OrderDoesNotMatter(s: State, received: seq<RemoteBid>, received': seq<RemoteBid>)
    requires forall r :: r in received <==> r in received'
    ensures Deliver(s, received).winning.Keys == Deliver(s, received').winning.Keys
    ensures forall t :: t in Deliver(s, received).winning ==>
              Deliver(s, received).winning[t].value == Deliver(s, received').winning[t].value
  {
    DeliverMerges(s, received);
    DeliverMerges(s, received');
    var m, m' := Deliver(s, received).winning, Deliver(s, received').winning;
    forall t ensures t in m <==> t in m' {
      assert Offered(received, t) <==> Offered(received', t);
    }
    forall t | t in m ensures m[t].value == m'[t].value {
      assert IsMaximum(s.winning, received, t, m[t]) && IsMaximum(s.winning, received', t, m'[t]);
      assert RemoteBid(t, m[t]).task == t && RemoteBid(t, m'[t]).task == t;
    }
  }

  lemma AbsorbedBids(s: State, received: seq<RemoteBid>)
    requires forall r :: r in received ==> r.task in s.winning && r.bid.value <= s.winning[r.task].value
    ensures Deliver(s, received) == s
  {
    if received != [] {
      var init, r := received[..|received| - 1], received[|received| - 1];
      assert received == init + [r];
      AbsorbedBids(s, init);
    }
  }

  /** Delivering again anything that was already delivered changes neither bids nor bundles. */
  lemma RedeliveryChangesNothing(s: State, received: seq<RemoteBid>, again: seq<RemoteBid>)
    requires forall r :: r in again ==> r in received
    ensures Deliver(Deliver(s, received), again) == Deliver(s, received)
  {
    DeliverMerges(s, received);
    var m := Deliver(s, received);
    forall r | r in again ensures r.task in m.winning && r.bid.value <= m.winning[r.task].value {
      assert Offered(received, r.task);
      assert IsMaximum(s.winning, received, r.task, m.winning[r.task]);
    }
    AbsorbedBids(m, again);
  }

  /** Bundles stay free of repeats, and a task whose bid is overtaken ends up with the new
      winner and leaves the old one. */
  lemma OvertakenTaskMoves(s: State, r: RemoteBid)
    requires r.task in s.winning && r.bid.value > s.winning[r.task].value
    requires forall a :: a in s.bundles ==> Distinct(s.bundles[a])
    ensures var n, loser := Receive(s, r), s.winning[r.task].agent;
            && n.bundles.Keys == s.bundles.Keys
            && (forall a :: a in n.bundles ==> Distinct(n.bundles[a]))
            && (r.bid.agent in n.bundles ==> r.task in n.bundles[r.bid.agent])
            && (loser in n.bundles && loser != r.bid.agent ==> r.task !in n.bundles[loser])
            && (forall a :: a in n.bundles && a != loser && a != r.bid.agent ==> n.bundles[a] == s.bundles[a])
  {
  }
}
