/** What becomes of a message, told by the events before it. */
module NetworkHistory {
  import opened Basics
  import opened Connectivity
  import opened Network

  // ----- what the events so far say -----

  /** The event adds or removes the pair, in either spelling. */
  predicate About(e: Event, a: string, b: string) {
    (e.AddPartition? || e.RemovePartition?) && ((e.a == a && e.b == b) || (e.a == b && e.b == a))
  }

  ghost predicate Untold(events: seq<Event>, a: string, b: string, from: nat) {
    forall j :: from <= j < |events| ==> !About(events[j], a, b)
  }

  /** Event `i` is the last one about the pair, and adds it. */
  ghost predicate LastAdds(events: seq<Event>, a: string, b: string, i: nat) {
    i < |events| && About(events[i], a, b) && events[i].AddPartition? && Untold(events, a, b, i + 1)
  }

  /** The pair was given with the smaller id first. */
  predicate GivenInOrder(given: set<(string, string)>, a: string, b: string) {
    (!Less(b, a) && (a, b) in given) || (Less(b, a) && (b, a) in given)
  }

  /** The last word on the two agents was to cut them off; without a word, what was given holds. */
  ghost predicate CutOff(given: set<(string, string)>, events: seq<Event>, a: string, b: string) {
    (exists i: nat :: LastAdds(events, a, b, i)) || (Untold(events, a, b, 0) && GivenInOrder(given, a, b))
  }

  function LastSnapshot(events: seq<Event>): Option<Snapshot> {
    if events == [] then None
    else
      match events[|events| - 1]
      case SetSnapshot(s) => Some(s)
      case _ => LastSnapshot(events[..|events| - 1])
  }

  function Sends(events: seq<Event>): nat {
    if events == [] then 0 else Sends(events[..|events| - 1]) + if events[|events| - 1].Send? then 1 else 0
  }

  function Ticks(events: seq<Event>): nat {
    if events == [] then 0 else Ticks(events[..|events| - 1]) + if events[|events| - 1].Tick? then 1 else 0
  }

  function Bytes(events: seq<Event>): nat {
    if events == [] then 0
    else
      var e := events[|events| - 1];
      Bytes(events[..|events| - 1]) + if e.Send? then |e.message.payload| else 0
  }

  // ----- what the network then knows -----

  lemma PairIs(a: string, b: string, c: string, d: string)
    ensures Pair(a, b) == Pair(c, d) <==> (a == c && b == d) || (a == d && b == c)
  {
    PairUnordered(a, b);
    PairUnordered(c, d);
  }

  lemma PairGiven(given: set<(string, string)>, a: string, b: string)
    ensures Pair(a, b) in given <==> GivenInOrder(given, a, b)
  {
    LessTotal(a, b);
    LessIrreflexive(a);
    if Less(a, b) {
      LessAsymmetric(a, b);
    }
  }

  /** One more event either has the last word on the pair, or leaves it as it was. */
  lemma CutOffSnoc(given: set<(string, string)>, events: seq<Event>, e: Event, a: string, b: string)
    ensures CutOff(given, events + [e], a, b) <==>
            if About(e, a, b) then e.AddPartition? else CutOff(given, events, a, b)
  {
    var n, longer := |events|, events + [e];
    assert longer[n] == e && forall i :: 0 <= i < n ==> longer[i] == events[i];
    if About(e, a, b) {
      assert e.AddPartition? ==> LastAdds(longer, a, b, n);
    } else {
      if i: nat :| LastAdds(longer, a, b, i) {
        assert LastAdds(events, a, b, i);
      }
      if i: nat :| LastAdds(events, a, b, i) {
        assert LastAdds(longer, a, b, i);
      }
      assert Untold(longer, a, b, 0) <==> Untold(events, a, b, 0);
    }
  }

  /** Over every run, two agents are partitioned exactly when the last event about them, in either
      spelling, was an add, or there was none and the ordered pair was given at the start. */
  lemma {:induction false} PartitionedExactly(cfg: Config, given: set<(string, string)>, events: seq<Event>,
                                              a: string, b: string)
    ensures Pair(a, b) in Run(cfg, Fresh(given), events).partitions <==> CutOff(given, events, a, b)
  {
    if events == [] {
      PairGiven(given, a, b);
    } else {
      var init, e := events[..|events| - 1], events[|events| - 1];
      assert events == init + [e];
      PartitionedExactly(cfg, given, init, a, b);
      CutOffSnoc(given, init, e, a, b);
      if e.AddPartition? || e.RemovePartition? {
        PairIs(e.a, e.b, a, b);
      }
    }
  }

  /** Adding or removing one pair leaves every other pair as it was. */
  lemma OtherPairsStay(cfg: Config, given: set<(string, string)>, events: seq<Event>, e: Event, a: string, b: string)
    requires !About(e, a, b)
    ensures Pair(a, b) in Run(cfg, Fresh(given), events + [e]).partitions <==>
            Pair(a, b) in Run(cfg, Fresh(given), events).partitions
  {
    PartitionedExactly(cfg, given, events, a, b);
    PartitionedExactly(cfg, given, events + [e], a, b);
    CutOffSnoc(given, events, e, a, b);
  }

  lemma StepCounters(cfg: Config, n: Net, e: Event)
    ensures var r := Step(cfg, n, e);
            && r.attempted == n.attempted + (if e.Send? then 1 else 0)
            && r.bytes == n.bytes + (if e.Send? then |e.message.payload| else 0)
            && r.tick == n.tick + (if e.Tick? then 1 else 0)
            && r.snapshot == if e.SetSnapshot? then Some(e.s) else n.snapshot
  {
  }

  /** Counters, clock and snapshot over every run. */
  lemma {:induction false} CountersAreHistory(cfg: Config, given: set<(string, string)>, events: seq<Event>)
    ensures var n := Run(cfg, Fresh(given), events);
            && n.attempted == Sends(events) && n.bytes == Bytes(events) && n.tick == Ticks(events)
            && n.snapshot == LastSnapshot(events)
  {
    if events != [] {
      var init, e := events[..|events| - 1], events[|events| - 1];
      CountersAreHistory(cfg, given, init);
      StepCounters(cfg, Run(cfg, Fresh(given), init), e);
    }
  }

  // ----- what becomes of a message -----

  /** The draw falls below the loss rate, held to between nothing and everything. */
  predicate Unlucky(rate: real, draw: real) {
    draw < 1.0 && (draw < rate || draw < 0.0)
  }

  /** How far the message has to go: one hop without a snapshot, else the length of the shortest
      way through the mesh. */
  ghost predicate HopsAre(snapshot: Option<Snapshot>, m: Message, hops: nat) {
    match snapshot
    case None => hops == 1
    case Some(s) => IsMeshDistance(s, m.from, m.to, hops)
  }

  /** Some way leads through the mesh; without a snapshot everything is connected. */
  ghost predicate HasWay(snapshot: Option<Snapshot>, m: Message) {
    snapshot.Some? ==> exists p :: IsMeshPath(snapshot.value, p, m.from, m.to)
  }

  /** Nothing stands in the way of the message. */
  ghost predicate GetsThrough(cfg: Config, given: set<(string, string)>, events: seq<Event>, m: Message, draw: real) {
    && !CutOff(given, events, m.from, m.to) && !Unlucky(cfg.packetLossRate, draw)
    && HasWay(LastSnapshot(events), m)
  }

  function Queue(n: Net, agent: string): seq<Packet> {
    if agent in n.inFlight then n.inFlight[agent] else []
  }

  /** The message, and nothing else, joins the end of its recipient's queue. */
  ghost predicate Queued(cfg: Config, events: seq<Event>, m: Message, raw: nat, before: Net, after: Net, p: Packet) {
    && after.dropped == before.dropped
    && Queue(after, m.to) == Queue(before, m.to) + [p]
    && (forall other :: other != m.to ==> Queue(after, other) == Queue(before, other))
    && p.message == m && p.id == Sends(events) && p.sentAt == Ticks(events)
    && HopsAre(LastSnapshot(events), m, p.hops)
    && p.due == Ticks(events) + cfg.latencyTicks + p.hops * cfg.latencyPerHop + raw % (2 * cfg.jitterTicks + 1)
  }

  /** The message, and nothing else, joins the dropped ones. */
  ghost predicate DroppedOnly(events: seq<Event>, before: Net, after: Net) {
    && after.dropped == before.dropped + {Sends(events)} && Sends(events) !in before.dropped
    && forall other :: Queue(after, other) == Queue(before, other)
  }

  lemma {:induction false} ShortestExists(s: Snapshot, p: seq<string>, u: string, v: string) returns (n: nat)
    requires IsMeshPath(s, p, u, v)
    ensures IsMeshDistance(s, u, v, n)
    decreases |p|
  {
    if q :| IsMeshPath(s, q, u, v) && |q| < |p| {
      n := ShortestExists(s, q, u, v);
    } else {
      n := |p| - 1;
    }
  }

  lemma HopsExactly(snapshot: Option<Snapshot>, m: Message)
    ensures Hops(snapshot, m).Some? <==> HasWay(snapshot, m)
    ensures Hops(snapshot, m).Some? ==> HopsAre(snapshot, m, Hops(snapshot, m).value)
  {
    if snapshot.Some? && HasWay(snapshot, m) {
      var p :| IsMeshPath(snapshot.value, p, m.from, m.to);
      var n := ShortestExists(snapshot.value, p, m.from, m.to);
      MeshDistanceIs(snapshot.value, m.from, m.to, n);
    }
  }

  lemma LossExactly(cfg: Config, given: set<(string, string)>, events: seq<Event>, m: Message, draw: real)
    ensures Lost(cfg, Run(cfg, Fresh(given), events), m, draw) <==> !GetsThrough(cfg, given, events, m, draw)
  {
    PartitionedExactly(cfg, given, events, m.from, m.to);
    CountersAreHistory(cfg, given, events);
    HopsExactly(LastSnapshot(events), m);
  }

  lemma JitterIs(cfg: Config, raw: nat)
    ensures Jitter(cfg, raw) == raw % (2 * cfg.jitterTicks + 1)
  {
  }

  /** Over every run, a message that is not cut off, has a way through the mesh and is lucky
      joins the end of its recipient's queue; every other one is dropped. */
  lemma SendExactly(cfg: Config, given: set<(string, string)>, events: seq<Event>, m: Message, draw: real, raw: nat)
    ensures var before := Run(cfg, Fresh(given), events);
            var after := Run(cfg, Fresh(given), events + [Send(m, draw, raw)]);
            if GetsThrough(cfg, given, events, m, draw)
            then exists p :: Queued(cfg, events, m, raw, before, after, p)
            else DroppedOnly(events, before, after)
  {
    var before := Run(cfg, Fresh(given), events);
    var after := SendStep(cfg, before, m, draw, raw);
    RunSnoc(cfg, Fresh(given), events, Send(m, draw, raw));
    LossExactly(cfg, given, events, m, draw);
    CountersAreHistory(cfg, given, events);
    if Lost(cfg, before, m, draw) {
      FreshGood(cfg, given);
      EveryRunGood(cfg, Fresh(given), events);
    } else {
      HopsExactly(LastSnapshot(events), m);
      JitterIs(cfg, raw);
      var hops := Hops(before.snapshot, m).value;
      var p := Packet(before.attempted, before.tick, hops, DueTick(cfg, before.tick, hops, raw), m);
      assert Queued(cfg, events, m, raw, before, after, p);
    }
  }

  // ----- what a drain hands over -----

  /** Of the queue `q`, exactly what is due at `now` is handed over, in the order it was sent. */
  ghost predicate HandedOver(q: seq<Packet>, now: nat, handed: seq<Delivery>) {
    && (forall i, j :: 0 <= i < j < |handed| ==> handed[i].packet.id < handed[j].packet.id)
    && (forall i :: 0 <= i < |handed| ==>
          handed[i].at == now && handed[i].packet in q && handed[i].packet.due <= now)
    && forall p :: p in q && p.due <= now ==> Delivery(p, now) in handed
  }

  /** Exactly what is not due stays, in the order it was sent. */
  ghost predicate HeldBack(q: seq<Packet>, now: nat, left: seq<Packet>) {
    IdsAscend(left) && forall p :: p in left <==> p in q && p.due > now
  }

  lemma ReadyHandedOver(q: seq<Packet>, now: nat)
    requires IdsAscend(q)
    ensures HandedOver(q, now, Deliveries(Ready(q, now), now)) && HeldBack(q, now, Delayed(q, now))
  {
    var ready, handed := Ready(q, now), Deliveries(Ready(q, now), now);
    SplitAscends(q, now);
    forall i | 0 <= i < |handed| ensures handed[i].packet in q && handed[i].packet.due <= now {
      assert ready[i] in ready;
    }
    forall p | p in q && p.due <= now ensures Delivery(p, now) in handed {
      var i :| 0 <= i < |ready| && ready[i] == p;
      assert handed[i] == Delivery(p, now);
    }
  }

  /** Over every run, a drain hands over what is due to the agent at that tick, and changes nothing
      else. */
  lemma DrainExactly(cfg: Config, given: set<(string, string)>, events: seq<Event>, agent: string)
    ensures var before, after := Run(cfg, Fresh(given), events), Run(cfg, Fresh(given), events + [Drain(agent)]);
            && before.delivered <= after.delivered && after.dropped == before.dropped
            && HandedOver(Queue(before, agent), Ticks(events), after.delivered[|before.delivered|..])
            && HeldBack(Queue(before, agent), Ticks(events), Queue(after, agent))
            && forall other :: other != agent ==> Queue(after, other) == Queue(before, other)
  {
    var before := Run(cfg, Fresh(given), events);
    RunSnoc(cfg, Fresh(given), events, Drain(agent));
    CountersAreHistory(cfg, given, events);
    FreshGood(cfg, given);
    EveryRunGood(cfg, Fresh(given), events);
    assert agent in before.inFlight ==> QueueOf(before.inFlight[agent], agent);
    ReadyHandedOver(Queue(before, agent), before.tick);
    assert agent in before.inFlight ==>
        DrainStep(before, agent).delivered[|before.delivered|..] ==
        Deliveries(Ready(before.inFlight[agent], before.tick), before.tick);
  }
}
