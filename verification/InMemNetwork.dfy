/** The simulated network and its per-agent wrapper as they run: counters and queues changed in
    place, each method proved against one event of the network model. */
module InMemNetwork {
  import opened Basics
  import opened Connectivity
  import opened Network

  /** What a queue really holds. */
  datatype Timed = Timed(due: nat, message: Message)

  function Strip(q: seq<Packet>): (r: seq<Timed>)
    ensures |r| == |q|
    ensures forall i :: 0 <= i < |q| ==> r[i] == Timed(q[i].due, q[i].message)
  {
    seq(|q|, i requires 0 <= i < |q| => Timed(q[i].due, q[i].message))
  }

  function Messages(q: seq<Packet>): (r: seq<Message>)
    ensures |r| == |q|
    ensures forall i :: 0 <= i < |q| ==> r[i] == q[i].message
  {
    seq(|q|, i requires 0 <= i < |q| => q[i].message)
  }

  function StripAll(q: Queues): (r: map<string, seq<Timed>>)
    ensures r.Keys == q.Keys
    ensures forall a :: a in q ==> r[a] == Strip(q[a])
  {
    map a | a in q :: Strip(q[a])
  }

  /** One more message at the end of its recipient's queue. */
  function Queue(q: map<string, seq<Timed>>, m: Message, due: nat): map<string, seq<Timed>> {
    q[m.to := (if m.to in q then q[m.to] else []) + [Timed(due, m)]]
  }

  /** The packets a drain of this agent hands over. */
  function Due(n: Net, agent: string): seq<Packet> {
    if agent in n.inFlight then Ready(n.inFlight[agent], n.tick) else []
  }

  class Bus {
    const config: Config
    var inFlight: map<string, seq<Timed>>
    var currentTick: nat
    var attempted: nat
    var dropped: nat
    var bytesSent: nat
    var partitions: set<(string, string)>
    var connectivity: Option<Snapshot>
    /** What happened so far, and the same bus with every message numbered. */
    ghost const start: set<(string, string)>
    ghost var events: seq<Event>
    ghost var net: Net

    ghost predicate Counted()
      reads this
    {
      && currentTick == net.tick && attempted == net.attempted && dropped == |net.dropped| && bytesSent == net.bytes
      && partitions == net.partitions && connectivity == net.snapshot
    }

    ghost predicate Valid()
      reads this
    {
      net == Run(config, Fresh(start), events) && Counted() && inFlight == StripAll(net.inFlight)
    }

    constructor (config: Config, partitions: set<(string, string)>)
      ensures Valid() && events == [] && this.config == config && start == partitions
    {
      this.config := config;
      this.partitions := partitions;
      inFlight, currentTick, attempted, dropped, bytesSent, connectivity := map[], 0, 0, 0, 0, None;
      start, events, net := partitions, [], Fresh(partitions);
    }

    /** Records an event in the history. */
    ghost method Note(e: Event)
      requires net == Run(config, Fresh(start), events)
      modifies this`net, this`events
      ensures net == Run(config, Fresh(start), events) && net == Step(config, old(net), e)
      ensures events == old(events) + [e]
    {
      RunSnoc(config, Fresh(start), events, e);
      net, events := Step(config, net, e), events + [e];
    }

    method SetConnectivitySnapshot(s: Snapshot)
      requires Valid()
      modifies this
      ensures Valid() && events == old(events) + [SetSnapshot(s)]
    {
      connectivity := Some(s);
      Note(SetSnapshot(s));
    }

    method AdvanceTick()
      requires Valid()
      modifies this
      ensures Valid() && events == old(events) + [Tick]
    {
      currentTick := currentTick + 1;
      Note(Tick);
    }

    method Partition(a: string, b: string)
      requires Valid()
      modifies this
      ensures Valid() && events == old(events) + [AddPartition(a, b)]
    {
      partitions := partitions + {Pair(a, b)};
      Note(AddPartition(a, b));
    }

    method Unpartition(a: string, b: string)
      requires Valid()
      modifies this
      ensures Valid() && events == old(events) + [RemovePartition(a, b)]
    {
      partitions := partitions - {Pair(a, b)};
      Note(RemovePartition(a, b));
    }

    method HopsBetween(m: Message) returns (hops: Option<nat>)
      ensures hops == Hops(connectivity, m)
    {
      if connectivity.None? {
        return Some(1);
      }
      hops := HopCountBetween(connectivity.value, m.from, m.to);
    }

    /** The hop count of a message that gets through, or nothing for one that is lost. */
    method Admit(m: Message, draw: real) returns (hops: Option<nat>)
      requires Valid()
      ensures hops == if Lost(config, net, m, draw) then None else Hops(net.snapshot, m)
    {
      if Pair(m.from, m.to) in partitions {
        return None;
      }
      hops := HopsBetween(m);
      if hops.Some? && draw < Clamp(config.packetLossRate) {
        return None;
      }
    }

    /** Counts a message, and queues it unless it is lost. */
    method Deposit(m: Message, hops: Option<nat>, raw: nat)
      modifies this`attempted, this`bytesSent, this`dropped, this`inFlight
      ensures attempted == old(attempted) + 1 && bytesSent == old(bytesSent) + |m.payload|
      ensures dropped == old(dropped) + if hops.None? then 1 else 0
      ensures inFlight == if hops.None? then old(inFlight)
                          else Queue(old(inFlight), m, DueTick(config, currentTick, hops.value, raw))
    {
      attempted := attempted + 1;
      bytesSent := bytesSent + |m.payload|;
      if hops.None? {
        dropped := dropped + 1;
        return;
      }
      inFlight := Queue(inFlight, m, DueTick(config, currentTick, hops.value, raw));
    }

    /** `draw` and `raw` are what the random generator would answer. */
    method Send(m: Message, draw: real, raw: nat)
      requires Valid()
      modifies this
      ensures Valid() && events == old(events) + [Event.Send(m, draw, raw)]
    {
      DropCounted(config, start, events, m, draw, raw);
      SendFields(config, net, m, draw, raw);
      var hops := Admit(m, draw);
      Deposit(m, hops, raw);
      Note(Event.Send(m, draw, raw));
    }

    /** Hands over what is due, in queue order, and keeps the rest in queue order. */
    method DrainReady(agent: string) returns (ready: seq<Message>)
      requires Valid()
      modifies this
      ensures Valid() && events == old(events) + [Drain(agent)]
      ensures ready == Messages(Due(old(net), agent)) && |net.delivered| == |old(net).delivered| + |ready|
    {
      Note(Drain(agent));
      if agent !in inFlight {
        return [];
      }
      var delayed;
      ready, delayed := SplitQueue(inFlight[agent], currentTick);
      NowStripped(old(net).inFlight[agent], currentTick);
      LaterStripped(old(net).inFlight[agent], currentTick);
      inFlight := inFlight[agent := delayed];
      StripReplace(old(net).inFlight, agent, Delayed(old(net).inFlight[agent], currentTick));
    }
  }

  /** Pops the queue from the front until it is empty. */
  method SplitQueue(inFlight: seq<Timed>, tick: nat) returns (ready: seq<Message>, delayed: seq<Timed>)
    ensures ready == Now(inFlight, tick) && delayed == Later(inFlight, tick)
  {
    var queue := inFlight;
    ready, delayed := [], [];
    ghost var k := 0;
    while queue != []
      invariant 0 <= k <= |inFlight| && queue == inFlight[k..]
      invariant ready == Now(inFlight[..k], tick) && delayed == Later(inFlight[..k], tick)
    {
      var front := queue[0];
      assert inFlight[..k + 1][..k] == inFlight[..k] && inFlight[..k + 1][k] == front;
      queue := queue[1..];
      if front.due <= tick {
        ready := ready + [front.message];
      } else {
        delayed := delayed + [front];
      }
      k := k + 1;
    }
    assert inFlight[..k] == inFlight;
  }

  lemma StripReplace(q: Queues, agent: string, d: seq<Packet>)
    ensures StripAll(q[agent := d]) == StripAll(q)[agent := Strip(d)]
  {
  }

  /** A lost message gets a number that was not counted as dropped before. */
  lemma DropCounted(cfg: Config, start: set<(string, string)>, events: seq<Event>, m: Message, draw: real, raw: nat)
    ensures var n := Run(cfg, Fresh(start), events);
            |SendStep(cfg, n, m, draw, raw).dropped| == |n.dropped| + if Lost(cfg, n, m, draw) then 1 else 0
  {
    FreshGood(cfg, start);
    EveryRunGood(cfg, Fresh(start), events);
    assert Run(cfg, Fresh(start), events).attempted !in Run(cfg, Fresh(start), events).dropped;
  }

  /** What a send does to the fields of the bus. */
  lemma SendFields(cfg: Config, n: Net, m: Message, draw: real, raw: nat)
    ensures var after := Step(cfg, n, Event.Send(m, draw, raw));
            && after.attempted == n.attempted + 1 && after.bytes == n.bytes + |m.payload|
            && after.tick == n.tick && after.partitions == n.partitions && after.snapshot == n.snapshot
            && |after.dropped| == |SendStep(cfg, n, m, draw, raw).dropped|
            && StripAll(after.inFlight) ==
                 if Lost(cfg, n, m, draw) then StripAll(n.inFlight)
                 else Queue(StripAll(n.inFlight), m, DueTick(cfg, n.tick, Hops(n.snapshot, m).value, raw))
  {
    if !Lost(cfg, n, m, draw) {
      var hops := Hops(n.snapshot, m).value;
      StripEnqueue(n.inFlight, m.to, Packet(n.attempted, n.tick, hops, DueTick(cfg, n.tick, hops, raw), m));
    }
  }

  lemma StripEnqueue(q: Queues, to: string, p: Packet)
    ensures StripAll(Enqueue(q, to, p)) ==
            StripAll(q)[to := (if to in q then Strip(q[to]) else []) + [Timed(p.due, p.message)]]
  {
    var queue := if to in q then q[to] else [];
    assert Strip(queue + [p]) == Strip(queue) + [Timed(p.due, p.message)];
  }

  /** What a drain loop makes of the first entries of a queue. */
  function Now(queue: seq<Timed>, tick: nat): seq<Message> {
    if queue == [] then []
    else
      var rest, last := Now(queue[..|queue| - 1], tick), queue[|queue| - 1];
      if last.due <= tick then rest + [last.message] else rest
  }

  function Later(queue: seq<Timed>, tick: nat): seq<Timed> {
    if queue == [] then []
    else
      var rest, last := Later(queue[..|queue| - 1], tick), queue[|queue| - 1];
      if last.due <= tick then rest else rest + [last]
  }

  lemma Snocs(q: seq<Packet>, p: Packet)
    ensures Strip(q + [p]) == Strip(q) + [Timed(p.due, p.message)]
    ensures Messages(q + [p]) == Messages(q) + [p.message]
  {
  }

  lemma {:induction false} NowStripped(q: seq<Packet>, tick: nat)
    ensures Now(Strip(q), tick) == Messages(Ready(q, tick))
  {
    if q != [] {
      var init, last := q[..|q| - 1], q[|q| - 1];
      NowStripped(init, tick);
      assert Strip(q)[..|q| - 1] == Strip(init);
      Snocs(Ready(init, tick), last);
    }
  }

  lemma {:induction false} LaterStripped(q: seq<Packet>, tick: nat)
    ensures Later(Strip(q), tick) == Strip(Delayed(q, tick))
  {
    if q != [] {
      var init, last := q[..|q| - 1], q[|q| - 1];
      LaterStripped(init, tick);
      assert Strip(q)[..|q| - 1] == Strip(init);
      Snocs(Delayed(init, tick), last);
    }
  }

  /** Conservation in the bus's own counters: attempted messages are the dropped ones, those in
      the queues and those handed over. */
  lemma BusBooks(bus: Bus)
    requires bus.Valid()
    ensures bus.attempted == bus.dropped + Total(bus.inFlight) + |bus.net.delivered|
  {
    Conservation(bus.config, bus.start, bus.events);
    StripTotal(bus.net.inFlight);
  }

  lemma StripTotal(q: Queues)
    ensures Total(StripAll(q)) == Total(q)
  {
    forall a | a in q ensures SameLength(q, StripAll(q), a) {
    }
    TotalSame(q, StripAll(q));
  }

  /** The per-agent view of a shared bus. */
  class AgentTransport {
    const bus: Bus
    const ownId: string
    var buffer: seq<Message>

    constructor (bus: Bus, ownId: string)
      ensures this.bus == bus && this.ownId == ownId && buffer == []
    {
      this.bus := bus;
      this.ownId := ownId;
      buffer := [];
    }

    method Send(m: Message, draw: real, raw: nat)
      requires bus.Valid()
      modifies bus
      ensures bus.Valid() && bus.events == old(bus.events) + [Event.Send(m, draw, raw)]
    {
      bus.Send(m, draw, raw);
    }

    /** Nothing is lost, doubled or reordered between the bus and the caller: what a poll
        returns followed by what stays buffered is what was buffered followed by what the bus
        handed over. The bus is asked only when the buffer is empty, and a poll comes back
        empty-handed only when nothing is due. */
    method Poll() returns (r: Option<Message>)
      requires bus.Valid()
      modifies this, bus
      ensures bus.Valid()
      ensures old(buffer) != [] ==> bus.events == old(bus.events)
      ensures old(buffer) == [] ==> bus.events == old(bus.events) + [Drain(ownId)]
      ensures (if r.Some? then [r.value] else []) + buffer ==
              old(buffer) + if old(buffer) == [] then Messages(Due(old(bus.net), ownId)) else []
      ensures r.None? <==> old(buffer) == [] && Due(old(bus.net), ownId) == []
    {
      if buffer != [] {
        r := Some(buffer[0]);
        buffer := buffer[1..];
        return;
      }
      var ready := bus.DrainReady(ownId);
      if ready == [] {
        return None;
      }
      r := Some(ready[0]);
      buffer := ready[1..];
    }
  }
}
