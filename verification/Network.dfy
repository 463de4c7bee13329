/** The simulated network: a lossy bus with latency, jitter, partitions and mesh reachability,
    as a function of its events, and what every run of events keeps. */
module Network {
  import opened Basics
  import opened Connectivity

  datatype Message = Message(from: string, to: string, payload: seq<bv8>)

  datatype Config = Config(packetLossRate: real, latencyTicks: nat, latencyPerHop: nat, jitterTicks: nat)

  /** A message under way. Its number, send tick and hop count are kept for the proofs. */
  datatype Packet = Packet(id: nat, sentAt: nat, hops: nat, due: nat, message: Message)

  datatype Delivery = Delivery(packet: Packet, at: nat)

  type Queues = map<string, seq<Packet>>

  datatype Net = Net(inFlight: Queues, tick: nat, attempted: nat, dropped: set<nat>, bytes: nat,
                     partitions: set<(string, string)>, snapshot: Option<Snapshot>, delivered: seq<Delivery>)

  /** Everything that can happen, with the random draws that go with it. */
  datatype Event =
    | Send(message: Message, draw: real, raw: nat)
    | Tick
    | Drain(agent: string)
    | AddPartition(a: string, b: string)
    | RemovePartition(a: string, b: string)
    | SetSnapshot(s: Snapshot)

  function Fresh(partitions: set<(string, string)>): Net {
    Net(map[], 0, 0, {}, 0, partitions, None, [])
  }

  // ----- steps -----

  /** The unordered pair, smaller id first. */
  function Pair(a: string, b: string): (string, string) {
    if a == b || Less(a, b) then (a, b) else (b, a)
  }

  lemma PairUnordered(a: string, b: string)
    ensures Pair(a, b) == Pair(b, a)
  {
    LessTotal(a, b);
    if Less(a, b) {
      LessAsymmetric(a, b);
    }
  }

  function Clamp(r: real): real {
    if r < 0.0 then 0.0 else if r > 1.0 then 1.0 else r
  }

  function Jitter(cfg: Config, raw: nat): (j: nat)
    ensures j <= 2 * cfg.jitterTicks
  {
    if cfg.jitterTicks > 0 then raw % (2 * cfg.jitterTicks + 1) else 0
  }

  function DueTick(cfg: Config, tick: nat, hops: nat, raw: nat): nat {
    tick + cfg.latencyTicks + hops * cfg.latencyPerHop + Jitter(cfg, raw)
  }

  /** Without a snapshot everything is one hop away. */
  ghost function Hops(snapshot: Option<Snapshot>, m: Message): Option<nat> {
    match snapshot
    case None => Some(1)
    case Some(s) => MeshDistance(s, m.from, m.to)
  }

  ghost function Lost(cfg: Config, n: Net, m: Message, draw: real): bool {
    Pair(m.from, m.to) in n.partitions || Hops(n.snapshot, m).None? || draw < Clamp(cfg.packetLossRate)
  }

  function Enqueue(q: Queues, to: string, p: Packet): Queues {
    q[to := (if to in q then q[to] else []) + [p]]
  }

  ghost function SendStep(cfg: Config, n: Net, m: Message, draw: real, raw: nat): Net {
    var counted := n.(attempted := n.attempted + 1, bytes := n.bytes + |m.payload|);
    if Lost(cfg, n, m, draw) then counted.(dropped := n.dropped + {n.attempted})
    else
      var hops := Hops(n.snapshot, m).value;
      var packet := Packet(n.attempted, n.tick, hops, DueTick(cfg, n.tick, hops, raw), m);
      counted.(inFlight := Enqueue(n.inFlight, m.to, packet))
  }

  function Ready(q: seq<Packet>, tick: nat): (r: seq<Packet>)
    ensures forall p :: p in r <==> p in q && p.due <= tick
  {
    if q == [] then []
    else
      var rest, p := Ready(q[..|q| - 1], tick), q[|q| - 1];
      assert q == q[..|q| - 1] + [p];
      if p.due <= tick then rest + [p] else rest
  }

  function Delayed(q: seq<Packet>, tick: nat): (r: seq<Packet>)
    ensures forall p :: p in r <==> p in q && p.due > tick
  {
    if q == [] then []
    else
      var rest, p := Delayed(q[..|q| - 1], tick), q[|q| - 1];
      assert q == q[..|q| - 1] + [p];
      if p.due <= tick then rest else rest + [p]
  }

  function Deliveries(ready: seq<Packet>, at: nat): (r: seq<Delivery>)
    ensures |r| == |ready|
    ensures forall i :: 0 <= i < |ready| ==> r[i] == Delivery(ready[i], at)
  {
    seq(|ready|, i requires 0 <= i < |ready| => Delivery(ready[i], at))
  }

  function DrainStep(n: Net, agent: string): Net {
    if agent !in n.inFlight then n
    else
      var q := n.inFlight[agent];
      n.(inFlight := n.inFlight[agent := Delayed(q, n.tick)],
         delivered := n.delivered + Deliveries(Ready(q, n.tick), n.tick))
  }

  ghost function Step(cfg: Config, n: Net, e: Event): Net {
    match e
    case Send(m, draw, raw) => SendStep(cfg, n, m, draw, raw)
    case Tick => n.(tick := n.tick + 1)
    case Drain(agent) => DrainStep(n, agent)
    case AddPartition(a, b) => n.(partitions := n.partitions + {Pair(a, b)})
    case RemovePartition(a, b) => n.(partitions := n.partitions - {Pair(a, b)})
    case SetSnapshot(s) => n.(snapshot := Some(s))
  }

  ghost function Run(cfg: Config, n: Net, events: seq<Event>): Net {
    if events == [] then n else Step(cfg, Run(cfg, n, events[..|events| - 1]), events[|events| - 1])
  }

  lemma RunSnoc(cfg: Config, n: Net, events: seq<Event>, e: Event)
    ensures Run(cfg, n, events + [e]) == Step(cfg, Run(cfg, n, events), e)
  {
    assert (events + [e])[..|events|] == events;
  }

  // ----- where every message is -----

  predicate HasId(q: seq<Packet>, id: nat) {
    exists i :: 0 <= i < |q| && q[i].id == id
  }

  ghost predicate InFlight(n: Net, id: nat) {
    exists a :: a in n.inFlight && HasId(n.inFlight[a], id)
  }

  predicate IdDelivered(d: seq<Delivery>, id: nat) {
    exists i :: 0 <= i < |d| && d[i].packet.id == id
  }

  predicate Arrived(n: Net, id: nat) {
    IdDelivered(n.delivered, id)
  }

  predicate IdsAscend(q: seq<Packet>) {
    forall i, j :: 0 <= i < j < |q| ==> q[i].id < q[j].id
  }

  predicate QueueOf(q: seq<Packet>, agent: string) {
    IdsAscend(q) && forall i :: 0 <= i < |q| ==> q[i].message.to == agent
  }

  /** Queues are in send order and hold only their own agent's messages. */
  ghost predicate QueuesOk(n: Net) {
    && (forall a :: a in n.inFlight ==> QueueOf(n.inFlight[a], a))
    && (forall a, b, id {:trigger HasId(n.inFlight[a], id), HasId(n.inFlight[b], id)} ::
          a in n.inFlight && b in n.inFlight && HasId(n.inFlight[a], id) && HasId(n.inFlight[b], id) ==> a == b)
  }

  /** Message numbers below `attempted` are dropped, under way or delivered, exactly one of
      the three, and no message was delivered twice. */
  ghost predicate Accounted(n: Net) {
    && (forall id: nat {:trigger InFlight(n, id)} {:trigger Arrived(n, id)} ::
          id < n.attempted <==> id in n.dropped || InFlight(n, id) || Arrived(n, id))
    && (forall id: nat :: id in n.dropped ==> id < n.attempted && !InFlight(n, id) && !Arrived(n, id))
    && (forall id: nat :: InFlight(n, id) ==> !Arrived(n, id))
    && (forall i, j :: 0 <= i < j < |n.delivered| ==> n.delivered[i].packet.id != n.delivered[j].packet.id)
  }

  lemma {:induction false} SplitIds(q: seq<Packet>, tick: nat, id: nat)
    requires IdsAscend(q)
    ensures HasId(q, id) <==> HasId(Ready(q, tick), id) || HasId(Delayed(q, tick), id)
    ensures !(HasId(Ready(q, tick), id) && HasId(Delayed(q, tick), id))
    ensures IdsAscend(Ready(q, tick)) && IdsAscend(Delayed(q, tick))
  {
    forall p, p' | p in q && p' in q && p.id == p'.id ensures p == p' {
      var i :| 0 <= i < |q| && q[i] == p;
      var j :| 0 <= j < |q| && q[j] == p';
    }
    var r, d := Ready(q, tick), Delayed(q, tick);
    if HasId(q, id) {
      var i :| 0 <= i < |q| && q[i].id == id;
      assert q[i] in q;
      if q[i].due <= tick {
        assert q[i] in r;
      } else {
        assert q[i] in d;
      }
    }
    if HasId(r, id) {
      var i :| 0 <= i < |r| && r[i].id == id;
      assert r[i] in r && r[i] in q;
    }
    if HasId(d, id) {
      var i :| 0 <= i < |d| && d[i].id == id;
      assert d[i] in d && d[i] in q;
    }
    SplitAscends(q, tick);
  }

  lemma AscendSnoc(q: seq<Packet>, p: Packet)
    requires IdsAscend(q) && forall x :: x in q ==> x.id < p.id
    ensures IdsAscend(q + [p])
  {
    assert forall i :: 0 <= i < |q| ==> q[i] in q;
  }

  lemma LastIsNewest(q: seq<Packet>)
    requires q != [] && IdsAscend(q)
    ensures IdsAscend(q[..|q| - 1]) && forall x :: x in q[..|q| - 1] ==> x.id < q[|q| - 1].id
  {
  }

  lemma {:induction false} SplitAscends(q: seq<Packet>, tick: nat)
    requires IdsAscend(q)
    ensures IdsAscend(Ready(q, tick)) && IdsAscend(Delayed(q, tick))
  {
    if q != [] {
      var init, last := q[..|q| - 1], q[|q| - 1];
      LastIsNewest(q);
      SplitAscends(init, tick);
      AscendSnoc(if last.due <= tick then Ready(init, tick) else Delayed(init, tick), last);
    }
  }

  lemma HasIdSnoc(q: seq<Packet>, p: Packet, id: nat)
    ensures HasId(q + [p], id) <==> HasId(q, id) || p.id == id
  {
    var r := q + [p];
    assert r[|q|] == p;
    assert forall i :: 0 <= i < |q| ==> r[i] == q[i];
  }

  lemma EnqueueInFlight(n: Net, n': Net, to: string, p: Packet, id: nat)
    requires n'.inFlight == Enqueue(n.inFlight, to, p)
    ensures InFlight(n', id) <==> InFlight(n, id) || p.id == id
  {
    var q := if to in n.inFlight then n.inFlight[to] else [];
    HasIdSnoc(q, p, id);
    if InFlight(n, id) {
      var a :| a in n.inFlight && HasId(n.inFlight[a], id);
      assert a in n'.inFlight && HasId(n'.inFlight[a], id);
    }
    if p.id == id {
      assert HasId(n'.inFlight[to], id);
    }
    if InFlight(n', id) {
      var a :| a in n'.inFlight && HasId(n'.inFlight[a], id);
      if a == to && p.id != id {
        assert to in n.inFlight && HasId(n.inFlight[to], id);
      }
    }
  }

  lemma EnqueueQueues(n: Net, n': Net, to: string, p: Packet)
    requires QueuesOk(n) && n'.inFlight == Enqueue(n.inFlight, to, p) && p.message.to == to
    requires forall id: nat :: InFlight(n, id) ==> id < p.id
    ensures QueuesOk(n')
  {
    var q := if to in n.inFlight then n.inFlight[to] else [];
    forall i | 0 <= i < |q| ensures q[i].id < p.id {
      assert HasId(q, q[i].id) && InFlight(n, q[i].id);
    }
    forall a, b, id | a in n'.inFlight && b in n'.inFlight && HasId(n'.inFlight[a], id) && HasId(n'.inFlight[b], id)
      ensures a == b
    {
      HasIdSnoc(q, p, id);
      assert a != to ==> InFlight(n, id);
      assert b != to ==> InFlight(n, id);
    }
  }

  lemma SendAccounted(cfg: Config, n: Net, m: Message, draw: real, raw: nat)
    requires QueuesOk(n) && Accounted(n)
    ensures QueuesOk(SendStep(cfg, n, m, draw, raw)) && Accounted(SendStep(cfg, n, m, draw, raw))
  {
    var n' := SendStep(cfg, n, m, draw, raw);
    assert forall id: nat :: Arrived(n', id) <==> Arrived(n, id);
    if Lost(cfg, n, m, draw) {
      assert forall id: nat :: InFlight(n', id) <==> InFlight(n, id);
    } else {
      var q := n'.inFlight[m.to];
      var p := q[|q| - 1];
      EnqueueQueues(n, n', m.to, p);
      forall id: nat ensures InFlight(n', id) <==> InFlight(n, id) || id == n.attempted {
        EnqueueInFlight(n, n', m.to, p, id);
      }
    }
  }

  lemma DrainInFlight(n: Net, agent: string, id: nat)
    requires QueuesOk(n) && agent in n.inFlight
    ensures InFlight(DrainStep(n, agent), id) <==> InFlight(n, id) && !HasId(Ready(n.inFlight[agent], n.tick), id)
  {
    var n', q := DrainStep(n, agent), n.inFlight[agent];
    SplitIds(q, n.tick, id);
    if InFlight(n', id) {
      var a :| a in n'.inFlight && HasId(n'.inFlight[a], id);
      assert a in n.inFlight && HasId(n.inFlight[a], id);
    }
    if InFlight(n, id) && !HasId(Ready(q, n.tick), id) {
      var a :| a in n.inFlight && HasId(n.inFlight[a], id);
      assert a in n'.inFlight && HasId(n'.inFlight[a], id);
    }
  }

  lemma IdDeliveredConcat(d: seq<Delivery>, e: seq<Delivery>, id: nat)
    ensures IdDelivered(d + e, id) <==> IdDelivered(d, id) || IdDelivered(e, id)
  {
    var c := d + e;
    if i :| 0 <= i < |d| && d[i].packet.id == id {
      assert c[i].packet.id == id;
    }
    if i :| 0 <= i < |e| && e[i].packet.id == id {
      assert c[|d| + i].packet.id == id;
    }
  }

  lemma DrainArrived(n: Net, agent: string, id: nat)
    requires agent in n.inFlight
    ensures Arrived(DrainStep(n, agent), id) <==> Arrived(n, id) || HasId(Ready(n.inFlight[agent], n.tick), id)
  {
    var ready := Ready(n.inFlight[agent], n.tick);
    var added := Deliveries(ready, n.tick);
    IdDeliveredConcat(n.delivered, added, id);
    assert IdDelivered(added, id) <==> HasId(ready, id) by {
      if i :| 0 <= i < |ready| && ready[i].id == id {
        assert added[i].packet.id == id;
      }
    }
  }

  lemma DrainQueues(n: Net, agent: string)
    requires QueuesOk(n) && agent in n.inFlight
    ensures QueuesOk(DrainStep(n, agent))
  {
    var n', q := DrainStep(n, agent), n.inFlight[agent];
    SplitAscends(q, n.tick);
    var d := Delayed(q, n.tick);
    forall i | 0 <= i < |d| ensures d[i].message.to == agent {
      assert d[i] in d && d[i] in q;
    }
    forall a, b, id | a in n'.inFlight && b in n'.inFlight && HasId(n'.inFlight[a], id) && HasId(n'.inFlight[b], id)
      ensures a == b
    {
      SplitIds(q, n.tick, id);
      assert HasId(n.inFlight[a], id) && HasId(n.inFlight[b], id);
    }
  }

  lemma DeliveredOnce(n: Net, agent: string)
    requires QueuesOk(n) && Accounted(n) && agent in n.inFlight
    ensures var d := DrainStep(n, agent).delivered;
            forall i, j :: 0 <= i < j < |d| ==> d[i].packet.id != d[j].packet.id
  {
    var n', ready, k := DrainStep(n, agent), Ready(n.inFlight[agent], n.tick), |n.delivered|;
    var d := n'.delivered;
    SplitAscends(n.inFlight[agent], n.tick);
    forall i, j | 0 <= i < j < |d| ensures d[i].packet.id != d[j].packet.id {
      if i < k <= j {
        assert Arrived(n, d[i].packet.id);
        var id := ready[j - k].id;
        assert HasId(ready, id);
        SplitIds(n.inFlight[agent], n.tick, id);
        assert InFlight(n, id);
      }
    }
  }

  lemma DrainAccounted(n: Net, agent: string)
    requires QueuesOk(n) && Accounted(n) && agent in n.inFlight
    ensures Accounted(DrainStep(n, agent))
  {
    var n', ready := DrainStep(n, agent), Ready(n.inFlight[agent], n.tick);
    DeliveredOnce(n, agent);
    forall id: nat
      ensures InFlight(n', id) <==> InFlight(n, id) && !HasId(ready, id)
      ensures Arrived(n', id) <==> Arrived(n, id) || HasId(ready, id)
      ensures HasId(ready, id) ==> InFlight(n, id)
    {
      DrainInFlight(n, agent, id);
      DrainArrived(n, agent, id);
      SplitIds(n.inFlight[agent], n.tick, id);
    }
  }

  lemma SameMessages(n: Net, n': Net)
    requires QueuesOk(n) && Accounted(n)
    requires n'.inFlight == n.inFlight && n'.attempted == n.attempted && n'.dropped == n.dropped
    requires n'.delivered == n.delivered
    ensures QueuesOk(n') && Accounted(n')
  {
    assert forall id: nat :: InFlight(n', id) <==> InFlight(n, id);
    assert forall id: nat :: Arrived(n', id) <==> Arrived(n, id);
  }

  lemma StepAccounted(cfg: Config, n: Net, e: Event)
    requires QueuesOk(n) && Accounted(n)
    ensures QueuesOk(Step(cfg, n, e)) && Accounted(Step(cfg, n, e))
  {
    match e
    case Send(m, draw, raw) => SendAccounted(cfg, n, m, draw, raw);
    case Drain(agent) =>
      if agent in n.inFlight {
        DrainQueues(n, agent);
        DrainAccounted(n, agent);
      }
    case _ => SameMessages(n, Step(cfg, n, e));
  }

  // ----- timing -----

  /** A packet is due no earlier than send tick plus base and per-hop latency, and no later
      than the jitter allows. */
  predicate DueOk(cfg: Config, p: Packet, tick: nat) {
    var earliest := p.sentAt + cfg.latencyTicks + p.hops * cfg.latencyPerHop;
    p.sentAt <= tick && earliest <= p.due <= earliest + 2 * cfg.jitterTicks
  }

  predicate QueueTimed(cfg: Config, q: seq<Packet>, tick: nat) {
    forall i :: 0 <= i < |q| ==> DueOk(cfg, q[i], tick)
  }

  ghost predicate Timely(cfg: Config, n: Net) {
    && (forall a :: a in n.inFlight ==> QueueTimed(cfg, n.inFlight[a], n.tick))
    && (forall i :: 0 <= i < |n.delivered| ==>
          DueOk(cfg, n.delivered[i].packet, n.tick) && n.delivered[i].packet.due <= n.delivered[i].at <= n.tick)
  }

  lemma StepTimely(cfg: Config, n: Net, e: Event)
    requires Timely(cfg, n)
    ensures Timely(cfg, Step(cfg, n, e))
  {
    var n' := Step(cfg, n, e);
    match e
    case Drain(agent) =>
      if agent in n.inFlight {
        var q := n.inFlight[agent];
        var r, d := Ready(q, n.tick), Delayed(q, n.tick);
        assert forall i :: 0 <= i < |d| ==> d[i] in d;
        assert forall i :: 0 <= i < |r| ==> r[i] in r;
      }
    case Send(_, _, _) =>
    case Tick =>
    case AddPartition(_, _) =>
    case RemovePartition(_, _) =>
    case SetSnapshot(_) =>
  }

  // ----- every run -----

  ghost predicate Good(cfg: Config, n: Net) {
    QueuesOk(n) && Accounted(n) && Timely(cfg, n)
  }

  lemma FreshGood(cfg: Config, partitions: set<(string, string)>)
    ensures Good(cfg, Fresh(partitions))
  {
    var n := Fresh(partitions);
    assert forall id: nat :: !InFlight(n, id) && !Arrived(n, id);
  }

  /** Over every run of events with any draws. */
  lemma {:induction false} EveryRunGood(cfg: Config, n: Net, events: seq<Event>)
    requires Good(cfg, n)
    ensures Good(cfg, Run(cfg, n, events))
  {
    if events != [] {
      var init := events[..|events| - 1];
      EveryRunGood(cfg, n, init);
      StepAccounted(cfg, Run(cfg, n, init), events[|events| - 1]);
      StepTimely(cfg, Run(cfg, n, init), events[|events| - 1]);
    }
  }

  function Upto(n: nat): (s: set<nat>)
    ensures |s| == n
    ensures forall i: nat :: i in s <==> i < n
  {
    if n == 0 then {} else Upto(n - 1) + {n - 1}
  }

  ghost function FlightIds(n: Net): set<nat> {
    set id: nat | id < n.attempted && InFlight(n, id)
  }

  function DeliveredIds(n: Net): seq<nat> {
    seq(|n.delivered|, i requires 0 <= i < |n.delivered| => n.delivered[i].packet.id)
  }

  lemma DeliveredCount(n: Net)
    requires Accounted(n)
    ensures |Elements(DeliveredIds(n))| == |n.delivered|
    ensures forall id: nat :: id in Elements(DeliveredIds(n)) <==> Arrived(n, id)
  {
    var ids := DeliveredIds(n);
    DistinctCount(ids);
    forall id: nat ensures id in ids <==> Arrived(n, id) {
      if Arrived(n, id) {
        var i :| 0 <= i < |n.delivered| && n.delivered[i].packet.id == id;
        assert ids[i] == id;
      }
    }
  }

  lemma CountThree(n: nat, a: set<nat>, b: set<nat>, c: set<nat>)
    requires forall id: nat :: id < n <==> id in a || id in b || id in c
    requires a !! b && a !! c && b !! c
    ensures n == |a| + |b| + |c|
  {
    assert Upto(n) == a + b + c && (a + b) !! c;
  }

  /** A message number is in exactly one place, or not given out yet. */
  lemma OneFate(n: Net, id: nat)
    requires Accounted(n)
    ensures id in FlightIds(n) <==> InFlight(n, id)
    ensures id < n.attempted <==> id in n.dropped || id in FlightIds(n) || Arrived(n, id)
    ensures !(id in n.dropped && id in FlightIds(n)) && !(id in n.dropped && Arrived(n, id))
    ensures !(id in FlightIds(n) && Arrived(n, id))
  {
    assert InFlight(n, id) ==> id < n.attempted;
  }

  lemma CountFates(n: Net, arrived: set<nat>)
    requires Accounted(n) && forall id: nat :: id in arrived <==> Arrived(n, id)
    ensures n.attempted == |n.dropped| + |FlightIds(n)| + |arrived|
  {
    forall id: nat
      ensures id < n.attempted <==> id in n.dropped || id in FlightIds(n) || id in arrived
      ensures !(id in n.dropped && id in FlightIds(n)) && !(id in n.dropped && id in arrived)
      ensures !(id in FlightIds(n) && id in arrived)
    {
      OneFate(n, id);
    }
    CountThree(n.attempted, n.dropped, FlightIds(n), arrived);
  }

  // ----- counting what waits -----

  /** Total length of all queues. */
  ghost function Total<T>(q: map<string, seq<T>>): nat {
    if q == map[] then 0 else var a :| a in q; |q[a]| + Total(q - {a})
  }

  lemma {:induction false} TotalWithout<T>(q: map<string, seq<T>>, a: string)
    requires a in q
    ensures Total(q) == |q[a]| + Total(q - {a})
    decreases |q|
  {
    var b :| b in q && Total(q) == |q[b]| + Total(q - {b});
    if a != b {
      TotalWithout(q - {b}, a);
      TotalWithout(q - {a}, b);
      assert q - {b} - {a} == q - {a} - {b};
    }
  }

  predicate SameLength<T, U>(q: map<string, seq<T>>, r: map<string, seq<U>>, a: string) {
    a in q && a in r && |q[a]| == |r[a]|
  }

  lemma {:induction false} TotalSame<T, U>(q: map<string, seq<T>>, r: map<string, seq<U>>)
    requires q.Keys == r.Keys && forall a :: a in q ==> SameLength(q, r, a)
    ensures Total(q) == Total(r)
    decreases |q|
  {
    if q != map[] {
      var a :| a in q;
      TotalWithout(q, a);
      TotalWithout(r, a);
      forall b | b in q - {a} ensures SameLength(q - {a}, r - {a}, b) {
        assert SameLength(q, r, b);
      }
      assert SameLength(q, r, a);
      TotalSame(q - {a}, r - {a});
    }
  }

  function QueueIds(q: seq<Packet>): (r: seq<nat>)
    ensures |r| == |q| && forall i :: 0 <= i < |q| ==> r[i] == q[i].id
  {
    seq(|q|, i requires 0 <= i < |q| => q[i].id)
  }

  lemma QueueCount(q: seq<Packet>)
    requires IdsAscend(q)
    ensures |Elements(QueueIds(q))| == |q| && forall id: nat :: id in Elements(QueueIds(q)) <==> HasId(q, id)
  {
    DistinctCount(QueueIds(q));
    forall id: nat ensures id in QueueIds(q) <==> HasId(q, id) {
      if HasId(q, id) {
        var i :| 0 <= i < |q| && q[i].id == id;
        assert QueueIds(q)[i] == id;
      }
    }
  }

  ghost predicate Waiting(q: Queues, id: nat) {
    exists a :: a in q && HasId(q[a], id)
  }

  /** Queues in send order that share no message. */
  ghost predicate Apart(q: Queues) {
    && (forall a :: a in q ==> IdsAscend(q[a]))
    && (forall a, b, id {:trigger HasId(q[a], id), HasId(q[b], id)} ::
          a in q && b in q && HasId(q[a], id) && HasId(q[b], id) ==> a == b)
  }

  lemma WaitsWithout(q: Queues, a: string, id: nat)
    requires a in q && Apart(q)
    ensures Waiting(q, id) <==> HasId(q[a], id) || Waiting(q - {a}, id)
    ensures !(HasId(q[a], id) && Waiting(q - {a}, id))
  {
    if Waiting(q, id) && !HasId(q[a], id) {
      var b :| b in q && HasId(q[b], id);
      assert b in q - {a} && HasId((q - {a})[b], id);
    }
    if Waiting(q - {a}, id) {
      var b :| b in q - {a} && HasId((q - {a})[b], id);
      assert b in q && HasId(q[b], id);
    }
  }

  lemma ApartWithout(q: Queues, a: string)
    requires Apart(q)
    ensures Apart(q - {a})
  {
  }

  lemma SplitIdsCount(ids: set<nat>, own: set<nat>, n: nat)
    requires own <= ids && |ids - own| == n
    ensures |ids| == |own| + n
  {
    assert ids == own + (ids - own);
  }

  /** The messages of one queue are told apart from all others. */
  lemma WaitingSplit(q: Queues, a: string, ids: set<nat>, own: set<nat>)
    requires Apart(q) && a in q && forall id: nat :: id in ids <==> Waiting(q, id)
    requires forall id: nat :: id in own <==> HasId(q[a], id)
    ensures own <= ids && forall id: nat :: id in ids - own <==> Waiting(q - {a}, id)
  {
    forall id: nat
      ensures id in own ==> id in ids
      ensures id in ids - own <==> Waiting(q - {a}, id)
    {
      WaitsWithout(q, a, id);
    }
  }

  /** As many messages wait as the queues are long together. */
  lemma {:induction false} WaitingCount(q: Queues, ids: set<nat>)
    requires Apart(q) && forall id: nat :: id in ids <==> Waiting(q, id)
    ensures |ids| == Total(q)
    decreases |q|
  {
    if q == map[] {
      assert forall id: nat :: id !in ids;
      assert ids == {};
    } else {
      var a :| a in q;
      var own := Elements(QueueIds(q[a]));
      QueueCount(q[a]);
      WaitingSplit(q, a, ids, own);
      ApartWithout(q, a);
      WaitingCount(q - {a}, ids - own);
      TotalWithout(q, a);
      SplitIdsCount(ids, own, Total(q - {a}));
    }
  }

  lemma FlightCount(n: Net)
    requires QueuesOk(n) && Accounted(n)
    ensures |FlightIds(n)| == Total(n.inFlight)
  {
    forall id: nat ensures id in FlightIds(n) <==> Waiting(n.inFlight, id) {
      OneFate(n, id);
    }
    WaitingCount(n.inFlight, FlightIds(n));
  }

  /** Conservation over every run of events with any draws: the attempted messages are the
      dropped ones, those in the queues and the drained ones, each counted once. */
  lemma Conservation(cfg: Config, partitions: set<(string, string)>, events: seq<Event>)
    ensures var n := Run(cfg, Fresh(partitions), events);
            n.attempted == |n.dropped| + Total(n.inFlight) + |n.delivered|
  {
    FreshGood(cfg, partitions);
    EveryRunGood(cfg, Fresh(partitions), events);
    var n := Run(cfg, Fresh(partitions), events);
    DeliveredCount(n);
    CountFates(n, Elements(DeliveredIds(n)));
    FlightCount(n);
  }

  /** After a drain nothing that is due waits for the agent any more, and what was handed over
      is exactly what was due, in the order it was sent. */
  lemma DrainIsPrompt(n: Net, agent: string)
    requires QueuesOk(n) && agent in n.inFlight
    ensures var n' := DrainStep(n, agent);
            && (forall p :: p in n'.inFlight[agent] ==> p.due > n.tick)
            && (forall p :: p in n.inFlight[agent] ==>
                  if p.due <= n.tick then Delivery(p, n.tick) in n'.delivered else p in n'.inFlight[agent])
            && IdsAscend(Ready(n.inFlight[agent], n.tick))
  {
    var n', ready := DrainStep(n, agent), Ready(n.inFlight[agent], n.tick);
    SplitAscends(n.inFlight[agent], n.tick);
    forall p | p in n.inFlight[agent] && p.due <= n.tick ensures Delivery(p, n.tick) in n'.delivered {
      assert p in ready;
      var i :| 0 <= i < |ready| && ready[i] == p;
      assert n'.delivered[|n.delivered| + i] == Delivery(p, n.tick);
    }
  }

  // ----- where packets come from -----

  ghost predicate Waits(n: Net, p: Packet) {
    exists a :: a in n.inFlight && p in n.inFlight[a]
  }

  /** Under way or handed over. */
  ghost predicate Travels(n: Net, p: Packet) {
    Waits(n, p) || exists i :: 0 <= i < |n.delivered| && n.delivered[i].packet == p
  }

  /** The packet is what the send at position `j` of the run put on the bus. */
  ghost predicate SentAt(cfg: Config, start: Net, events: seq<Event>, p: Packet, j: nat) {
    && j < |events| && events[j].Send?
    && var n := Run(cfg, start, events[..j]);
       && !Lost(cfg, n, events[j].message, events[j].draw)
       && p.message == events[j].message && p.id == n.attempted && p.sentAt == n.tick
       && Hops(n.snapshot, p.message) == Some(p.hops)
  }

  lemma DrainForgesNothing(n: Net, agent: string, p: Packet)
    requires Travels(DrainStep(n, agent), p)
    ensures Travels(n, p)
  {
    var n' := DrainStep(n, agent);
    if Waits(n', p) {
      var a :| a in n'.inFlight && p in n'.inFlight[a];
      assert p in n.inFlight[a];
    } else if agent in n.inFlight {
      var i :| 0 <= i < |n'.delivered| && n'.delivered[i].packet == p;
      var ready, k := Ready(n.inFlight[agent], n.tick), |n.delivered|;
      if i >= k {
        assert ready[i - k] in ready && p in n.inFlight[agent];
      } else {
        assert n.delivered[i].packet == p;
      }
    }
  }

  lemma SendForgesNothing(cfg: Config, n: Net, m: Message, draw: real, raw: nat, p: Packet)
    requires Travels(SendStep(cfg, n, m, draw, raw), p) && !Travels(n, p)
    ensures !Lost(cfg, n, m, draw) && p.message == m && p.id == n.attempted && p.sentAt == n.tick
    ensures Hops(n.snapshot, m) == Some(p.hops)
  {
    var n' := SendStep(cfg, n, m, draw, raw);
    var a :| a in n'.inFlight && p in n'.inFlight[a];
    assert a in n.inFlight ==> p !in n.inFlight[a];
  }

  /** No packet is forged or altered: each one under way or handed over is the message of one
      send of the run that was not lost, stamped with the tick and hop count of that moment. */
  lemma {:induction false} EveryPacketWasSent(cfg: Config, partitions: set<(string, string)>, events: seq<Event>,
                                              p: Packet)
    requires Travels(Run(cfg, Fresh(partitions), events), p)
    ensures exists j: nat :: SentAt(cfg, Fresh(partitions), events, p, j)
  {
    var start := Fresh(partitions);
    if events != [] {
      var init, last := events[..|events| - 1], events[|events| - 1];
      var n := Run(cfg, start, init);
      if Travels(n, p) {
        EveryPacketWasSent(cfg, partitions, init, p);
        var j: nat :| SentAt(cfg, start, init, p, j);
        assert init[..j] == events[..j];
        assert SentAt(cfg, start, events, p, j);
      } else {
        match last
        case Send(m, draw, raw) =>
          SendForgesNothing(cfg, n, m, draw, raw, p);
          assert SentAt(cfg, start, events, p, |init|);
        case Drain(agent) => DrainForgesNothing(n, agent, p);
        case _ =>
      }
    }
  }

  /** Every hand-over of every run goes back to a send, and happens no earlier than that send's
      tick plus the base latency plus the per-hop latency over the mesh distance of that moment. */
  lemma NeverEarly(cfg: Config, partitions: set<(string, string)>, events: seq<Event>, i: nat) returns (j: nat)
    requires i < |Run(cfg, Fresh(partitions), events).delivered|
    ensures var d := Run(cfg, Fresh(partitions), events).delivered[i];
            && SentAt(cfg, Fresh(partitions), events, d.packet, j)
            && var sent := Run(cfg, Fresh(partitions), events[..j]).tick;
               sent + cfg.latencyTicks + d.packet.hops * cfg.latencyPerHop <= d.at
  {
    FreshGood(cfg, partitions);
    EveryRunGood(cfg, Fresh(partitions), events);
    var d := Run(cfg, Fresh(partitions), events).delivered[i];
    EveryPacketWasSent(cfg, partitions, events, d.packet);
    j :| SentAt(cfg, Fresh(partitions), events, d.packet, j);
  }

  // ----- partitions -----

  predicate Removes(e: Event, pair: (string, string)) {
    e.RemovePartition? && Pair(e.a, e.b) == pair
  }

  lemma {:induction false} StaysPartitioned(cfg: Config, n: Net, events: seq<Event>, pair: (string, string))
    requires pair in n.partitions && forall i :: 0 <= i < |events| ==> !Removes(events[i], pair)
    ensures pair in Run(cfg, n, events).partitions
  {
    if events != [] {
      StaysPartitioned(cfg, n, events[..|events| - 1], pair);
      assert !Removes(events[|events| - 1], pair);
    }
  }

  /** Once a pair is partitioned, and until it is removed in either spelling, a send between
      the two in either direction is dropped, whatever else happened in between. */
  lemma PartitionHolds(cfg: Config, n: Net, a: string, b: string, between: seq<Event>, m: Message, draw: real, raw: nat)
    requires (m.from == a && m.to == b) || (m.from == b && m.to == a)
    requires forall i :: 0 <= i < |between| ==> !Removes(between[i], Pair(a, b))
    ensures var before := Run(cfg, Step(cfg, n, AddPartition(a, b)), between);
            var after := Step(cfg, before, Send(m, draw, raw));
            && after.attempted == before.attempted + 1 && after.dropped == before.dropped + {before.attempted}
            && after.inFlight == before.inFlight
  {
    PairUnordered(a, b);
    StaysPartitioned(cfg, Step(cfg, n, AddPartition(a, b)), between, Pair(a, b));
  }

  predicate Touches(e: Event, pair: (string, string)) {
    (e.AddPartition? || e.RemovePartition?) && Pair(e.a, e.b) == pair
  }

  lemma {:induction false} UntouchedPair(cfg: Config, n: Net, events: seq<Event>, pair: (string, string))
    requires forall i :: 0 <= i < |events| ==> !Touches(events[i], pair)
    ensures pair in Run(cfg, n, events).partitions <==> pair in n.partitions
  {
    if events != [] {
      UntouchedPair(cfg, n, events[..|events| - 1], pair);
      assert !Touches(events[|events| - 1], pair);
    }
  }

  /** A pair given at construction is taken as it is written, while sends look for the pair with
      the smaller id first. So until the pair is added or removed, traffic between `a` and `b` is
      partitioned exactly when the ordered spelling was given. */
  lemma InitialPairBlocks(cfg: Config, given: set<(string, string)>, events: seq<Event>, a: string, b: string)
    requires Less(a, b) && forall i :: 0 <= i < |events| ==> !Touches(events[i], Pair(a, b))
    ensures var n := Run(cfg, Fresh(given), events);
            && (Pair(a, b) in n.partitions <==> (a, b) in given)
            && (Pair(b, a) in n.partitions <==> (a, b) in given)
  {
    PairUnordered(a, b);
    UntouchedPair(cfg, Fresh(given), events, Pair(a, b));
  }

  /** A pair given the wrong way round blocks nothing. */
  lemma ReversedPairBlocksNothing(cfg: Config, a: string, b: string, m: Message, draw: real)
    requires Less(a, b) && m.from == a && m.to == b && cfg.packetLossRate <= 0.0 && draw >= 0.0
    ensures !Lost(cfg, Fresh({(b, a)}), m, draw)
  {
    LessIrreflexive(a);
    assert (b, a) != (a, b);
  }
}
