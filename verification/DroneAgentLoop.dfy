/** The drone agent as it runs: the polling loop, the senders and the tick loop, changed in place,
    each proved against the inputs it stands for. */
module DroneAgentLoop {
  import opened Basics
  import opened SwarmProtocol
  import opened EnvelopeIds
  import opened DroneAgent

  function Hearings(incoming: seq<Raw>, tick: nat): (r: seq<Input>)
    ensures |r| == |incoming|
    ensures forall i :: 0 <= i < |r| ==> r[i] == Heard(incoming[i], tick)
  {
    seq(|incoming|, i requires 0 <= i < |incoming| => Heard(incoming[i], tick))
  }

  function Tellings(targets: seq<string>, m: Message, tick: nat): (r: seq<Input>)
    ensures |r| == |targets|
    ensures forall i :: 0 <= i < |r| ==> r[i] == Told(targets[i], m, tick)
  {
    seq(|targets|, i requires 0 <= i < |targets| => Told(targets[i], m, tick))
  }

  /** One tick: what is polled, a heartbeat to each target, and presence every 25th tick. */
  function TickInputs(polled: seq<Raw>, targets: seq<string>, t: nat): seq<Input> {
    Hearings(polled, t) + Tellings(targets, Heartbeat(t, 0), t)
    + if t % 25 == 0 then Tellings(targets, Presence, t) else []
  }

  lemma TickAppended(before: seq<Input>, polled: seq<Raw>, targets: seq<string>, t: nat)
    ensures var beaten := before + Hearings(polled, t) + Tellings(targets, Heartbeat(t, 0), t);
            before + TickInputs(polled, targets, t) ==
            if t % 25 == 0 then beaten + Tellings(targets, Presence, t) else beaten
  {
  }

  lemma AppendNext<T>(before: seq<T>, s: seq<T>, i: nat)
    requires i < |s|
    ensures before + s[..i + 1] == before + s[..i] + [s[i]]
  {
  }

  datatype Polled = Polled(raws: seq<Raw>, fault: bool)

  /** What the link hands over at each tick of a run. */
  type Traffic = seq<Polled>

  function LoopInputs(traffic: Traffic, targets: seq<string>, ticks: nat): seq<Input>
    requires ticks <= |traffic|
  {
    if ticks == 0 then []
    else LoopInputs(traffic, targets, ticks - 1) + TickInputs(traffic[ticks - 1].raws, targets, ticks - 1)
  }

  /** `inputs` is `before` and the first `k` of `all`. */
  predicate Fed(inputs: seq<Input>, before: seq<Input>, all: seq<Input>, k: nat) {
    k <= |all| && inputs == before + all[..k]
  }

  lemma FedNext(inputs: seq<Input>, before: seq<Input>, all: seq<Input>, k: nat)
    requires Fed(inputs, before, all, k) && k < |all|
    ensures Fed(inputs + [all[k]], before, all, k + 1)
  {
    AppendNext(before, all, k);
  }

  lemma FedAll(inputs: seq<Input>, before: seq<Input>, all: seq<Input>)
    requires Fed(inputs, before, all, |all|)
    ensures inputs == before + all
  {
    assert all[..|all|] == all;
  }

  class Protocol {
    const agentId: string
    const dryRun: bool
    const generation: nat
    const suppressor: DuplicateSuppressor
    const link: Link
    var counter: nat
    var sent: nat
    var errors: nat
    var incoming: Incoming
    ghost var log: seq<Sent>
    ghost var inputs: seq<Input>

    ghost function State(): Agent
      reads this, suppressor
    {
      Agent(suppressor.seen, counter, sent, errors, incoming, log)
    }

    /** The agent is what its history makes it. */
    ghost predicate Valid()
      reads this, suppressor
    {
      suppressor.window == DEFAULT_WINDOW && State() == Run(link, dryRun, inputs)
    }

    constructor (agentId: string, dryRun: bool, link: Link)
      ensures Valid() && inputs == [] && fresh(suppressor)
      ensures this.agentId == agentId && this.dryRun == dryRun && this.link == link && generation == 0
    {
      this.agentId, this.dryRun, this.link, generation := agentId, dryRun, link, 0;
      suppressor := new DuplicateSuppressor(DEFAULT_WINDOW);
      counter, sent, errors, incoming := 0, 0, 0, NOTHING;
      log, inputs := [], [];
    }

    /** The link may take or refuse the envelope; the counter moves on either way. */
    method SendEnvelope(to: string, correlation: Option<string>, m: Message, tick: nat) returns (e: Envelope)
      modifies this`counter, this`sent, this`errors, this`log
      ensures State() == Give(link, old(State()), Post(to, correlation, m), tick)
      ensures e == Envelope(IdOf(agentId, log[|old(log)|]), correlation, agentId, to, m)
    {
      counter := counter + 1;
      e := Envelope(EnvelopeId(agentId, tick, counter), correlation, agentId, to, m);
      var ok := link(counter);
      log := log + [Sent(Post(to, correlation, m), tick, counter, ok)];
      if ok {
        sent := sent + 1;
      } else {
        errors := errors + 1;
      }
    }

    method HandleEnvelope(e: Envelope, tick: nat)
      modifies this`counter, this`sent, this`errors, this`log, this`incoming
      ensures State() == Handle(link, dryRun, old(State()), e, tick)
    {
      match e.message {
        case MissionOffer(offerId) =>
          incoming := incoming.(offers := incoming.offers + 1);
          if dryRun {
            var _ := SendEnvelope(e.from, Some(e.id), MissionReject(offerId), tick);
          }
        case StateRequest(_, sessionId) =>
          incoming := incoming.(requests := incoming.requests + 1);
          var _ := SendEnvelope(e.from, Some(sessionId), StateResponse(tick), tick);
        case SegmentGrant =>
          incoming := incoming.(grants := incoming.grants + 1);
        case SegmentDeny =>
          incoming := incoming.(denies := incoming.denies + 1);
        case _ =>
      }
    }

    /** One turn of the polling loop. */
    method TakeOne(raw: Raw, tick: nat)
      requires suppressor.window == DEFAULT_WINDOW
      modifies this`counter, this`sent, this`errors, this`log, this`incoming, suppressor
      ensures State() == Hear(link, dryRun, old(State()), raw, tick)
    {
      var envelope := Opened(raw);
      if envelope.None? {
        incoming := incoming.(malformed := incoming.malformed + 1);
        return;
      }
      var duplicate := suppressor.IsDuplicate(envelope.value.id);
      if duplicate {
        incoming := incoming.(duplicates := incoming.duplicates + 1);
        return;
      }
      incoming := incoming.(received := incoming.received + 1);
      HandleEnvelope(envelope.value, tick);
    }

    /** Polls until the link has nothing more: `polled` is what it hands over until then, and
        `fault` says that the poll after the last message failed. */
    method PollIncoming(polled: seq<Raw>, fault: bool, tick: nat) returns (ok: bool)
      requires Valid()
      modifies this, suppressor
      ensures Valid() && inputs == old(inputs) + Hearings(polled, tick) && ok == !fault
    {
      ghost var all := Hearings(polled, tick);
      for i := 0 to |polled|
        invariant Valid() && Fed(inputs, old(inputs), all, i)
      {
        FedNext(inputs, old(inputs), all, i);
        RunSnoc(link, dryRun, inputs, all[i]);
        TakeOne(polled[i], tick);
        inputs := inputs + [all[i]];
      }
      FedAll(inputs, old(inputs), all);
      ok := !fault;
    }

    /** Heartbeats and presence messages go to each target in turn. */
    method SendToAll(targets: seq<string>, m: Message, tick: nat)
      requires Valid()
      modifies this
      ensures Valid() && inputs == old(inputs) + Tellings(targets, m, tick)
    {
      ghost var all := Tellings(targets, m, tick);
      for i := 0 to |targets|
        invariant Valid() && Fed(inputs, old(inputs), all, i)
      {
        FedNext(inputs, old(inputs), all, i);
        RunSnoc(link, dryRun, inputs, all[i]);
        var _ := SendEnvelope(targets[i], None, m, tick);
        inputs := inputs + [all[i]];
      }
      FedAll(inputs, old(inputs), all);
    }

    method OneTick(polled: seq<Raw>, fault: bool, targets: seq<string>, t: nat) returns (ok: bool)
      requires Valid() && generation == 0
      modifies this, suppressor
      ensures Valid() && ok == !fault
      ensures ok ==> inputs == old(inputs) + TickInputs(polled, targets, t)
    {
      TickAppended(inputs, polled, targets, t);
      ok := PollIncoming(polled, fault, t);
      if ok {
        SendToAll(targets, Heartbeat(t, generation), t);
        if t == 0 || t % 25 == 0 {
          SendToAll(targets, Presence, t);
        }
      }
    }

    /** The tick loop ends early exactly when a poll fails. */
    method RunTicks(traffic: Traffic, targets: seq<string>, ticks: nat) returns (ok: bool)
      requires Valid() && inputs == [] && generation == 0 && ticks == |traffic|
      modifies this, suppressor
      ensures Valid() && (ok <==> forall t :: 0 <= t < ticks ==> !traffic[t].fault)
      ensures ok ==> inputs == LoopInputs(traffic, targets, ticks)
    {
      for t := 0 to ticks
        invariant Valid() && inputs == LoopInputs(traffic, targets, t)
        invariant forall u :: 0 <= u < t ==> !traffic[u].fault
      {
        var polled := traffic[t];
        assert LoopInputs(traffic, targets, t + 1) == inputs + TickInputs(polled.raws, targets, t);
        ok := OneTick(polled.raws, polled.fault, targets, t);
        if !ok {
          assert polled.fault;
          return;
        }
      }
      ok := true;
    }
  }

  datatype Counters = Counters(sent: nat, errors: nat, incoming: Incoming)

  function CountersOf(a: Agent): Counters {
    Counters(a.sent, a.errors, a.incoming)
  }

  /** The whole run. */
  method RunLoop(agentId: string, targets: seq<string>, ticks: nat, dryRun: bool, link: Link, traffic: Traffic)
    returns (r: Option<Counters>)
    requires ticks == |traffic|
    ensures r.Some? <==> forall t :: 0 <= t < ticks ==> !traffic[t].fault
    ensures r.Some? ==> r.value == CountersOf(Run(link, dryRun, LoopInputs(traffic, targets, ticks)))
  {
    var protocol := new Protocol(agentId, dryRun, link);
    var ok := protocol.RunTicks(traffic, targets, ticks);
    if !ok {
      return None;
    }
    r := Some(Counters(protocol.sent, protocol.errors, protocol.incoming));
  }

  // ----- volume -----

  /** How many of the first `n` inputs tell the agent to send. */
  function OrdersAmong(inputs: seq<Input>, n: nat): nat
    requires n <= |inputs|
  {
    if n == 0 then 0 else OrdersAmong(inputs, n - 1) + if inputs[n - 1].Told? then 1 else 0
  }

  function Orders(inputs: seq<Input>): nat {
    OrdersAmong(inputs, |inputs|)
  }

  lemma {:induction false} OrdersPrefix(a: seq<Input>, b: seq<Input>, n: nat)
    requires n <= |a|
    ensures OrdersAmong(a + b, n) == OrdersAmong(a, n)
  {
    if n > 0 {
      OrdersPrefix(a, b, n - 1);
    }
  }

  lemma {:induction false} OrdersSuffix(a: seq<Input>, b: seq<Input>, n: nat)
    requires n <= |b|
    ensures OrdersAmong(a + b, |a| + n) == Orders(a) + OrdersAmong(b, n)
  {
    if n > 0 {
      OrdersSuffix(a, b, n - 1);
    } else {
      OrdersPrefix(a, b, |a|);
    }
  }

  lemma OrdersConcat(a: seq<Input>, b: seq<Input>)
    ensures Orders(a + b) == Orders(a) + Orders(b)
  {
    OrdersSuffix(a, b, |b|);
  }

  lemma {:induction false} OrdersSlice(inputs: seq<Input>, m: nat, n: nat)
    requires n <= m <= |inputs|
    ensures OrdersAmong(inputs[..m], n) == OrdersAmong(inputs, n)
  {
    if n > 0 {
      OrdersSlice(inputs, m, n - 1);
    }
  }

  lemma {:induction false} OrdersAreCounted(inputs: seq<Input>)
    ensures Count(inputs, AnyOrder) == Orders(inputs)
  {
    if inputs != [] {
      var n := |inputs| - 1;
      OrdersAreCounted(inputs[..n]);
      OrdersSlice(inputs, n, n);
    }
  }

  lemma {:induction false} OrdersUniform(inputs: seq<Input>, told: bool, n: nat)
    requires n <= |inputs| && forall i :: 0 <= i < |inputs| ==> inputs[i].Told? == told
    ensures OrdersAmong(inputs, n) == if told then n else 0
  {
    if n > 0 {
      OrdersUniform(inputs, told, n - 1);
    }
  }

  /** Messages a tick sends of itself, to `k` targets. */
  function Sends(k: nat, t: nat): nat {
    if t % 25 == 0 then k + k else k
  }

  lemma TickOrders(polled: seq<Raw>, targets: seq<string>, t: nat)
    ensures Orders(TickInputs(polled, targets, t)) == Sends(|targets|, t)
  {
    var heard, beats := Hearings(polled, t), Tellings(targets, Heartbeat(t, 0), t);
    var presence := if t % 25 == 0 then Tellings(targets, Presence, t) else [];
    OrdersUniform(heard, false, |heard|);
    OrdersUniform(beats, true, |beats|);
    OrdersUniform(presence, true, |presence|);
    OrdersConcat(heard, beats);
    OrdersConcat(heard + beats, presence);
  }

  lemma TickAdds(before: seq<Input>, polled: seq<Raw>, targets: seq<string>, t: nat)
    ensures Orders(before + TickInputs(polled, targets, t)) == Orders(before) + Sends(|targets|, t)
  {
    TickOrders(polled, targets, t);
    OrdersConcat(before, TickInputs(polled, targets, t));
  }

  lemma TickLength(polled: seq<Raw>, targets: seq<string>, t: nat)
    ensures |TickInputs(polled, targets, t)| == |polled| + Sends(|targets|, t)
  {
  }

  /** Messages polled over the first ticks. */
  function Arrivals(traffic: Traffic, ticks: nat): nat
    requires ticks <= |traffic|
  {
    if ticks == 0 then 0 else Arrivals(traffic, ticks - 1) + |traffic[ticks - 1].raws|
  }

  /** Ticks on which presence is announced: every 25th, from the first. */
  function Announcements(ticks: nat): nat {
    (ticks + 24) / 25
  }

  function TotalSends(k: nat, ticks: nat): nat {
    if ticks == 0 then 0 else TotalSends(k, ticks - 1) + Sends(k, ticks - 1)
  }

  lemma AnnouncementsStep(t: nat)
    ensures Announcements(t + 1) == Announcements(t) + if t % 25 == 0 then 1 else 0
  {
  }

  lemma {:induction false} TotalSendsAre(k: nat, ticks: nat)
    ensures TotalSends(k, ticks) == k * (ticks + Announcements(ticks))
  {
    if ticks > 0 {
      var t := ticks - 1;
      TotalSendsAre(k, t);
      AnnouncementsStep(t);
      var n := t + Announcements(t);
      assert k * (n + 1) == k * n + k && k * (n + 2) == k * n + k + k;
    }
  }

  lemma LoopNext(traffic: Traffic, targets: seq<string>, t: nat)
    requires t < |traffic|
    ensures Orders(LoopInputs(traffic, targets, t + 1)) == Orders(LoopInputs(traffic, targets, t)) + Sends(|targets|, t)
  {
    TickAdds(LoopInputs(traffic, targets, t), traffic[t].raws, targets, t);
  }

  lemma {:induction false} LoopOrders(traffic: Traffic, targets: seq<string>, ticks: nat)
    requires ticks <= |traffic|
    ensures Orders(LoopInputs(traffic, targets, ticks)) == TotalSends(|targets|, ticks)
  {
    if ticks > 0 {
      LoopOrders(traffic, targets, ticks - 1);
      LoopNext(traffic, targets, ticks - 1);
    }
  }

  lemma {:induction false} LoopLength(traffic: Traffic, targets: seq<string>, ticks: nat)
    requires ticks <= |traffic|
    ensures |LoopInputs(traffic, targets, ticks)| == Arrivals(traffic, ticks) + TotalSends(|targets|, ticks)
  {
    if ticks > 0 {
      var t := ticks - 1;
      LoopLength(traffic, targets, t);
      TickLength(traffic[t].raws, targets, t);
    }
  }

  /** The books of any history: everything heard was received, a duplicate or malformed, and
      everything sent or refused was an order or a reply. */
  lemma Books(link: Link, dryRun: bool, inputs: seq<Input>)
    ensures var a := Run(link, dryRun, inputs);
            && a.incoming.received + a.incoming.duplicates + a.incoming.malformed + Orders(inputs) == |inputs|
            && a.sent + a.errors == Orders(inputs) + a.incoming.requests + if dryRun then a.incoming.offers else 0
  {
    OrdersAreCounted(inputs);
    CountersAreHistory(link, dryRun, inputs);
    NothingUncounted(inputs);
    LogIsHistory(link, dryRun, inputs);
    PostsAddUp(dryRun, inputs);
  }

  /** The books of a whole run, from its counters alone: everything polled was received, a
      duplicate or malformed, and everything sent or refused was a heartbeat to a target each
      tick, a presence message each 25th tick, or a reply. */
  lemma RunBooks(link: Link, dryRun: bool, traffic: Traffic, targets: seq<string>, ticks: nat)
    requires ticks <= |traffic|
    ensures var c := CountersOf(Run(link, dryRun, LoopInputs(traffic, targets, ticks)));
            && c.incoming.received + c.incoming.duplicates + c.incoming.malformed == Arrivals(traffic, ticks)
            && c.sent + c.errors == |targets| * (ticks + Announcements(ticks)) + c.incoming.requests
                 + if dryRun then c.incoming.offers else 0
  {
    Books(link, dryRun, LoopInputs(traffic, targets, ticks));
    LoopOrders(traffic, targets, ticks);
    LoopLength(traffic, targets, ticks);
    TotalSendsAre(|targets|, ticks);
  }
}
