/** What a drone agent answers, and to whom, and what it sends of itself. */
module DroneReplies {
  import opened Basics
  import opened SwarmProtocol
  import opened DroneAgent
  import opened DroneAgentLoop

  /** The identifier is among the latest accepted ones. */
  ghost predicate Remembered(before: seq<Input>, id: string) {
    id in Latest(Accepted(DEFAULT_WINDOW, Ids(before)), DEFAULT_WINDOW)
  }

  /** What the input calls for, if anything: an order is sent as told; an accepted state request is
      answered to the envelope's sender under its session; an accepted offer is, in a dry run,
      rejected to its sender under the envelope's own id. */
  ghost predicate CallsFor(dryRun: bool, before: seq<Input>, input: Input, post: Post) {
    match input
    case Told(to, m, _) => post.to == to && post.correlation == None && post.message == m
    case Heard(Readable(SwarmProtocolV1, e), tick) =>
      && !Remembered(before, e.id) && post.to == e.from
      && ((e.message.StateRequest? && post.correlation == Some(e.message.sessionId)
           && post.message == StateResponse(tick))
          || (dryRun && e.message.MissionOffer? && post.correlation == Some(e.id)
              && post.message == MissionReject(e.message.offerId)))
    case _ => false
  }

  /** The agent hands exactly this to the link, as its next envelope. */
  ghost predicate Hands(link: Link, before: Agent, after: Agent, post: Post, tick: nat) {
    var n := |before.log| + 1;
    && after.log == before.log + [Sent(post, tick, n, link(n))]
    && after.sent == before.sent + (if link(n) then 1 else 0)
    && after.errors == before.errors + if link(n) then 0 else 1
  }

  lemma ReplyCalledFor(dryRun: bool, before: seq<Input>, input: Input, post: Post)
    ensures PostFor(dryRun, Judge(before, input), input) == Some(post) <==> CallsFor(dryRun, before, input, post)
  {
  }

  /** After any history, whatever the link does, the next input makes the agent hand over what it
      calls for, and otherwise nothing. */
  lemma RepliesExactly(link: Link, dryRun: bool, before: seq<Input>, input: Input)
    ensures var a, b := Run(link, dryRun, before), Run(link, dryRun, before + [input]);
            || (exists post :: CallsFor(dryRun, before, input, post) && Hands(link, a, b, post, input.tick))
            || (b.log == a.log && forall post :: !CallsFor(dryRun, before, input, post))
  {
    var a := Run(link, dryRun, before);
    var post := PostFor(dryRun, Judge(before, input), input);
    RunSnoc(link, dryRun, before, input);
    RunJudges(link, dryRun, before, input);
    StepLog(link, dryRun, a, input);
    LogIsHistory(link, dryRun, before);
    if post.Some? {
      ReplyCalledFor(dryRun, before, input, post.value);
      assert Hands(link, a, Run(link, dryRun, before + [input]), post.value, input.tick);
    } else {
      forall p ensures !CallsFor(dryRun, before, input, p) {
        ReplyCalledFor(dryRun, before, input, p);
      }
    }
  }

  /** An accepted state request is answered to whoever sent it, under its session. */
  lemma StateRequestAnswered(link: Link, dryRun: bool, before: seq<Input>, e: Envelope, tick: nat)
    requires e.message.StateRequest? && !Remembered(before, e.id)
    ensures var log := Run(link, dryRun, before + [Heard(Readable(SwarmProtocolV1, e), tick)]).log;
            && |log| > 0 && log[|log| - 1].post == Post(e.from, Some(e.message.sessionId), StateResponse(tick))
            && log[..|log| - 1] == Run(link, dryRun, before).log
  {
    var input := Heard(Readable(SwarmProtocolV1, e), tick);
    RepliesExactly(link, dryRun, before, input);
    assert CallsFor(dryRun, before, input, Post(e.from, Some(e.message.sessionId), StateResponse(tick)));
  }

  /** An accepted offer is rejected in a dry run, to whoever made it, under its envelope's id. */
  lemma OfferRejected(link: Link, before: seq<Input>, e: Envelope, tick: nat)
    requires e.message.MissionOffer? && !Remembered(before, e.id)
    ensures var log := Run(link, true, before + [Heard(Readable(SwarmProtocolV1, e), tick)]).log;
            && |log| > 0 && log[|log| - 1].post == Post(e.from, Some(e.id), MissionReject(e.message.offerId))
            && log[..|log| - 1] == Run(link, true, before).log
  {
    var input := Heard(Readable(SwarmProtocolV1, e), tick);
    RepliesExactly(link, true, before, input);
    assert CallsFor(true, before, input, Post(e.from, Some(e.id), MissionReject(e.message.offerId)));
  }

  // ----- the tick loop -----

  /** What was polled is heard from position `at` on. */
  ghost predicate HeardAt(inputs: seq<Input>, at: nat, polled: seq<Raw>, t: nat) {
    at + |polled| <= |inputs| && forall k :: at <= k < at + |polled| ==> inputs[k] == Heard(polled[k - at], t)
  }

  /** From position `at` on each target in turn is sent the message. */
  ghost predicate ToldAt(inputs: seq<Input>, at: nat, targets: seq<string>, m: Message, t: nat) {
    at + |targets| <= |inputs| && forall k :: at <= k < at + |targets| ==> inputs[k] == Told(targets[k - at], m, t)
  }

  /** Tick `t` stands from position `at` on: first all that was polled, then a heartbeat to each
      target, then, every 25th tick, presence to each target. */
  ghost predicate TickAt(inputs: seq<Input>, polled: seq<Raw>, targets: seq<string>, t: nat, at: nat) {
    && HeardAt(inputs, at, polled, t)
    && ToldAt(inputs, at + |polled|, targets, Heartbeat(t, 0), t)
    && (t % 25 == 0 ==> ToldAt(inputs, at + |polled| + |targets|, targets, Presence, t))
  }

  lemma TickPlaced(before: seq<Input>, polled: seq<Raw>, targets: seq<string>, t: nat)
    ensures TickAt(before + TickInputs(polled, targets, t), polled, targets, t, |before|)
  {
    var heard, beats := Hearings(polled, t), Tellings(targets, Heartbeat(t, 0), t);
    var presence := if t % 25 == 0 then Tellings(targets, Presence, t) else [];
    var inputs := before + heard + beats + presence;
    assert before + TickInputs(polled, targets, t) == inputs;
    assert HeardAt(inputs, |before|, polled, t);
    assert ToldAt(inputs, |before| + |polled|, targets, Heartbeat(t, 0), t);
  }

  lemma TickStays(inputs: seq<Input>, more: seq<Input>, polled: seq<Raw>, targets: seq<string>, t: nat, at: nat)
    requires TickAt(inputs, polled, targets, t, at) && inputs <= more
    ensures TickAt(more, polled, targets, t, at)
  {
  }

  lemma LastTickInPlace(traffic: Traffic, targets: seq<string>, t: nat, polled: seq<Raw>, at: nat)
    requires t < |traffic| && polled == traffic[t].raws && at == |LoopInputs(traffic, targets, t)|
    ensures TickAt(LoopInputs(traffic, targets, t + 1), polled, targets, t, at)
  {
    TickPlaced(LoopInputs(traffic, targets, t), polled, targets, t);
  }

  lemma TickStaysInPlace(traffic: Traffic, targets: seq<string>, ticks: nat, polled: seq<Raw>, t: nat, at: nat)
    requires ticks < |traffic| && TickAt(LoopInputs(traffic, targets, ticks), polled, targets, t, at)
    ensures TickAt(LoopInputs(traffic, targets, ticks + 1), polled, targets, t, at)
  {
    TickStays(LoopInputs(traffic, targets, ticks), LoopInputs(traffic, targets, ticks + 1), polled, targets, t, at);
  }

  /** Once in place, a tick stays there, however many follow. */
  lemma {:induction false} TickStaysFor(traffic: Traffic, targets: seq<string>, m: nat, n: nat, polled: seq<Raw>,
                                        t: nat, at: nat)
    requires m <= n <= |traffic| && TickAt(LoopInputs(traffic, targets, m), polled, targets, t, at)
    ensures TickAt(LoopInputs(traffic, targets, n), polled, targets, t, at)
    decreases n - m
  {
    if m < n {
      TickStaysInPlace(traffic, targets, m, polled, t, at);
      TickStaysFor(traffic, targets, m + 1, n, polled, t, at);
    }
  }

  /** Each tick of a run follows on what the ticks before it heard and sent. */
  lemma EveryTickInPlace(traffic: Traffic, targets: seq<string>, ticks: nat, t: nat, polled: seq<Raw>, at: nat)
    requires t < ticks <= |traffic| && polled == traffic[t].raws && at == |LoopInputs(traffic, targets, t)|
    ensures TickAt(LoopInputs(traffic, targets, ticks), polled, targets, t, at)
  {
    LastTickInPlace(traffic, targets, t, polled, at);
    TickStaysFor(traffic, targets, t + 1, ticks, polled, t, at);
  }
}
