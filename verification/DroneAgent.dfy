/** The drone agent's protocol loop: what it counts, answers and sends is a function of what
    it heard and was told to send, whatever the link delivers or refuses. */
module DroneAgent {
  import opened Basics
  import opened SwarmProtocol
  import opened EnvelopeIds

  datatype Message =
    | Heartbeat(tick: nat, generation: nat)
    | Presence
    | MissionOffer(offerId: string)
    | MissionReject(offerId: string)
    | StateRequest(requester: string, sessionId: string)
    | StateResponse(lastTick: nat)
    | SegmentGrant
    | SegmentDeny
    | Other

  datatype Envelope = Envelope(id: string, correlation: Option<string>, from: string, to: string, message: Message)

  datatype Schema = SwarmProtocolV1 | UnknownSchema(name: string)

  /** A payload that does not parse, or one that does, with its schema version. */
  datatype Raw = Unreadable | Readable(schema: Schema, envelope: Envelope)

  function Opened(raw: Raw): Option<Envelope> {
    if raw.Readable? && raw.schema.SwarmProtocolV1? then Some(raw.envelope) else None
  }

  datatype Incoming = Incoming(received: nat, duplicates: nat, malformed: nat,
                               offers: nat, requests: nat, grants: nat, denies: nat)

  datatype Post = Post(to: string, correlation: Option<string>, message: Message)

  /** What was handed to the link: the tick and counter value in its name, and whether the link
      took it. */
  datatype Sent = Sent(post: Post, tick: nat, counter: nat, ok: bool)

  /** The link's answer to the n-th envelope it is given. */
  type Link = nat -> bool

  datatype Agent = Agent(seen: seq<string>, counter: nat, sent: nat, errors: nat, incoming: Incoming, log: seq<Sent>)

  // ----- steps -----

  const NOTHING := Incoming(0, 0, 0, 0, 0, 0, 0)

  function Fresh(): Agent {
    Agent([], 0, 0, 0, NOTHING, [])
  }

  function Give(link: Link, a: Agent, post: Post, tick: nat): Agent {
    var n := a.counter + 1;
    var logged := a.(counter := n, log := a.log + [Sent(post, tick, n, link(n))]);
    if link(n) then logged.(sent := a.sent + 1) else logged.(errors := a.errors + 1)
  }

  function Noted(c: Incoming, m: Message): Incoming {
    match m
    case MissionOffer(_) => c.(offers := c.offers + 1)
    case StateRequest(_, _) => c.(requests := c.requests + 1)
    case SegmentGrant => c.(grants := c.grants + 1)
    case SegmentDeny => c.(denies := c.denies + 1)
    case _ => c
  }

  /** A dry run refuses offers; state requests are always answered, to the envelope's sender. */
  function ReplyTo(dryRun: bool, e: Envelope, tick: nat): Option<Post> {
    match e.message
    case MissionOffer(offerId) => if dryRun then Some(Post(e.from, Some(e.id), MissionReject(offerId))) else None
    case StateRequest(_, sessionId) => Some(Post(e.from, Some(sessionId), StateResponse(tick)))
    case _ => None
  }

  function Handle(link: Link, dryRun: bool, a: Agent, e: Envelope, tick: nat): Agent {
    var noted := a.(incoming := Noted(a.incoming, e.message));
    var reply := ReplyTo(dryRun, e, tick);
    if reply.Some? then Give(link, noted, reply.value, tick) else noted
  }

  function Hear(link: Link, dryRun: bool, a: Agent, raw: Raw, tick: nat): Agent {
    match Opened(raw)
    case None => a.(incoming := a.incoming.(malformed := a.incoming.malformed + 1))
    case Some(e) =>
      var remembering := a.(seen := SeenAfter(DEFAULT_WINDOW, a.seen, e.id));
      if e.id in a.seen then remembering.(incoming := a.incoming.(duplicates := a.incoming.duplicates + 1))
      else Handle(link, dryRun, remembering.(incoming := a.incoming.(received := a.incoming.received + 1)), e, tick)
  }

  datatype Input = Heard(raw: Raw, tick: nat) | Told(to: string, message: Message, tick: nat)

  function Step(link: Link, dryRun: bool, a: Agent, input: Input): Agent {
    match input
    case Heard(raw, tick) => Hear(link, dryRun, a, raw, tick)
    case Told(to, m, tick) => Give(link, a, Post(to, None, m), tick)
  }

  function Run(link: Link, dryRun: bool, inputs: seq<Input>): Agent {
    if inputs == [] then Fresh()
    else Step(link, dryRun, Run(link, dryRun, inputs[..|inputs| - 1]), inputs[|inputs| - 1])
  }

  lemma RunSnoc(link: Link, dryRun: bool, inputs: seq<Input>, input: Input)
    ensures Run(link, dryRun, inputs + [input]) == Step(link, dryRun, Run(link, dryRun, inputs), input)
  {
    assert (inputs + [input])[..|inputs|] == inputs;
  }

  // ----- history -----

  /** Identifiers of the readable envelopes, in order of arrival. */
  function Ids(inputs: seq<Input>): seq<string> {
    if inputs == [] then []
    else
      var rest, last := Ids(inputs[..|inputs| - 1]), inputs[|inputs| - 1];
      if last.Heard? && Opened(last.raw).Some? then rest + [Opened(last.raw).value.id] else rest
  }

  /** What one more input is, given the history before it. */
  datatype Verdict = Order | Garbage | Repeat | News(envelope: Envelope)

  function Classify(seen: seq<string>, input: Input): Verdict {
    match input
    case Told(_, _, _) => Order
    case Heard(raw, _) =>
      match Opened(raw)
      case None => Garbage
      case Some(e) => if e.id in seen then Repeat else News(e)
  }

  function Judge(before: seq<Input>, input: Input): Verdict {
    Classify(Latest(Accepted(DEFAULT_WINDOW, Ids(before)), DEFAULT_WINDOW), input)
  }

  datatype Mark = AnyOrder | AnyGarbage | AnyRepeat | AnyNews | Offer | Request | Grant | Deny

  predicate Bears(v: Verdict, mark: Mark) {
    match mark
    case AnyOrder => v.Order?
    case AnyGarbage => v.Garbage?
    case AnyRepeat => v.Repeat?
    case AnyNews => v.News?
    case Offer => v.News? && v.envelope.message.MissionOffer?
    case Request => v.News? && v.envelope.message.StateRequest?
    case Grant => v.News? && v.envelope.message.SegmentGrant?
    case Deny => v.News? && v.envelope.message.SegmentDeny?
  }

  /** How many inputs of the history bear the mark. */
  function Count(inputs: seq<Input>, mark: Mark): nat {
    if inputs == [] then 0
    else
      var init, last := inputs[..|inputs| - 1], inputs[|inputs| - 1];
      Count(init, mark) + One(Judge(init, last), mark)
  }

  function Tally(inputs: seq<Input>): Incoming {
    Incoming(Count(inputs, AnyNews), Count(inputs, AnyRepeat), Count(inputs, AnyGarbage),
      Count(inputs, Offer), Count(inputs, Request), Count(inputs, Grant), Count(inputs, Deny))
  }

  /** The identifiers held are the latest accepted of all that arrived. */
  lemma {:induction false} SeenIsHistory(link: Link, dryRun: bool, inputs: seq<Input>)
    ensures Run(link, dryRun, inputs).seen == Seen(DEFAULT_WINDOW, Ids(inputs))
  {
    if inputs != [] {
      var init, last := inputs[..|inputs| - 1], inputs[|inputs| - 1];
      SeenIsHistory(link, dryRun, init);
      StepSeen(link, dryRun, Run(link, dryRun, init), last);
      if last.Heard? && Opened(last.raw).Some? {
        SeenSnoc(DEFAULT_WINDOW, Ids(init), Opened(last.raw).value.id);
      }
    }
  }

  lemma StepSeen(link: Link, dryRun: bool, a: Agent, input: Input)
    ensures Step(link, dryRun, a, input).seen ==
            if input.Heard? && Opened(input.raw).Some?
            then SeenAfter(DEFAULT_WINDOW, a.seen, Opened(input.raw).value.id)
            else a.seen
  {
  }

  function TallyAfter(before: Incoming, v: Verdict): Incoming {
    match v
    case Order => before
    case Garbage => before.(malformed := before.malformed + 1)
    case Repeat => before.(duplicates := before.duplicates + 1)
    case News(e) => Noted(before.(received := before.received + 1), e.message)
  }

  lemma CountStep(inputs: seq<Input>, v: Verdict, mark: Mark)
    requires inputs != [] && v == Judge(inputs[..|inputs| - 1], inputs[|inputs| - 1])
    ensures Count(inputs, mark) == Count(inputs[..|inputs| - 1], mark) + One(v, mark)
  {
  }

  function One(v: Verdict, mark: Mark): nat {
    if Bears(v, mark) then 1 else 0
  }

  lemma TallyBump(b: Incoming, v: Verdict)
    ensures TallyAfter(b, v) ==
            Incoming(b.received + One(v, AnyNews), b.duplicates + One(v, AnyRepeat), b.malformed + One(v, AnyGarbage),
              b.offers + One(v, Offer), b.requests + One(v, Request), b.grants + One(v, Grant), b.denies + One(v, Deny))
  {
  }

  lemma TallyStep(inputs: seq<Input>, v: Verdict)
    requires inputs != [] && v == Judge(inputs[..|inputs| - 1], inputs[|inputs| - 1])
    ensures Tally(inputs) == TallyAfter(Tally(inputs[..|inputs| - 1]), v)
  {
    TallyBump(Tally(inputs[..|inputs| - 1]), v);
    CountStep(inputs, v, AnyNews);
    CountStep(inputs, v, AnyRepeat);
    CountStep(inputs, v, AnyGarbage);
    CountStep(inputs, v, Offer);
    CountStep(inputs, v, Request);
    CountStep(inputs, v, Grant);
    CountStep(inputs, v, Deny);
  }

  lemma StepTally(link: Link, dryRun: bool, a: Agent, input: Input)
    ensures Step(link, dryRun, a, input).incoming == TallyAfter(a.incoming, Classify(a.seen, input))
  {
  }

  lemma RunJudges(link: Link, dryRun: bool, before: seq<Input>, input: Input)
    ensures Classify(Run(link, dryRun, before).seen, input) == Judge(before, input)
  {
    SeenIsHistory(link, dryRun, before);
    SeenAreLatest(DEFAULT_WINDOW, Ids(before));
  }

  /** After any history, whatever the link does, each incoming counter is the number of inputs
      it is about. */
  lemma {:induction false} CountersAreHistory(link: Link, dryRun: bool, inputs: seq<Input>)
    ensures Run(link, dryRun, inputs).incoming == Tally(inputs)
  {
    if inputs != [] {
      var init, last := inputs[..|inputs| - 1], inputs[|inputs| - 1];
      CountersAreHistory(link, dryRun, init);
      RunJudges(link, dryRun, init, last);
      StepTally(link, dryRun, Run(link, dryRun, init), last);
      TallyStep(inputs, Judge(init, last));
    }
  }

  /** Every input is an order or was received, a duplicate or malformed. */
  lemma {:induction false} NothingUncounted(inputs: seq<Input>)
    ensures Count(inputs, AnyOrder) + Count(inputs, AnyNews) + Count(inputs, AnyRepeat) + Count(inputs, AnyGarbage) ==
            |inputs|
  {
    if inputs != [] {
      var init, last := inputs[..|inputs| - 1], inputs[|inputs| - 1];
      NothingUncounted(init);
    }
  }

  /** What counts as received is what the suppressor lets through. */
  lemma {:induction false} ReceivedAreAccepted(inputs: seq<Input>)
    ensures Count(inputs, AnyNews) == |Accepted(DEFAULT_WINDOW, Ids(inputs))|
  {
    if inputs != [] {
      var init, last := inputs[..|inputs| - 1], inputs[|inputs| - 1];
      ReceivedAreAccepted(init);
      if last.Heard? && Opened(last.raw).Some? {
        AcceptedSnoc(DEFAULT_WINDOW, Ids(init), Opened(last.raw).value.id);
      }
    }
  }

  // ----- what is sent -----

  function PostFor(dryRun: bool, v: Verdict, input: Input): Option<Post> {
    match input
    case Told(to, m, _) => Some(Post(to, None, m))
    case Heard(_, tick) => if v.News? then ReplyTo(dryRun, v.envelope, tick) else None
  }

  /** Everything the history makes the agent send. */
  function Posts(dryRun: bool, inputs: seq<Input>): seq<Post> {
    if inputs == [] then []
    else
      var init, last := inputs[..|inputs| - 1], inputs[|inputs| - 1];
      var post := PostFor(dryRun, Judge(init, last), last);
      Posts(dryRun, init) + if post.Some? then [post.value] else []
  }

  predicate LogOk(link: Link, log: seq<Sent>, posts: seq<Post>) {
    && |log| == |posts|
    && forall k :: 0 <= k < |log| ==> log[k].post == posts[k] && log[k].counter == k + 1 && log[k].ok == link(k + 1)
  }

  /** One step sends what the input calls for, or nothing. */
  lemma StepLog(link: Link, dryRun: bool, a: Agent, input: Input)
    ensures var after := Step(link, dryRun, a, input);
            var post := PostFor(dryRun, Classify(a.seen, input), input);
            var n := a.counter + 1;
            if post.None? then
              after.log == a.log && after.counter == a.counter && after.sent == a.sent && after.errors == a.errors
            else
              && after.counter == n && after.log == a.log + [Sent(post.value, input.tick, n, link(n))]
              && after.sent == a.sent + (if link(n) then 1 else 0)
              && after.errors == a.errors + (if link(n) then 0 else 1)
  {
  }

  lemma LogSnoc(link: Link, log: seq<Sent>, posts: seq<Post>, s: Sent)
    requires LogOk(link, log, posts) && s.counter == |log| + 1 && s.ok == link(s.counter)
    ensures LogOk(link, log + [s], posts + [s.post])
  {
  }

  function Refusals(link: Link, n: nat): nat {
    if n == 0 then 0 else Refusals(link, n - 1) + if link(n) then 0 else 1
  }

  ghost predicate LogGood(link: Link, a: Agent, posts: seq<Post>) {
    && LogOk(link, a.log, posts) && a.counter == |a.log|
    && a.errors == Refusals(link, a.counter) && a.sent + a.errors == a.counter
  }

  lemma LogStep(link: Link, dryRun: bool, a: Agent, input: Input, posts: seq<Post>)
    requires LogGood(link, a, posts)
    ensures var post := PostFor(dryRun, Classify(a.seen, input), input);
            LogGood(link, Step(link, dryRun, a, input), posts + if post.Some? then [post.value] else [])
  {
    StepLog(link, dryRun, a, input);
    var post := PostFor(dryRun, Classify(a.seen, input), input);
    var n := a.counter + 1;
    if post.Some? {
      LogSnoc(link, a.log, posts, Sent(post.value, input.tick, n, link(n)));
    }
  }

  /** After any history the log holds exactly the posts the history calls for, in order, the
      k-th stamped with the k-th counter value; every one counts as sent or as an error. */
  lemma {:induction false} LogIsHistory(link: Link, dryRun: bool, inputs: seq<Input>)
    ensures LogGood(link, Run(link, dryRun, inputs), Posts(dryRun, inputs))
  {
    if inputs != [] {
      var init, last := inputs[..|inputs| - 1], inputs[|inputs| - 1];
      LogIsHistory(link, dryRun, init);
      RunJudges(link, dryRun, init, last);
      LogStep(link, dryRun, Run(link, dryRun, init), last, Posts(dryRun, init));
    }
  }

  lemma PostWanted(dryRun: bool, v: Verdict, input: Input)
    requires v.Order? <==> input.Told?
    ensures PostFor(dryRun, v, input).Some? <==> Bears(v, AnyOrder) || Bears(v, Request) || (dryRun && Bears(v, Offer))
  {
  }

  /** The volume of traffic: one envelope for each order and each state request received, and
      in a dry run one for each offer received. */
  lemma {:induction false} PostsAddUp(dryRun: bool, inputs: seq<Input>)
    ensures |Posts(dryRun, inputs)| ==
            Count(inputs, AnyOrder) + Count(inputs, Request) + if dryRun then Count(inputs, Offer) else 0
  {
    if inputs != [] {
      var init, last := inputs[..|inputs| - 1], inputs[|inputs| - 1];
      PostsAddUp(dryRun, init);
      PostWanted(dryRun, Judge(init, last), last);
    }
  }

  function IdOf(agent: string, s: Sent): string {
    EnvelopeId(agent, s.tick, s.counter)
  }

  /** Two envelopes of any two runs share an identifier exactly when agent, position in the run
      and tick agree. */
  lemma IdsAgreeExactly(a: string, b: string, link: Link, link': Link, dry: bool, dry': bool,
                        x: seq<Input>, y: seq<Input>, i: nat, j: nat)
    requires i < |Run(link, dry, x).log| && j < |Run(link', dry', y).log|
    ensures var s, t := Run(link, dry, x).log[i], Run(link', dry', y).log[j];
            IdOf(a, s) == IdOf(b, t) <==> a == b && i == j && s.tick == t.tick
  {
    LogIsHistory(link, dry, x);
    LogIsHistory(link', dry', y);
    var s, t := Run(link, dry, x).log[i], Run(link', dry', y).log[j];
    assert s.counter == i + 1 && t.counter == j + 1;
    if IdOf(a, s) == IdOf(b, t) {
      EnvelopeIdInjective(a, b, s.tick, t.tick, s.counter, t.counter);
    }
  }

  /** In one run no two envelopes share an identifier, and agents with different names never
      share one, over all their runs. */
  lemma IdsUnique(a: string, b: string, link: Link, link': Link, dry: bool, dry': bool,
                  x: seq<Input>, y: seq<Input>, i: nat, j: nat)
    requires i < |Run(link, dry, x).log| && j < |Run(link', dry', y).log|
    requires a != b || (link == link' && dry == dry' && x == y && i != j)
    ensures IdOf(a, Run(link, dry, x).log[i]) != IdOf(b, Run(link', dry', y).log[j])
  {
    IdsAgreeExactly(a, b, link, link', dry, dry', x, y, i, j);
  }

  /** An agent that starts again counts from one again: whatever two runs of one agent send
      first, at the same tick, carries the same identifier, so a peer that remembers the one
      suppresses the other. */
  lemma RestartCollides(a: string, link: Link, link': Link, dry: bool, dry': bool, p: string, q: string,
                        m: Message, m': Message, t: nat)
    ensures var first, again := Run(link, dry, [Told(p, m, t)]).log, Run(link', dry', [Told(q, m', t)]).log;
            && |first| == 1 && |again| == 1
            && first[0].post == Post(p, None, m) && again[0].post == Post(q, None, m')
            && IdOf(a, first[0]) == IdOf(a, again[0])
  {
    RunSnoc(link, dry, [], Told(p, m, t));
    RunSnoc(link', dry', [], Told(q, m', t));
    assert [] + [Told(p, m, t)] == [Told(p, m, t)] && [] + [Told(q, m', t)] == [Told(q, m', t)];
  }

  lemma SameIdRepeats(e: Envelope, e': Envelope, t: nat, t': nat)
    requires e.id == e'.id
    ensures Judge([Heard(Readable(SwarmProtocolV1, e), t)], Heard(Readable(SwarmProtocolV1, e'), t')) == Repeat
  {
    var before := [Heard(Readable(SwarmProtocolV1, e), t)];
    assert before[..0] == [] && Ids(before) == [e.id];
    DistinctAllAccepted(DEFAULT_WINDOW, [e.id]);
  }

  /** So a receiver that gets envelopes of one agent once each, in any order, suppresses none. */
  lemma OneSenderAllReceived(agent: string, link: Link, dry: bool, x: seq<Input>, inputs: seq<Input>, order: seq<nat>)
    requires Distinct(order) && |order| == |Ids(inputs)|
    requires forall i :: 0 <= i < |order| ==>
      order[i] < |Run(link, dry, x).log| && Ids(inputs)[i] == IdOf(agent, Run(link, dry, x).log[order[i]])
    ensures Count(inputs, AnyNews) == |Ids(inputs)|
  {
    var ids := Ids(inputs);
    forall i, j | 0 <= i < j < |ids| ensures ids[i] != ids[j] {
      if ids[i] == ids[j] {
        IdsUnique(agent, agent, link, link, dry, dry, x, x, order[i], order[j]);
      }
    }
    DistinctAllAccepted(DEFAULT_WINDOW, ids);
    ReceivedAreAccepted(inputs);
  }
}
