/** The compiler object, the finished plan, and what holds of every compiled plan. */
module MavlinkCompiler {
  import opened Basics
  import opened MissionIr
  import opened CommonPlan
  import opened PlanCompiler
  import CapabilityProfile

  class Compiler {
    const options: Options
    var prelude: seq<CommonCommand>
    var postlude: seq<CommonCommand>
    var items: seq<MissionItem>
    var unsupported: seq<Unsupported>
    var lastAnchor: Option<Coordinate>
    ghost var trace: Trace

    ghost predicate Valid()
      reads this
    {
      && prelude == Commands(trace, CommandPrelude) && postlude == Commands(trace, CommandPostlude)
      && items == Items(trace) && unsupported == Features(trace) && lastAnchor == Anchor(trace)
    }

    constructor (options: Options)
      ensures Valid() && trace == [] && this.options == options
    {
      this.options := options;
      prelude, postlude, items, unsupported, lastAnchor, trace := [], [], [], [], None, [];
    }

    method PushCommand(entry: Entry, name: CommandName, params: Params, phase: Phase)
      requires Valid() && (phase.CommandPrelude? || phase.CommandPostlude?)
      modifies this
      ensures Valid() && trace == old(trace) + [CommandEmission(entry, name, phase, params)]
    {
      var command := CommonCommand(entry.commandId, name, phase, params);
      Snoc(trace, OfCommand(command));
      if phase == CommandPrelude {
        prelude := prelude + [command];
      } else {
        postlude := postlude + [command];
      }
      trace := trace + [OfCommand(command)];
    }

    method PushLifecycle(entry: Entry, name: CommandName, params: Params)
      requires Valid()
      modifies this
      ensures Valid() && trace == old(trace) + [CommandEmission(entry, name, LifecyclePhase(old(trace)), params)]
    {
      var phase := if items == [] then CommandPrelude else CommandPostlude;
      PushCommand(entry, name, params, phase);
    }

    method PushUnsupported(entry: Entry, rule: UnsupportedRule)
      requires Valid()
      modifies this
      ensures Valid() && trace == old(trace) + [Refusal(entry, rule)]
    {
      var feature := Unsupported(rule, entry.commandId, KindName(entry.command));
      Snoc(trace, OfUnsupported(feature));
      unsupported := unsupported + [feature];
      trace := trace + [OfUnsupported(feature)];
    }

    /** Place one item, or report why not; a failure leaves everything as it was. */
    method PushItem(entry: Entry, name: CommandName, stop: Stop) returns (error: Option<Error>)
      requires Valid()
      modifies this
      ensures Valid() && Reports(EmitItem(old(trace), entry, name, stop), error, trace)
      ensures error.Some? ==> trace == old(trace)
    {
      if stop.at.None? {
        return Some(CoordinateFailure);
      }
      var n := |items|;
      if n > MAX_SEQ {
        return Some(TooManyMissionItems(n + 1));
      }
      var item := MissionItem(n, entry.commandId, name, GlobalRelativeAltInt, stop.at.value, stop.params,
                              n == 0, entry.sourceTaskId, entry.sourceRouteId);
      Snoc(trace, OfItem(item));
      lastAnchor := stop.at;
      items := items + [item];
      trace := trace + [OfItem(item)];
      error := None;
    }

    method PushItems(entry: Entry, name: CommandName, stops: seq<Stop>) returns (error: Option<Error>)
      requires Valid()
      modifies this
      ensures Valid() && Reports(EmitItems(old(trace), entry, name, stops), error, trace)
    {
      for k := 0 to |stops|
        invariant Valid() && EmitItems(old(trace), entry, name, stops[..k]) == Done(trace)
      {
        assert stops[..k + 1][..k] == stops[..k];
        error := PushItem(entry, name, stops[k]);
        if error.Some? {
          FailureSpreads(old(trace), entry, name, stops, k + 1);
          return;
        }
      }
      assert stops[..|stops|] == stops;
      error := None;
    }

    method CompileHold(entry: Entry, duration: real, rule: UnsupportedRule) returns (error: Option<Error>)
      requires Valid()
      modifies this
      ensures Valid() && Reports(EmitHold(options, old(trace), entry, duration, rule), error, trace)
    {
      var params := [Some(duration), Some(0.0), Some(0.0), Some(0.0)];
      if lastAnchor.Some? {
        error := PushItem(entry, NavLoiterTime, Stop(lastAnchor, params));
      } else if options.defaultHold.Some? {
        error := PushItem(entry, NavLoiterTime, Stop(options.geodesy.convert(options.defaultHold.value), params));
      } else {
        PushUnsupported(entry, rule);
        error := None;
      }
    }

    method CompileOrbit(entry: Entry, center: Position, radius: real, turns: real, direction: Direction)
      returns (error: Option<Error>)
      requires Valid()
      modifies this
      ensures Valid() && Reports(EmitOrbit(options, old(trace), entry, center, radius, turns, direction), error, trace)
    {
      if options.orbit.OrbitUnsupported? {
        PushUnsupported(entry, OrbitRule);
        return None;
      }
      var segments := options.orbit.segmentsPerTurn;
      var count := OrbitCount(turns, segments);
      if count > MAX_SEQ {
        return Some(TooManyMissionItems(count));
      }
      error := PushItems(entry, NavWaypoint, OrbitStops(options.geodesy, center, radius, direction, segments, count));
    }

    method CompileDirect(entry: Entry)
      requires Valid() && IsDirect(entry.command)
      modifies this
      ensures Valid() && trace == old(trace) + [DirectEmission(old(trace), entry)]
    {
      match entry.command
      case Arm => PushCommand(entry, ComponentArmDisarm, ZEROS[0 := Some(1.0)], CommandPrelude);
      case Disarm => PushCommand(entry, ComponentArmDisarm, ZEROS, CommandPrelude);
      case Takeoff(altitude) => PushCommand(entry, NavTakeoff, ZEROS[3 := None][6 := Some(altitude)], CommandPrelude);
      case Land => PushLifecycle(entry, NavLand, ZEROS[3 := None]);
      case ReturnToLaunch => PushLifecycle(entry, NavReturnToLaunch, ZEROS);
      case Abort => PushLifecycle(entry, NavReturnToLaunch, ZEROS);
    }

    method CompileOther(entry: Entry) returns (error: Option<Error>)
      requires Valid() && !IsDirect(entry.command)
      modifies this
      ensures Valid() && Reports(EmitOther(options, old(trace), entry), error, trace)
    {
      error := None;
      match entry.command
      case Hold(duration) => error := CompileHold(entry, duration, HoldPositionRule);
      case LoiterTime(duration) => error := CompileHold(entry, duration, LoiterPositionRule);
      case GoTo(position) =>
        error := PushItem(entry, NavWaypoint, Stop(options.geodesy.convert(position), LEVEL));
      case FollowRoute(waypoints) => error := PushItems(entry, NavWaypoint, RouteStops(options.geodesy, waypoints));
      case Orbit(center, radius, turns, direction) => error := CompileOrbit(entry, center, radius, turns, direction);
      case Pause => PushUnsupported(entry, PauseRule);
      case Resume => PushUnsupported(entry, ResumeRule);
    }

    method Compile(entry: Entry) returns (error: Option<Error>)
      requires Valid()
      modifies this
      ensures Valid() && Reports(CompileEntry(options, old(trace), entry), error, trace)
    {
      if IsDirect(entry.command) {
        CompileDirect(entry);
        error := None;
      } else {
        error := CompileOther(entry);
      }
    }
  }

  /** The object reports what the specification says: the same error, or the same new trace. */
  predicate Reports(spec: Outcome<Trace>, error: Option<Error>, trace: Trace) {
    match spec
    case Refused(e) => error == Some(e)
    case Done(t) => error.None? && trace == t
  }

  lemma {:induction false} FailureSpreads(trace: Trace, entry: Entry, name: CommandName, stops: seq<Stop>, n: nat)
    requires n <= |stops| && EmitItems(trace, entry, name, stops[..n]).Refused?
    ensures EmitItems(trace, entry, name, stops) == EmitItems(trace, entry, name, stops[..n])
  {
    if n == |stops| {
      assert stops[..n] == stops;
    } else {
      assert stops[..|stops| - 1][..n] == stops[..n];
      FailureSpreads(trace, entry, name, stops[..|stops| - 1], n);
    }
  }

  lemma {:induction false} EntryFailureSpreads(o: Options, entries: seq<Entry>, n: nat)
    requires n <= |entries| && CompileEntries(o, entries[..n]).Refused?
    ensures CompileEntries(o, entries) == CompileEntries(o, entries[..n])
  {
    if n == |entries| {
      assert entries[..n] == entries;
    } else {
      assert entries[..|entries| - 1][..n] == entries[..n];
      EntryFailureSpreads(o, entries[..|entries| - 1], n);
    }
  }

  // ----- acknowledgements -----

  function CommandAckFor(c: CommonCommand, phase: Phase): ExpectedAck {
    ExpectedAck(phase, CommandAck, Some(c.commandId), Some(c.command), None)
  }

  function CommandAcks(commands: seq<CommonCommand>): (r: seq<ExpectedAck>)
    ensures |r| == |commands|
  {
    seq(|commands|, i requires 0 <= i < |commands| => CommandAckFor(commands[i], commands[i].phase))
  }

  function UploadAcks(items: seq<MissionItem>): seq<ExpectedAck> {
    if items == [] then [] else [ExpectedAck(MissionUpload, MissionAck, None, None, Some(items[|items| - 1].seqNo))]
  }

  function StartAcks(start: Option<CommonCommand>): seq<ExpectedAck> {
    if start.Some? then [CommandAckFor(start.value, StartPhase)] else []
  }

  function ExpectedAcks(prelude: seq<CommonCommand>, items: seq<MissionItem>, start: Option<CommonCommand>,
                        postlude: seq<CommonCommand>): seq<ExpectedAck> {
    CommandAcks(prelude) + UploadAcks(items) + StartAcks(start) + CommandAcks(postlude)
  }

  method AddCommandAcks(before: seq<ExpectedAck>, commands: seq<CommonCommand>) returns (acks: seq<ExpectedAck>)
    ensures acks == before + CommandAcks(commands)
  {
    acks := before;
    for k := 0 to |commands|
      invariant acks == before + CommandAcks(commands[..k])
    {
      assert CommandAcks(commands[..k + 1]) ==
             CommandAcks(commands[..k]) + [CommandAckFor(commands[k], commands[k].phase)];
      acks := acks + [CommandAckFor(commands[k], commands[k].phase)];
    }
    assert commands[..|commands|] == commands;
  }

  method BuildExpectedAcks(prelude: seq<CommonCommand>, items: seq<MissionItem>, start: Option<CommonCommand>,
                           postlude: seq<CommonCommand>) returns (acks: seq<ExpectedAck>)
    ensures acks == ExpectedAcks(prelude, items, start, postlude)
  {
    acks := AddCommandAcks([], prelude);
    if items != [] {
      acks := acks + [ExpectedAck(MissionUpload, MissionAck, None, None, Some(items[|items| - 1].seqNo))];
    }
    if start.Some? {
      acks := acks + [CommandAckFor(start.value, StartPhase)];
    }
    acks := AddCommandAcks(acks, postlude);
  }

  // ----- the finished plan -----

  const FENCE_ENABLE := CommonCommand("fence-enable-0", DoFenceEnable, CommandPrelude, ZEROS[0 := Some(1.0)])
  const START_COMMAND := CommonCommand("mission-start-0", MissionStart, StartPhase, ZEROS)

  function FencePrelude(o: Options): seq<CommonCommand> {
    if o.fence.Some? && o.fence.value.FenceCompiled? && o.fence.value.enable then [FENCE_ENABLE] else []
  }

  /** The plan without its compatibility report. */
  function Draft(o: Options, missionId: string, trace: Trace): Plan {
    var prelude, postlude := FencePrelude(o) + Commands(trace, CommandPrelude), Commands(trace, CommandPostlude);
    var items := Items(trace);
    var start := if items != [] then Some(START_COMMAND) else None;
    var geofence := if o.fence.Some? && o.fence.value.FenceCompiled? then Some(o.fence.value.items) else None;
    Plan(missionId, o.profile, prelude, geofence, o.contract, items, start, postlude,
         ExpectedAcks(prelude, items, start, postlude), Features(trace),
         Features(trace) == [], |Features(trace)|, None)
  }

  function Violations(contract: Option<ContractResult>): nat {
    if contract.Some? && contract.value.blocksMissionStart then contract.value.violations else 0
  }

  predicate Blocked(contract: Option<ContractResult>) {
    contract.Some? && contract.value.blocksMissionStart
  }

  /** The draft with its report and the verdict, given how many elements the profile refuses. */
  function Settled(draft: Plan, report: CompatibilityReport, refused: nat, contract: Option<ContractResult>): Plan {
    draft.(passed := draft.passed && refused == 0 && !Blocked(contract),
           unsupportedRequired := draft.unsupportedRequired + refused + Violations(contract),
           compatibility := Some(report))
  }

  /** The draft with its compatibility report and the final verdict. */
  function Judged(o: Options, draft: Plan): Plan {
    var report := CapabilityProfile.Report(draft, CapabilityProfile.ProfileFor(o.profile));
    Settled(draft, report, CapabilityProfile.CountNotSupported(report.rows), o.contract)
  }

  function Finished(o: Options, missionId: string, trace: Trace): Plan {
    Judged(o, Draft(o, missionId, trace))
  }

  /** `plan` is what compiling `source` gives. */
  ghost predicate CompiledFrom(plan: Plan, source: MissionPlan, o: Options) {
    && ValidPlan(source) && OptionsOk(o) && (o.fence.Some? ==> o.fence.value.FenceCompiled?)
    && CompileEntries(o, source.commands).Done?
    && plan == Finished(o, source.missionId, CompileEntries(o, source.commands).value)
  }

  method MakeDraft(c: Compiler, missionId: string) returns (r: Outcome<Plan>)
    requires c.Valid()
    ensures r.Refused? <==> c.options.fence == Some(FenceRefused)
    ensures r.Refused? ==> r.error == FenceCompilation
    ensures r.Done? ==> r.value == Draft(c.options, missionId, c.trace)
  {
    var o := c.options;
    var prelude, geofence := c.prelude, None;
    if o.fence.Some? {
      if o.fence.value.FenceRefused? {
        return Refused(FenceCompilation);
      }
      if o.fence.value.enable {
        prelude := [FENCE_ENABLE] + prelude;
      }
      geofence := Some(o.fence.value.items);
    }
    assert prelude == FencePrelude(o) + c.prelude;
    var start := if c.items != [] then Some(START_COMMAND) else None;
    var acks := BuildExpectedAcks(prelude, c.items, start, c.postlude);
    r := Done(Plan(missionId, o.profile, prelude, geofence, o.contract, c.items, start, c.postlude, acks,
                   c.unsupported, c.unsupported == [], |c.unsupported|, None));
  }

  method Settle(draft: Plan, report: CompatibilityReport, refused: nat, contract: Option<ContractResult>)
    returns (plan: Plan)
    ensures plan == Settled(draft, report, refused, contract)
  {
    plan := draft;
    if refused > 0 {
      plan := plan.(passed := false, unsupportedRequired := plan.unsupportedRequired + refused);
    }
    if contract.Some? && contract.value.blocksMissionStart {
      plan := plan.(passed := false, unsupportedRequired := plan.unsupportedRequired + contract.value.violations);
    }
    plan := plan.(compatibility := Some(report));
  }

  method Judge(o: Options, draft: Plan) returns (plan: Plan)
    ensures plan == Judged(o, draft)
  {
    var report := CapabilityProfile.Classify(draft, CapabilityProfile.ProfileFor(o.profile));
    plan := Settle(draft, report, CapabilityProfile.CountNotSupported(report.rows), o.contract);
  }

  /** The first thing that stands in the way. */
  ghost function RefusalOf(source: MissionPlan, o: Options): Error {
    if !ValidPlan(source) then IrValidation
    else if !OptionsOk(o) then InvalidOrbitSegments
    else
      match CompileEntries(o, source.commands)
      case Refused(error) => error
      case Done(_) => FenceCompilation
  }

  /** Compile a mission. It is refused exactly for an invalid mission or orbit option, a failed
      conversion, too many items or a refused fence. */
  method CompilePlan(source: MissionPlan, o: Options) returns (r: Outcome<Plan>)
    ensures r.Done? ==> CompiledFrom(r.value, source, o)
    ensures r.Done? <==> ValidPlan(source) && OptionsOk(o) && o.fence != Some(FenceRefused)
                         && CompileEntries(o, source.commands).Done?
    ensures r.Refused? ==> r.error == RefusalOf(source, o)
  {
    var ok := Validate(source);
    if !ok {
      return Refused(IrValidation);
    }
    if !OptionsOk(o) {
      return Refused(InvalidOrbitSegments);
    }
    var compiler := new Compiler(o);
    for k := 0 to |source.commands|
      invariant compiler.Valid() && compiler.options == o
      invariant fresh(compiler) && CompileEntries(o, source.commands[..k]) == Done(compiler.trace)
    {
      assert source.commands[..k + 1][..k] == source.commands[..k];
      var error := compiler.Compile(source.commands[k]);
      if error.Some? {
        EntryFailureSpreads(o, source.commands, k + 1);
        return Refused(error.value);
      }
    }
    assert source.commands[..|source.commands|] == source.commands;
    r := MakeDraft(compiler, source.missionId);
    if r.Done? {
      var plan := Judge(o, r.value);
      r := Done(plan);
    }
  }

  // ----- what holds of every compiled plan -----

  /** Item numbers count up from zero in one frame; only the first item is current. */
  predicate ItemsNumbered(items: seq<MissionItem>) {
    && |items| <= MAX_SEQ + 1
    && forall i :: 0 <= i < |items| ==>
         items[i].seqNo == i && items[i].current == (i == 0) && items[i].frame == GlobalRelativeAltInt
  }

  lemma EmitItemNumbered(trace: Trace, entry: Entry, name: CommandName, stop: Stop)
    requires ItemsNumbered(Items(trace)) && EmitItem(trace, entry, name, stop).Done?
    ensures ItemsNumbered(Items(EmitItem(trace, entry, name, stop).value))
  {
    Snoc(trace, ItemEmission(trace, entry, name, stop.at.value, stop.params));
  }

  lemma {:induction false} EmitItemsNumbered(trace: Trace, entry: Entry, name: CommandName, stops: seq<Stop>)
    requires ItemsNumbered(Items(trace)) && EmitItems(trace, entry, name, stops).Done?
    ensures ItemsNumbered(Items(EmitItems(trace, entry, name, stops).value))
  {
    if stops != [] {
      var init := stops[..|stops| - 1];
      EmitItemsNumbered(trace, entry, name, init);
      EmitItemNumbered(EmitItems(trace, entry, name, init).value, entry, name, stops[|stops| - 1]);
    }
  }

  lemma NotAnItem(trace: Trace, e: Emission)
    requires !e.OfItem?
    ensures Items(trace + [e]) == Items(trace)
  {
    Snoc(trace, e);
  }

  lemma EntryNumbered(o: Options, trace: Trace, entry: Entry)
    requires ItemsNumbered(Items(trace)) && CompileEntry(o, trace, entry).Done?
    ensures ItemsNumbered(Items(CompileEntry(o, trace, entry).value))
  {
    var t := CompileEntry(o, trace, entry).value;
    match entry.command
    case GoTo(position) =>
      EmitItemNumbered(trace, entry, NavWaypoint, Stop(o.geodesy.convert(position), LEVEL));
    case FollowRoute(waypoints) => EmitItemsNumbered(trace, entry, NavWaypoint, RouteStops(o.geodesy, waypoints));
    case Hold(duration) => HoldNumbered(o, trace, entry, duration, HoldPositionRule);
    case LoiterTime(duration) => HoldNumbered(o, trace, entry, duration, LoiterPositionRule);
    case Orbit(center, radius, turns, direction) =>
      if o.orbit.WaypointApproximation? {
        var segments := o.orbit.segmentsPerTurn;
        EmitItemsNumbered(trace, entry, NavWaypoint,
                          OrbitStops(o.geodesy, center, radius, direction, segments, OrbitCount(turns, segments)));
      } else {
        NotAnItem(trace, Refusal(entry, OrbitRule));
      }
    case _ => NotAnItem(trace, t[|t| - 1]);
  }

  lemma HoldNumbered(o: Options, trace: Trace, entry: Entry, duration: real, rule: UnsupportedRule)
    requires ItemsNumbered(Items(trace)) && EmitHold(o, trace, entry, duration, rule).Done?
    ensures ItemsNumbered(Items(EmitHold(o, trace, entry, duration, rule).value))
  {
    var params := [Some(duration), Some(0.0), Some(0.0), Some(0.0)];
    if Anchor(trace).Some? {
      EmitItemNumbered(trace, entry, NavLoiterTime, Stop(Anchor(trace), params));
    } else if o.defaultHold.Some? {
      EmitItemNumbered(trace, entry, NavLoiterTime, Stop(o.geodesy.convert(o.defaultHold.value), params));
    } else {
      NotAnItem(trace, Refusal(entry, rule));
    }
  }

  lemma {:induction false} CompiledItemsNumbered(o: Options, entries: seq<Entry>)
    requires CompileEntries(o, entries).Done?
    ensures ItemsNumbered(Items(CompileEntries(o, entries).value))
  {
    if entries != [] {
      var init := entries[..|entries| - 1];
      CompiledItemsNumbered(o, init);
      EntryNumbered(o, CompileEntries(o, init).value, entries[|entries| - 1]);
    }
  }

  /** The expected acknowledgements belong to the very phases of the plan. */
  lemma CompiledAcks(plan: Plan, source: MissionPlan, o: Options)
    requires CompiledFrom(plan, source, o)
    ensures plan.expectedAcks == ExpectedAcks(plan.prelude, plan.items, plan.start, plan.postlude)
    ensures plan.start.Some? <==> plan.items != []
  {
  }

  /** A compiled plan passes validation exactly when every source command was supported and
      the flight-controller contract does not block: no profile refuses a command. */
  lemma PassedExactly(plan: Plan, source: MissionPlan, o: Options)
    requires CompiledFrom(plan, source, o)
    ensures plan.passed <==> plan.unsupported == [] && !Blocked(o.contract)
  {
    var trace := CompileEntries(o, source.commands).value;
    CompiledItemsNumbered(o, source.commands);
    CapabilityProfile.ProfileVerdicts(Draft(o, source.missionId, trace), o.profile);
  }
}
