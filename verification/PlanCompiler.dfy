/** From mission commands to prelude, mission items and postlude. */
module PlanCompiler {
  import opened Basics
  import opened MissionIr
  import opened CommonPlan
  import CapabilityProfile

  datatype OrbitStrategy = OrbitUnsupported | WaypointApproximation(segmentsPerTurn: nat)

  /** What compiling the fence plan gave; the fence compiler itself is not part of this model. */
  datatype FenceOutcome = FenceRefused | FenceCompiled(items: seq<MissionItem>, enable: bool)

  /** Coordinate conversion may fail; trigonometry and scaling are not part of this model. */
  datatype Geodesy = Geodesy(convert: Position -> Option<Coordinate>,
                             orbitPoint: (Position, real, Direction, nat, nat) -> Option<Coordinate>)

  datatype Options = Options(profile: ProfileId, defaultHold: Option<Position>, orbit: OrbitStrategy,
                             fence: Option<FenceOutcome>, contract: Option<ContractResult>, geodesy: Geodesy)

  datatype Error =
    | IrValidation
    | InvalidOrbitSegments
    | CoordinateFailure
    | TooManyMissionItems(count: nat)
    | FenceCompilation

  datatype Outcome<T> = Done(value: T) | Refused(error: Error)

  const MAX_SEQ := 65535

  // ----- what a command turns into -----

  /** One thing the compiler puts out for a source command. */
  datatype Emission =
    | OfCommand(command: CommonCommand)
    | OfItem(item: MissionItem)
    | OfUnsupported(feature: Unsupported)

  function SourceId(e: Emission): string {
    match e
    case OfCommand(c) => c.commandId
    case OfItem(i) => i.commandId
    case OfUnsupported(f) => f.commandId
  }

  type Trace = seq<Emission>

  function Commands(trace: Trace, phase: Phase): seq<CommonCommand> {
    if trace == [] then []
    else
      var rest, e := Commands(trace[..|trace| - 1], phase), trace[|trace| - 1];
      if e.OfCommand? && e.command.phase == phase then rest + [e.command] else rest
  }

  function Items(trace: Trace): seq<MissionItem> {
    if trace == [] then []
    else
      var rest, e := Items(trace[..|trace| - 1]), trace[|trace| - 1];
      if e.OfItem? then rest + [e.item] else rest
  }

  function Features(trace: Trace): seq<Unsupported> {
    if trace == [] then []
    else
      var rest, e := Features(trace[..|trace| - 1]), trace[|trace| - 1];
      if e.OfUnsupported? then rest + [e.feature] else rest
  }

  /** The coordinate of the last mission item. */
  function Anchor(trace: Trace): Option<Coordinate> {
    var items := Items(trace);
    if items == [] then None else Some(items[|items| - 1].coordinate)
  }

  lemma Snoc(trace: Trace, e: Emission)
    ensures Items(trace + [e]) == Items(trace) + if e.OfItem? then [e.item] else []
    ensures Features(trace + [e]) == Features(trace) + if e.OfUnsupported? then [e.feature] else []
    ensures forall phase :: Commands(trace + [e], phase) ==
              Commands(trace, phase) + if e.OfCommand? && e.command.phase == phase then [e.command] else []
  {
    assert (trace + [e])[..|trace|] == trace;
  }

  const ZEROS: Params := [Some(0.0), Some(0.0), Some(0.0), Some(0.0), Some(0.0), Some(0.0), Some(0.0)]

  function KindName(c: Command): string {
    match c
    case Arm => "arm"
    case Disarm => "disarm"
    case Takeoff(_) => "takeoff"
    case Hold(_) => "hold"
    case Land => "land"
    case ReturnToLaunch => "return_to_launch"
    case GoTo(_) => "go_to"
    case FollowRoute(_) => "follow_route"
    case LoiterTime(_) => "loiter_time"
    case Orbit(_, _, _, _) => "orbit"
    case Pause => "pause"
    case Resume => "resume"
    case Abort => "abort"
  }

  function Refusal(entry: Entry, rule: UnsupportedRule): Emission {
    OfUnsupported(Unsupported(rule, entry.commandId, KindName(entry.command)))
  }

  function CommandEmission(entry: Entry, name: CommandName, phase: Phase, params: Params): Emission {
    OfCommand(CommonCommand(entry.commandId, name, phase, params))
  }

  function ItemEmission(trace: Trace, entry: Entry, name: CommandName, at: Coordinate, params: Params): Emission {
    var n := |Items(trace)|;
    OfItem(MissionItem(n, entry.commandId, name, GlobalRelativeAltInt, at, params, n == 0,
                       entry.sourceTaskId, entry.sourceRouteId))
  }

  /** A mission item still to be placed: where, if the conversion succeeds, and its parameters. */
  datatype Stop = Stop(at: Option<Coordinate>, params: Params)

  function EmitItem(trace: Trace, entry: Entry, name: CommandName, stop: Stop): Outcome<Trace> {
    if stop.at.None? then Refused(CoordinateFailure)
    else if |Items(trace)| > MAX_SEQ then Refused(TooManyMissionItems(|Items(trace)| + 1))
    else Done(trace + [ItemEmission(trace, entry, name, stop.at.value, stop.params)])
  }

  function EmitItems(trace: Trace, entry: Entry, name: CommandName, stops: seq<Stop>): Outcome<Trace> {
    if stops == [] then Done(trace)
    else
      match EmitItems(trace, entry, name, stops[..|stops| - 1])
      case Refused(error) => Refused(error)
      case Done(t) => EmitItem(t, entry, name, stops[|stops| - 1])
  }

  function RouteStops(g: Geodesy, waypoints: seq<Waypoint>): seq<Stop> {
    seq(|waypoints|, i requires 0 <= i < |waypoints| =>
      Stop(g.convert(waypoints[i].position), [Some(0.0), waypoints[i].acceptanceRadius, Some(0.0), None]))
  }

  function Ceil(r: real): int {
    -((-r).Floor)
  }

  function OrbitCount(turns: real, segments: nat): nat {
    var c := Ceil(turns * segments as real);
    if c < 0 then 0 else c
  }

  function OrbitStops(g: Geodesy, center: Position, radius: real, direction: Direction, segments: nat,
                      count: nat): seq<Stop>
  {
    seq(count, i requires 0 <= i < count =>
      Stop(g.orbitPoint(center, radius, direction, segments, i), LEVEL))
  }

  function LifecyclePhase(trace: Trace): Phase {
    if Items(trace) == [] then CommandPrelude else CommandPostlude
  }

  function EmitHold(o: Options, trace: Trace, entry: Entry, duration: real, rule: UnsupportedRule): Outcome<Trace> {
    var params := [Some(duration), Some(0.0), Some(0.0), Some(0.0)];
    if Anchor(trace).Some? then EmitItem(trace, entry, NavLoiterTime, Stop(Anchor(trace), params))
    else if o.defaultHold.Some?
    then EmitItem(trace, entry, NavLoiterTime, Stop(o.geodesy.convert(o.defaultHold.value), params))
    else Done(trace + [Refusal(entry, rule)])
  }

  function EmitOrbit(o: Options, trace: Trace, entry: Entry, center: Position, radius: real, turns: real,
                     direction: Direction): Outcome<Trace>
  {
    match o.orbit
    case OrbitUnsupported => Done(trace + [Refusal(entry, OrbitRule)])
    case WaypointApproximation(segments) =>
      var count := OrbitCount(turns, segments);
      if count > MAX_SEQ then Refused(TooManyMissionItems(count))
      else EmitItems(trace, entry, NavWaypoint, OrbitStops(o.geodesy, center, radius, direction, segments, count))
  }

  predicate IsEarly(c: Command) {
    c.Arm? || c.Disarm? || c.Takeoff?
  }

  predicate IsLifecycle(c: Command) {
    c.Land? || c.ReturnToLaunch? || c.Abort?
  }

  /** Commands that become one MAVLink command. */
  predicate IsDirect(c: Command) {
    IsEarly(c) || IsLifecycle(c)
  }

  /** The MAVLink command of such a command. */
  function DirectEmission(trace: Trace, entry: Entry): Emission
    requires IsDirect(entry.command)
  {
    match entry.command
    case Arm => CommandEmission(entry, ComponentArmDisarm, CommandPrelude, ZEROS[0 := Some(1.0)])
    case Disarm => CommandEmission(entry, ComponentArmDisarm, CommandPrelude, ZEROS)
    case Takeoff(altitude) =>
      CommandEmission(entry, NavTakeoff, CommandPrelude, ZEROS[3 := None][6 := Some(altitude)])
    case Land => CommandEmission(entry, NavLand, LifecyclePhase(trace), ZEROS[3 := None])
    case ReturnToLaunch => CommandEmission(entry, NavReturnToLaunch, LifecyclePhase(trace), ZEROS)
    case Abort => CommandEmission(entry, NavReturnToLaunch, LifecyclePhase(trace), ZEROS)
  }

  const LEVEL: Params := [Some(0.0), Some(0.0), Some(0.0), None]

  /** All other commands: they become items, or are recorded as unsupported. */
  function EmitOther(o: Options, trace: Trace, entry: Entry): Outcome<Trace>
    requires !IsDirect(entry.command)
  {
    match entry.command
    case Hold(duration) => EmitHold(o, trace, entry, duration, HoldPositionRule)
    case LoiterTime(duration) => EmitHold(o, trace, entry, duration, LoiterPositionRule)
    case GoTo(position) => EmitItem(trace, entry, NavWaypoint, Stop(o.geodesy.convert(position), LEVEL))
    case FollowRoute(waypoints) => EmitItems(trace, entry, NavWaypoint, RouteStops(o.geodesy, waypoints))
    case Orbit(center, radius, turns, direction) => EmitOrbit(o, trace, entry, center, radius, turns, direction)
    case Pause => Done(trace + [Refusal(entry, PauseRule)])
    case Resume => Done(trace + [Refusal(entry, ResumeRule)])
  }

  /** The trace after compiling one more source command. */
  function CompileEntry(o: Options, trace: Trace, entry: Entry): Outcome<Trace> {
    if IsDirect(entry.command) then Done(trace + [DirectEmission(trace, entry)]) else EmitOther(o, trace, entry)
  }

  function CompileEntries(o: Options, entries: seq<Entry>): Outcome<Trace> {
    if entries == [] then Done([])
    else
      match CompileEntries(o, entries[..|entries| - 1])
      case Refused(error) => Refused(error)
      case Done(t) => CompileEntry(o, t, entries[|entries| - 1])
  }

  // ----- accounting -----

  /** The share of one source command: one command, or one record of an unsupported feature,
      or one or more mission items, all carrying its id. */
  predicate ShareOf(group: Trace, entry: Entry) {
    && |group| >= 1
    && (forall i :: 0 <= i < |group| ==> SourceId(group[i]) == entry.commandId)
    && (|group| == 1 || forall i :: 0 <= i < |group| ==> group[i].OfItem?)
  }

  lemma {:induction false} ItemsShare(trace: Trace, entry: Entry, name: CommandName, stops: seq<Stop>)
    requires EmitItems(trace, entry, name, stops).Done?
    ensures var t := EmitItems(trace, entry, name, stops).value;
            && |t| == |trace| + |stops| && trace <= t
            && forall i :: |trace| <= i < |t| ==> t[i].OfItem? && SourceId(t[i]) == entry.commandId
  {
    if stops != [] {
      ItemsShare(trace, entry, name, stops[..|stops| - 1]);
    }
  }

  lemma OrbitCountPositive(turns: real, segments: nat)
    requires turns > 0.0 && segments > 0
    ensures OrbitCount(turns, segments) >= 1
  {
    var x := turns * segments as real;
    assert x > 0.0;
    assert (-x).Floor < 0;
  }

  predicate OptionsOk(o: Options) {
    o.orbit.WaypointApproximation? ==> o.orbit.segmentsPerTurn > 0
  }

  lemma OrbitShare(o: Options, trace: Trace, entry: Entry, center: Position, radius: real, turns: real,
                   direction: Direction)
    requires OptionsOk(o) && turns > 0.0 && EmitOrbit(o, trace, entry, center, radius, turns, direction).Done?
    ensures var t := EmitOrbit(o, trace, entry, center, radius, turns, direction).value;
            trace <= t && ShareOf(t[|trace|..], entry)
  {
    if o.orbit.WaypointApproximation? {
      var segments := o.orbit.segmentsPerTurn;
      OrbitCountPositive(turns, segments);
      ItemsShare(trace, entry, NavWaypoint,
                 OrbitStops(o.geodesy, center, radius, direction, segments, OrbitCount(turns, segments)));
    }
  }

  lemma EntryShare(o: Options, trace: Trace, entry: Entry, frame: CoordinateFrame)
    requires OptionsOk(o) && CommandOk(entry.command, frame) && CompileEntry(o, trace, entry).Done?
    ensures trace <= CompileEntry(o, trace, entry).value
    ensures ShareOf(CompileEntry(o, trace, entry).value[|trace|..], entry)
  {
    match entry.command
    case FollowRoute(waypoints) => ItemsShare(trace, entry, NavWaypoint, RouteStops(o.geodesy, waypoints));
    case Orbit(center, radius, turns, direction) => OrbitShare(o, trace, entry, center, radius, turns, direction);
    case _ =>
  }

  function Flatten(groups: seq<Trace>): Trace {
    if groups == [] then [] else Flatten(groups[..|groups| - 1]) + groups[|groups| - 1]
  }

  ghost predicate Accounts(groups: seq<Trace>, entries: seq<Entry>, trace: Trace) {
    && |groups| == |entries| && Flatten(groups) == trace
    && forall i :: 0 <= i < |entries| ==> ShareOf(groups[i], entries[i])
  }

  /** One step of the compilation appends the share of the next command, all of one rank. */
  lemma StepShare(o: Options, plan: MissionPlan, n: nat)
    requires OptionsOk(o) && CommandsOk(plan) && n < |plan.commands|
    requires CompileEntries(o, plan.commands[..n + 1]).Done?
    ensures CompileEntries(o, plan.commands[..n]).Done?
    ensures var before := CompileEntries(o, plan.commands[..n]).value;
            var after := CompileEntries(o, plan.commands[..n + 1]).value;
            && before <= after
            && var group := after[|before|..];
               && after == before + group && ShareOf(group, plan.commands[n])
               && forall i :: 0 <= i < |group| ==>
                    Rank(group[i]) == EntryRank(o, Items(before) != [], plan.commands[n].command)
  {
    var entries := plan.commands[..n + 1];
    assert entries[..n] == plan.commands[..n];
    var before, entry := CompileEntries(o, plan.commands[..n]).value, plan.commands[n];
    EntryShare(o, before, entry, plan.frame);
    EntryRanks(o, before, entry, plan.frame);
  }

  lemma AccountsSnoc(groups: seq<Trace>, entries: seq<Entry>, trace: Trace, group: Trace, entry: Entry)
    requires Accounts(groups, entries, trace) && ShareOf(group, entry)
    ensures Accounts(groups + [group], entries + [entry], trace + group)
  {
    assert (groups + [group])[..|groups|] == groups;
  }

  lemma AccountsStep(o: Options, plan: MissionPlan, n: nat, groups: seq<Trace>) returns (longer: seq<Trace>)
    requires OptionsOk(o) && CommandsOk(plan) && n < |plan.commands|
    requires CompileEntries(o, plan.commands[..n + 1]).Done? && CompileEntries(o, plan.commands[..n]).Done?
    requires Accounts(groups, plan.commands[..n], CompileEntries(o, plan.commands[..n]).value)
    ensures Accounts(longer, plan.commands[..n + 1], CompileEntries(o, plan.commands[..n + 1]).value)
  {
    assert plan.commands[..n + 1] == plan.commands[..n] + [plan.commands[n]];
    StepShare(o, plan, n);
    var before, after := CompileEntries(o, plan.commands[..n]).value, CompileEntries(o, plan.commands[..n + 1]).value;
    AccountsSnoc(groups, plan.commands[..n], before, after[|before|..], plan.commands[n]);
    longer := groups + [after[|before|..]];
  }

  /** Compilation accounts for every source command, in source order: the trace is the
      concatenation of one share per command. */
  lemma {:induction false} CompilationAccounts(o: Options, plan: MissionPlan, n: nat) returns (groups: seq<Trace>)
    requires OptionsOk(o) && CommandsOk(plan) && n <= |plan.commands|
    requires CompileEntries(o, plan.commands[..n]).Done?
    ensures Accounts(groups, plan.commands[..n], CompileEntries(o, plan.commands[..n]).value)
  {
    if n == 0 {
      groups := [];
    } else {
      StepShare(o, plan, n - 1);
      groups := CompilationAccounts(o, plan, n - 1);
      groups := AccountsStep(o, plan, n - 1, groups);
    }
  }

  function WithId(trace: Trace, id: string): Trace {
    if trace == [] then []
    else
      var rest, e := WithId(trace[..|trace| - 1], id), trace[|trace| - 1];
      if SourceId(e) == id then rest + [e] else rest
  }

  lemma {:induction false} WithIdAppend(a: Trace, b: Trace, id: string)
    ensures WithId(a + b, id) == WithId(a, id) + WithId(b, id)
  {
    if b == [] {
      assert a + b == a;
    } else {
      WithIdAppend(a, b[..|b| - 1], id);
      assert (a + b)[..|a + b| - 1] == a + b[..|b| - 1];
    }
  }

  lemma {:induction false} WithIdUniform(group: Trace, id: string, own: string)
    requires forall i :: 0 <= i < |group| ==> SourceId(group[i]) == own
    ensures WithId(group, id) == if id == own then group else []
  {
    if group != [] {
      WithIdUniform(group[..|group| - 1], id, own);
    }
  }

  /** With distinct ids, everything that carries the id of a command is its share: nothing is
      dropped, doubled or attributed to another command. */
  lemma {:induction false} SharesById(groups: seq<Trace>, entries: seq<Entry>, trace: Trace, i: nat)
    requires Accounts(groups, entries, trace) && DistinctIds(entries) && i < |entries|
    ensures WithId(trace, entries[i].commandId) == groups[i]
  {
    var n := |entries| - 1;
    AccountsInit(groups, entries, trace);
    if i < n {
      SharesById(groups[..n], entries[..n], Flatten(groups[..n]), i);
      LastShare(groups, entries, trace, entries[i].commandId);
    } else {
      ForeignId(groups[..n], entries[..n], Flatten(groups[..n]), entries[n].commandId);
      LastShare(groups, entries, trace, entries[n].commandId);
    }
  }

  lemma LastShare(groups: seq<Trace>, entries: seq<Entry>, trace: Trace, id: string)
    requires Accounts(groups, entries, trace) && entries != []
    ensures var n := |entries| - 1;
            WithId(trace, id) == WithId(Flatten(groups[..n]), id) + if id == entries[n].commandId then groups[n] else []
  {
    var n := |entries| - 1;
    WithIdAppend(Flatten(groups[..n]), groups[n], id);
    WithIdUniform(groups[n], id, entries[n].commandId);
  }

  lemma AccountsInit(groups: seq<Trace>, entries: seq<Entry>, trace: Trace)
    requires Accounts(groups, entries, trace) && entries != []
    ensures var n := |entries| - 1;
            Accounts(groups[..n], entries[..n], Flatten(groups[..n])) && trace == Flatten(groups[..n]) + groups[n]
  {
  }

  lemma {:induction false} ForeignId(groups: seq<Trace>, entries: seq<Entry>, trace: Trace, id: string)
    requires Accounts(groups, entries, trace) && forall i :: 0 <= i < |entries| ==> entries[i].commandId != id
    ensures WithId(trace, id) == []
  {
    if entries != [] {
      var n := |entries| - 1;
      AccountsInit(groups, entries, trace);
      ForeignId(groups[..n], entries[..n], Flatten(groups[..n]), id);
      LastShare(groups, entries, trace, id);
    }
  }

  // ----- order -----

  /** Place of an emission in the flown order; unsupported features have none. */
  function Rank(e: Emission): int {
    match e
    case OfCommand(c) => if c.phase.CommandPrelude? then 0 else 2
    case OfItem(_) => 1
    case OfUnsupported(_) => -1
  }

  /** The emissions of one rank, in trace order. */
  function OfRank(trace: Trace, r: int): Trace {
    if trace == [] then []
    else
      var rest, e := OfRank(trace[..|trace| - 1], r), trace[|trace| - 1];
      if Rank(e) == r then rest + [e] else rest
  }

  /** Everything that will be flown, in source order. */
  function Flown(trace: Trace): (r: Trace)
    ensures forall i :: 0 <= i < |r| ==> Rank(r[i]) >= 0
  {
    if trace == [] then []
    else
      var rest, e := Flown(trace[..|trace| - 1]), trace[|trace| - 1];
      if Rank(e) >= 0 then rest + [e] else rest
  }

  predicate RanksAscend(t: Trace) {
    forall i, j :: 0 <= i < j < |t| ==> Rank(t[i]) <= Rank(t[j])
  }

  predicate RanksAtMost(t: Trace, r: int) {
    forall i :: 0 <= i < |t| ==> Rank(t[i]) <= r
  }

  lemma {:induction false} OfRankFlown(trace: Trace, r: int)
    requires r >= 0
    ensures OfRank(trace, r) == OfRank(Flown(trace), r)
  {
    if trace != [] {
      OfRankFlown(trace[..|trace| - 1], r);
      var rest, e := Flown(trace[..|trace| - 1]), trace[|trace| - 1];
      assert (rest + [e])[..|rest|] == rest;
    }
  }

  lemma {:induction false} OfRankUniform(t: Trace, r: int)
    ensures forall i :: 0 <= i < |OfRank(t, r)| ==> Rank(OfRank(t, r)[i]) == r
    ensures RanksAtMost(t, r - 1) ==> OfRank(t, r) == []
  {
    if t != [] {
      OfRankUniform(t[..|t| - 1], r);
      assert forall i :: 0 <= i < |t| - 1 ==> t[..|t| - 1][i] == t[i];
    }
  }

  /** Prelude, items and postlude, one after the other. */
  function Phased(t: Trace): Trace {
    OfRank(t, 0) + OfRank(t, 1) + OfRank(t, 2)
  }

  lemma PhasedAscends(t: Trace)
    ensures RanksAscend(Phased(t))
  {
    OfRankUniform(t, 0);
    OfRankUniform(t, 1);
    OfRankUniform(t, 2);
  }

  lemma OfRankSnoc(t: Trace, e: Emission, r: int)
    ensures OfRank(t + [e], r) == OfRank(t, r) + if Rank(e) == r then [e] else []
  {
    assert (t + [e])[..|t|] == t;
  }

  lemma PhasedSnoc(t: Trace, e: Emission)
    requires 0 <= Rank(e) <= 2 && (Rank(e) < 1 ==> OfRank(t, 1) == []) && (Rank(e) < 2 ==> OfRank(t, 2) == [])
    ensures Phased(t + [e]) == Phased(t) + [e]
  {
    OfRankSnoc(t, e, 0);
    OfRankSnoc(t, e, 1);
    OfRankSnoc(t, e, 2);
  }

  lemma RanksBelow(t: Trace, e: Emission)
    requires RanksAscend(t + [e])
    ensures RanksAscend(t) && RanksAtMost(t, Rank(e))
  {
    var all := t + [e];
    assert all[|t|] == e && forall i :: 0 <= i < |t| ==> all[i] == t[i];
  }

  lemma {:induction false} AscendingIsPhased(t: Trace)
    requires RanksAscend(t) && forall i :: 0 <= i < |t| ==> 0 <= Rank(t[i]) <= 2
    ensures Phased(t) == t
  {
    if t != [] {
      var init, e := t[..|t| - 1], t[|t| - 1];
      assert t == init + [e];
      RanksBelow(init, e);
      AscendingIsPhased(init);
      OfRankUniform(init, 1);
      OfRankUniform(init, 2);
      PhasedSnoc(init, e);
    }
  }

  lemma RankBounds(e: Emission)
    ensures Rank(e) <= 2
  {
  }

  // ----- when the source order survives -----

  /** The command becomes mission items, given whether there are items already. */
  predicate MakesItems(o: Options, hasItems: bool, c: Command) {
    match c
    case GoTo(_) => true
    case FollowRoute(_) => true
    case Hold(_) => hasItems || o.defaultHold.Some?
    case LoiterTime(_) => hasItems || o.defaultHold.Some?
    case Orbit(_, _, _, _) => o.orbit.WaypointApproximation?
    case _ => false
  }

  predicate HasItems(o: Options, entries: seq<Entry>) {
    entries != [] &&
    var init, c := entries[..|entries| - 1], entries[|entries| - 1].command;
    HasItems(o, init) || MakesItems(o, HasItems(o, init), c)
  }

  /** Some land, return or abort comes after an item. */
  predicate HasPostlude(o: Options, entries: seq<Entry>) {
    entries != [] &&
    var init, c := entries[..|entries| - 1], entries[|entries| - 1].command;
    HasPostlude(o, init) || (IsLifecycle(c) && HasItems(o, init))
  }

  /** No arm, disarm or takeoff follows an item, and no item follows a land, return or abort
      that itself follows an item. */
  predicate Staged(o: Options, entries: seq<Entry>) {
    entries == [] ||
    (var init, c := entries[..|entries| - 1], entries[|entries| - 1].command;
     && Staged(o, init)
     && (IsEarly(c) ==> !HasItems(o, init))
     && (MakesItems(o, HasItems(o, init), c) ==> !HasPostlude(o, init)))
  }

  /** Rank of everything a command puts out, or -1 when it is unsupported. */
  function EntryRank(o: Options, hasItems: bool, c: Command): int {
    if IsEarly(c) then 0
    else if IsLifecycle(c) then (if hasItems then 2 else 0)
    else if MakesItems(o, hasItems, c) then 1
    else -1
  }

  lemma {:induction false} EntryRanks(o: Options, trace: Trace, entry: Entry, frame: CoordinateFrame)
    requires OptionsOk(o) && CommandOk(entry.command, frame) && CompileEntry(o, trace, entry).Done?
    ensures var t := CompileEntry(o, trace, entry).value;
            forall i :: |trace| <= i < |t| ==> Rank(t[i]) == EntryRank(o, Items(trace) != [], entry.command)
  {
    match entry.command
    case FollowRoute(waypoints) => ItemsShare(trace, entry, NavWaypoint, RouteStops(o.geodesy, waypoints));
    case Orbit(center, radius, turns, direction) =>
      if o.orbit.WaypointApproximation? {
        var segments := o.orbit.segmentsPerTurn;
        ItemsShare(trace, entry, NavWaypoint,
                   OrbitStops(o.geodesy, center, radius, direction, segments, OrbitCount(turns, segments)));
      }
    case _ =>
  }

  lemma {:induction false} FlownAppend(a: Trace, b: Trace, r: int)
    requires forall i :: 0 <= i < |b| ==> Rank(b[i]) == r
    ensures Flown(a + b) == Flown(a) + if r >= 0 then b else []
  {
    if b == [] {
      assert a + b == a;
    } else {
      FlownAppend(a, b[..|b| - 1], r);
      assert (a + b)[..|a + b| - 1] == a + b[..|b| - 1];
    }
  }

  lemma AscendAppend(a: Trace, b: Trace, r: int)
    requires b != [] && forall i :: 0 <= i < |b| ==> Rank(b[i]) == r
    ensures RanksAscend(a + b) <==> RanksAscend(a) && RanksAtMost(a, r)
  {
    var t := a + b;
    if RanksAscend(t) {
      forall i | 0 <= i < |a| ensures Rank(a[i]) <= r {
        assert Rank(t[i]) <= Rank(t[|a|]);
      }
      forall i, j | 0 <= i < j < |a| ensures Rank(a[i]) <= Rank(a[j]) {
        assert Rank(t[i]) <= Rank(t[j]);
      }
    }
  }

  /** Which ranks occur is decided by the source. */
  ghost predicate RanksKnown(o: Options, entries: seq<Entry>, trace: Trace) {
    && (Items(trace) != [] <==> HasItems(o, entries))
    && (RanksAtMost(Flown(trace), 1) <==> !HasPostlude(o, entries))
    && (RanksAtMost(Flown(trace), 0) <==> !HasItems(o, entries))
  }

  lemma {:induction false} ItemsAppend(a: Trace, b: Trace)
    requires forall i :: 0 <= i < |b| ==> b[i].OfItem? == (Rank(b[i]) == 1)
    ensures Items(a + b) != [] <==> Items(a) != [] || exists i :: 0 <= i < |b| && Rank(b[i]) == 1
  {
    if b == [] {
      assert a + b == a;
    } else {
      var init := b[..|b| - 1];
      ItemsAppend(a, init);
      assert (a + b)[..|a + b| - 1] == a + init;
      assert forall i :: 0 <= i < |init| ==> b[i] == init[i];
    }
  }

  lemma AtMostAppend(a: Trace, b: Trace, r: int, bound: int)
    requires b != [] && forall i :: 0 <= i < |b| ==> Rank(b[i]) == r
    ensures RanksAtMost(a + b, bound) <==> RanksAtMost(a, bound) && r <= bound
  {
    var t := a + b;
    assert forall i :: 0 <= i < |a| ==> t[i] == a[i];
    assert t[|a|] == b[0];
  }

  lemma SourceStep(o: Options, entries: seq<Entry>, r: int)
    requires entries != []
    requires r == EntryRank(o, HasItems(o, entries[..|entries| - 1]), entries[|entries| - 1].command)
    ensures HasItems(o, entries) <==> HasItems(o, entries[..|entries| - 1]) || r == 1
    ensures HasPostlude(o, entries) <==> HasPostlude(o, entries[..|entries| - 1]) || r == 2
    ensures r == 2 ==> HasItems(o, entries[..|entries| - 1])
  {
  }

  lemma FlownStep(before: Trace, group: Trace, r: int, bound: int)
    requires group != [] && bound >= 0 && forall i :: 0 <= i < |group| ==> Rank(group[i]) == r
    ensures RanksAtMost(Flown(before + group), bound) <==> RanksAtMost(Flown(before), bound) && r <= bound
  {
    FlownAppend(before, group, r);
    if r >= 0 {
      AtMostAppend(Flown(before), group, r, bound);
    } else {
      assert Flown(before + group) == Flown(before);
    }
  }

  lemma RanksStep(o: Options, entries: seq<Entry>, before: Trace, group: Trace, r: int)
    requires entries != [] && RanksKnown(o, entries[..|entries| - 1], before) && group != []
    requires r == EntryRank(o, Items(before) != [], entries[|entries| - 1].command)
    requires forall i :: 0 <= i < |group| ==> Rank(group[i]) == r
    ensures RanksKnown(o, entries, before + group)
  {
    SourceStep(o, entries, r);
    FlownStep(before, group, r, 0);
    FlownStep(before, group, r, 1);
    ItemsAppend(before, group);
    assert Rank(group[0]) == r;
  }

  /** The flown part of a compiled plan is in ascending rank exactly when the source is
      staged. */
  lemma {:induction false} StagedExactly(o: Options, plan: MissionPlan, n: nat)
    requires OptionsOk(o) && CommandsOk(plan) && n <= |plan.commands|
    requires CompileEntries(o, plan.commands[..n]).Done?
    ensures RanksKnown(o, plan.commands[..n], CompileEntries(o, plan.commands[..n]).value)
    ensures RanksAscend(Flown(CompileEntries(o, plan.commands[..n]).value)) <==> Staged(o, plan.commands[..n])
  {
    if n > 0 {
      StepShare(o, plan, n - 1);
      StagedExactly(o, plan, n - 1);
      var before, after := CompileEntries(o, plan.commands[..n - 1]).value, CompileEntries(o, plan.commands[..n]).value;
      assert plan.commands[..n][..n - 1] == plan.commands[..n - 1];
      StagedSnoc(o, plan.commands[..n], before, after[|before|..]);
    }
  }

  lemma StagedSnoc(o: Options, entries: seq<Entry>, before: Trace, group: Trace)
    requires entries != [] && group != [] && RanksKnown(o, entries[..|entries| - 1], before)
    requires forall i :: 0 <= i < |group| ==>
               Rank(group[i]) == EntryRank(o, Items(before) != [], entries[|entries| - 1].command)
    requires RanksAscend(Flown(before)) <==> Staged(o, entries[..|entries| - 1])
    ensures RanksKnown(o, entries, before + group)
    ensures RanksAscend(Flown(before + group)) <==> Staged(o, entries)
  {
    var r := EntryRank(o, Items(before) != [], entries[|entries| - 1].command);
    RanksStep(o, entries, before, group, r);
    FlownAppend(before, group, r);
    if r >= 0 {
      AscendAppend(Flown(before), group, r);
      StageStep(o, entries, before, r);
    } else {
      assert Flown(before + group) == Flown(before);
    }
  }

  lemma StageStep(o: Options, entries: seq<Entry>, before: Trace, r: int)
    requires entries != [] && RanksKnown(o, entries[..|entries| - 1], before)
    requires r == EntryRank(o, Items(before) != [], entries[|entries| - 1].command) && r >= 0
    ensures Staged(o, entries) <==> Staged(o, entries[..|entries| - 1]) && RanksAtMost(Flown(before), r)
  {
    forall i | 0 <= i < |Flown(before)| ensures Rank(Flown(before)[i]) <= 2 {
      RankBounds(Flown(before)[i]);
    }
  }
}
