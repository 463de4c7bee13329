/** What a compiled plan says about its source: the four lists account for every command, and
    when laid end to end they keep the source order. */
module CompiledPlans {
  import opened Basics
  import opened MissionIr
  import opened CommonPlan
  import opened PlanCompiler
  import opened MavlinkCompiler

  // ----- from the emissions to the lists of the plan -----

  function AsCommands(commands: seq<CommonCommand>): (r: Trace)
    ensures |r| == |commands| && forall i :: 0 <= i < |r| ==> r[i] == OfCommand(commands[i])
  {
    seq(|commands|, i requires 0 <= i < |commands| => OfCommand(commands[i]))
  }

  function AsItems(items: seq<MissionItem>): (r: Trace)
    ensures |r| == |items| && forall i :: 0 <= i < |r| ==> r[i] == OfItem(items[i])
  {
    seq(|items|, i requires 0 <= i < |items| => OfItem(items[i]))
  }

  /** The prelude without the fence command that the compiler puts in front. */
  function OwnPrelude(plan: Plan, o: Options): seq<CommonCommand> {
    if |FencePrelude(o)| <= |plan.prelude| then plan.prelude[|FencePrelude(o)|..] else []
  }

  /** Prelude, mission items and postlude of the plan, laid end to end. */
  function Laid(plan: Plan, o: Options): Trace {
    AsCommands(OwnPrelude(plan, o)) + AsItems(plan.items) + AsCommands(plan.postlude)
  }

  /** Every emitted command belongs to the prelude or the postlude. */
  predicate PhaseOk(e: Emission) {
    e.OfCommand? ==> e.command.phase.CommandPrelude? || e.command.phase.CommandPostlude?
  }

  predicate PhasesOk(trace: Trace) {
    forall i :: 0 <= i < |trace| ==> PhaseOk(trace[i])
  }

  lemma EntryPhases(o: Options, trace: Trace, entry: Entry)
    requires CompileEntry(o, trace, entry).Done? && PhasesOk(trace)
    ensures PhasesOk(CompileEntry(o, trace, entry).value)
  {
    match entry.command
    case FollowRoute(waypoints) => ItemsShare(trace, entry, NavWaypoint, RouteStops(o.geodesy, waypoints));
    case Orbit(center, radius, turns, direction) =>
      if o.orbit.WaypointApproximation? {
        var segments := o.orbit.segmentsPerTurn;
        ItemsShare(trace, entry, NavWaypoint,
                   OrbitStops(o.geodesy, center, radius, direction, segments, OrbitCount(turns, segments)));
      }
    case _ =>
  }

  lemma {:induction false} CompiledPhases(o: Options, entries: seq<Entry>)
    requires CompileEntries(o, entries).Done?
    ensures PhasesOk(CompileEntries(o, entries).value)
  {
    if entries != [] {
      var init := entries[..|entries| - 1];
      CompiledPhases(o, init);
      EntryPhases(o, CompileEntries(o, init).value, entries[|entries| - 1]);
    }
  }

  lemma {:induction false} PreludeIsRank(trace: Trace)
    requires PhasesOk(trace)
    ensures AsCommands(Commands(trace, CommandPrelude)) == OfRank(trace, 0)
  {
    if trace != [] {
      PreludeIsRank(trace[..|trace| - 1]);
      assert PhaseOk(trace[|trace| - 1]);
    }
  }

  lemma {:induction false} ItemsAreRank(trace: Trace)
    ensures AsItems(Items(trace)) == OfRank(trace, 1)
  {
    if trace != [] {
      ItemsAreRank(trace[..|trace| - 1]);
    }
  }

  lemma {:induction false} PostludeIsRank(trace: Trace)
    requires PhasesOk(trace)
    ensures AsCommands(Commands(trace, CommandPostlude)) == OfRank(trace, 2)
  {
    if trace != [] {
      PostludeIsRank(trace[..|trace| - 1]);
      assert PhaseOk(trace[|trace| - 1]);
    }
  }

  /** The lists of the plan are those of the emissions. */
  lemma PlanLists(plan: Plan, source: MissionPlan, o: Options, trace: Trace)
    requires CompiledFrom(plan, source, o) && trace == CompileEntries(o, source.commands).value
    ensures OwnPrelude(plan, o) == Commands(trace, CommandPrelude) && plan.items == Items(trace)
    ensures plan.postlude == Commands(trace, CommandPostlude) && plan.unsupported == Features(trace)
  {
    var fence, own := FencePrelude(o), Commands(trace, CommandPrelude);
    assert plan.prelude == fence + own;
    assert (fence + own)[|fence|..] == own;
  }

  lemma LaidIsPhased(plan: Plan, source: MissionPlan, o: Options, trace: Trace)
    requires CompiledFrom(plan, source, o) && trace == CompileEntries(o, source.commands).value
    ensures Laid(plan, o) == Phased(trace)
  {
    PlanLists(plan, source, o, trace);
    CompiledPhases(o, source.commands);
    PreludeIsRank(trace);
    ItemsAreRank(trace);
    PostludeIsRank(trace);
  }

  // ----- accounting -----

  function CommandsWith(commands: seq<CommonCommand>, id: string): seq<CommonCommand> {
    if commands == [] then []
    else
      var rest, c := CommandsWith(commands[..|commands| - 1], id), commands[|commands| - 1];
      if c.commandId == id then rest + [c] else rest
  }

  function ItemsWith(items: seq<MissionItem>, id: string): seq<MissionItem> {
    if items == [] then []
    else
      var rest, i := ItemsWith(items[..|items| - 1], id), items[|items| - 1];
      if i.commandId == id then rest + [i] else rest
  }

  function FeaturesWith(features: seq<Unsupported>, id: string): seq<Unsupported> {
    if features == [] then []
    else
      var rest, f := FeaturesWith(features[..|features| - 1], id), features[|features| - 1];
      if f.commandId == id then rest + [f] else rest
  }

  lemma CommandsWithSnoc(commands: seq<CommonCommand>, c: CommonCommand, id: string)
    ensures CommandsWith(commands + [c], id) == CommandsWith(commands, id) + if c.commandId == id then [c] else []
  {
    assert (commands + [c])[..|commands|] == commands;
  }

  lemma ItemsWithSnoc(items: seq<MissionItem>, i: MissionItem, id: string)
    ensures ItemsWith(items + [i], id) == ItemsWith(items, id) + if i.commandId == id then [i] else []
  {
    assert (items + [i])[..|items|] == items;
  }

  lemma FeaturesWithSnoc(features: seq<Unsupported>, f: Unsupported, id: string)
    ensures FeaturesWith(features + [f], id) == FeaturesWith(features, id) + if f.commandId == id then [f] else []
  {
    assert (features + [f])[..|features|] == features;
  }

  lemma {:induction false} CommandsById(trace: Trace, phase: Phase, id: string)
    ensures CommandsWith(Commands(trace, phase), id) == Commands(WithId(trace, id), phase)
  {
    if trace != [] {
      var init, e := trace[..|trace| - 1], trace[|trace| - 1];
      CommandsById(init, phase, id);
      Snoc(WithId(init, id), e);
      if e.OfCommand? {
        CommandsWithSnoc(Commands(init, phase), e.command, id);
      }
    }
  }

  lemma {:induction false} ItemsById(trace: Trace, id: string)
    ensures ItemsWith(Items(trace), id) == Items(WithId(trace, id))
  {
    if trace != [] {
      var init, e := trace[..|trace| - 1], trace[|trace| - 1];
      ItemsById(init, id);
      Snoc(WithId(init, id), e);
      if e.OfItem? {
        ItemsWithSnoc(Items(init), e.item, id);
      }
    }
  }

  lemma {:induction false} FeaturesById(trace: Trace, id: string)
    ensures FeaturesWith(Features(trace), id) == Features(WithId(trace, id))
  {
    if trace != [] {
      var init, e := trace[..|trace| - 1], trace[|trace| - 1];
      FeaturesById(init, id);
      Snoc(WithId(init, id), e);
      if e.OfUnsupported? {
        FeaturesWithSnoc(Features(init), e.feature, id);
      }
    }
  }

  /** One prelude command, or one postlude command, or one unsupported record, or one or more
      items, and nothing else. */
  predicate OneShare(prelude: nat, items: nat, postlude: nat, unsupported: nat) {
    || (prelude == 1 && items == 0 && postlude == 0 && unsupported == 0)
    || (prelude == 0 && items == 0 && postlude == 1 && unsupported == 0)
    || (prelude == 0 && items == 0 && postlude == 0 && unsupported == 1)
    || (prelude == 0 && items >= 1 && postlude == 0 && unsupported == 0)
  }

  lemma {:induction false} ItemsOnly(group: Trace)
    requires forall i :: 0 <= i < |group| ==> group[i].OfItem?
    ensures |Items(group)| == |group| && Features(group) == [] && forall phase :: Commands(group, phase) == []
  {
    if group != [] {
      ItemsOnly(group[..|group| - 1]);
    }
  }

  lemma ShareIsOne(group: Trace, entry: Entry)
    requires ShareOf(group, entry) && PhasesOk(group)
    ensures OneShare(|Commands(group, CommandPrelude)|, |Items(group)|, |Commands(group, CommandPostlude)|,
              |Features(group)|)
  {
    if |group| == 1 {
      Snoc([], group[0]);
      assert PhaseOk(group[0]) && group == [] + [group[0]];
    } else {
      ItemsOnly(group);
    }
  }

  lemma {:induction false} WithIdPhases(trace: Trace, id: string)
    requires PhasesOk(trace)
    ensures PhasesOk(WithId(trace, id))
  {
    if trace != [] {
      WithIdPhases(trace[..|trace| - 1], id);
      assert PhaseOk(trace[|trace| - 1]);
    }
  }

  /** Every source command is in the compiled plan exactly once: as one command of the prelude
      or postlude, as mission items, or as one unsupported record. */
  lemma PlanAccounts(plan: Plan, source: MissionPlan, o: Options, i: nat)
    requires CompiledFrom(plan, source, o) && i < |source.commands|
    ensures var id := source.commands[i].commandId;
            OneShare(|CommandsWith(OwnPrelude(plan, o), id)|, |ItemsWith(plan.items, id)|,
              |CommandsWith(plan.postlude, id)|, |FeaturesWith(plan.unsupported, id)|)
  {
    var id, n, trace := source.commands[i].commandId, |source.commands|, CompileEntries(o, source.commands).value;
    assert source.commands[..n] == source.commands;
    PlanLists(plan, source, o, trace);
    var groups := CompilationAccounts(o, source, n);
    SharesById(groups, source.commands, trace, i);
    CompiledPhases(o, source.commands);
    WithIdPhases(trace, id);
    ShareIsOne(groups[i], source.commands[i]);
    CommandsById(trace, CommandPrelude, id);
    CommandsById(trace, CommandPostlude, id);
    ItemsById(trace, id);
    FeaturesById(trace, id);
  }

  predicate KnownId(entries: seq<Entry>, id: string) {
    exists i :: 0 <= i < |entries| && entries[i].commandId == id
  }

  lemma {:induction false} TraceIds(groups: seq<Trace>, entries: seq<Entry>, trace: Trace, e: Emission)
    requires Accounts(groups, entries, trace) && e in trace
    ensures KnownId(entries, SourceId(e))
  {
    if entries != [] {
      var n := |entries| - 1;
      AccountsInit(groups, entries, trace);
      var before := Flatten(groups[..n]);
      if e in before {
        TraceIds(groups[..n], entries[..n], before, e);
        KnownGrows(entries, n, SourceId(e));
      } else {
        assert e in groups[n] && ShareOf(groups[n], entries[n]);
        assert entries[n].commandId == SourceId(e);
      }
    }
  }

  lemma KnownGrows(entries: seq<Entry>, n: nat, id: string)
    requires n <= |entries| && KnownId(entries[..n], id)
    ensures KnownId(entries, id)
  {
    var i :| 0 <= i < n && entries[..n][i].commandId == id;
    assert entries[i].commandId == id;
  }

  /** `e` stands in one of the lists made of the trace. */
  predicate Listed(trace: Trace, e: Emission) {
    match e
    case OfCommand(c) => c in Commands(trace, CommandPrelude) || c in Commands(trace, CommandPostlude)
    case OfItem(i) => i in Items(trace)
    case OfUnsupported(f) => f in Features(trace)
  }

  lemma {:induction false} ListedIsEmitted(trace: Trace, e: Emission)
    requires Listed(trace, e)
    ensures e in trace
  {
    if trace != [] {
      var init, last := trace[..|trace| - 1], trace[|trace| - 1];
      assert trace == init + [last];
      if Listed(init, e) {
        ListedIsEmitted(init, e);
      } else {
        assert e == last;
      }
    }
  }

  predicate InPlan(plan: Plan, o: Options, e: Emission) {
    match e
    case OfCommand(c) => c in OwnPrelude(plan, o) || c in plan.postlude
    case OfItem(i) => i in plan.items
    case OfUnsupported(f) => f in plan.unsupported
  }

  /** Nothing in the plan comes from anywhere but a source command, the fence command aside. */
  lemma PlanHasNoStrays(plan: Plan, source: MissionPlan, o: Options, e: Emission)
    requires CompiledFrom(plan, source, o) && InPlan(plan, o, e)
    ensures KnownId(source.commands, SourceId(e))
  {
    var trace, n := CompileEntries(o, source.commands).value, |source.commands|;
    assert source.commands[..n] == source.commands;
    PlanLists(plan, source, o, trace);
    ListedIsEmitted(trace, e);
    var groups := CompilationAccounts(o, source, n);
    TraceIds(groups, source.commands, trace, e);
  }

  // ----- order -----

  /** The command that gave `e` is the one that gave `f`, or an earlier one. */
  predicate Precedes(entries: seq<Entry>, e: Emission, f: Emission) {
    exists i, j :: 0 <= i <= j < |entries| && entries[i].commandId == SourceId(e) && entries[j].commandId == SourceId(f)
  }

  /** What an earlier command gave comes before what a later one gave. */
  predicate InSourceOrder(entries: seq<Entry>, t: Trace) {
    forall a, b :: 0 <= a < b < |t| ==> Precedes(entries, t[a], t[b])
  }

  /** Nothing comes from elsewhere, the order is that of the source, and what one command gave
      is of one rank. */
  predicate Orderly(entries: seq<Entry>, t: Trace) {
    && (forall a :: 0 <= a < |t| ==> KnownId(entries, SourceId(t[a])))
    && InSourceOrder(entries, t)
    && forall a, b :: 0 <= a < b < |t| && SourceId(t[a]) == SourceId(t[b]) ==> Rank(t[a]) == Rank(t[b])
  }

  lemma PrecedesGrows(entries: seq<Entry>, n: nat, e: Emission, f: Emission)
    requires n <= |entries| && Precedes(entries[..n], e, f)
    ensures Precedes(entries, e, f)
  {
    var init := entries[..n];
    var i, j :| 0 <= i <= j < n && init[i].commandId == SourceId(e) && init[j].commandId == SourceId(f);
    assert entries[i] == init[i] && entries[j] == init[j];
  }

  /** What a known earlier command gave precedes, under another id, what the last one gives. */
  lemma PrecedesLast(entries: seq<Entry>, e: Emission, f: Emission)
    requires entries != [] && DistinctIds(entries) && KnownId(entries[..|entries| - 1], SourceId(e))
    requires SourceId(f) == entries[|entries| - 1].commandId
    ensures Precedes(entries, e, f) && SourceId(e) != SourceId(f)
  {
    var n := |entries| - 1;
    var i :| 0 <= i < n && entries[..n][i].commandId == SourceId(e);
    assert entries[i].commandId == SourceId(e) && entries[n].commandId == SourceId(f);
  }

  lemma OrderlySnoc(entries: seq<Entry>, t: Trace, group: Trace, r: int)
    requires entries != [] && DistinctIds(entries) && Orderly(entries[..|entries| - 1], t)
    requires forall k :: 0 <= k < |group| ==>
      SourceId(group[k]) == entries[|entries| - 1].commandId && Rank(group[k]) == r
    ensures Orderly(entries, t + group)
  {
    var n, all := |entries| - 1, t + group;
    forall a | 0 <= a < |all| ensures KnownId(entries, SourceId(all[a])) {
      if a < |t| {
        KnownGrows(entries, n, SourceId(t[a]));
      } else {
        assert entries[n].commandId == SourceId(all[a]);
      }
    }
    forall a, b | 0 <= a < b < |all|
      ensures Precedes(entries, all[a], all[b])
      ensures SourceId(all[a]) == SourceId(all[b]) ==> Rank(all[a]) == Rank(all[b])
    {
      if b < |t| {
        PrecedesGrows(entries, n, t[a], t[b]);
      } else if a < |t| {
        PrecedesLast(entries, t[a], all[b]);
      } else {
        assert entries[n].commandId == SourceId(all[a]) == SourceId(all[b]);
      }
    }
  }

  lemma {:induction false} FlownOrderly(groups: seq<Trace>, entries: seq<Entry>, trace: Trace)
    requires Accounts(groups, entries, trace) && DistinctIds(entries)
    ensures Orderly(entries, Flown(trace))
  {
    if entries != [] {
      var n := |entries| - 1;
      var before, group := Flatten(groups[..n]), groups[n];
      AccountsInit(groups, entries, trace);
      FlownOrderly(groups[..n], entries[..n], before);
      assert ShareOf(group, entries[n]);
      var r := Rank(group[0]);
      FlownAppend(before, group, r);
      OrderlySnoc(entries, Flown(before), if r >= 0 then group else [], r);
      assert Flown(before) + [] == Flown(before);
    }
  }

  lemma {:induction false} RankMember(t: Trace, e: Emission, r: int)
    ensures e in OfRank(t, r) <==> e in t && Rank(e) == r
  {
    if t != [] {
      RankMember(t[..|t| - 1], e, r);
      assert t == t[..|t| - 1] + [t[|t| - 1]];
    }
  }

  lemma {:induction false} RankInOrder(entries: seq<Entry>, t: Trace, r: int)
    requires InSourceOrder(entries, t)
    ensures InSourceOrder(entries, OfRank(t, r))
  {
    if t != [] {
      var init, e := t[..|t| - 1], t[|t| - 1];
      RankInOrder(entries, init, r);
      var rest := OfRank(init, r);
      forall a | 0 <= a < |rest| ensures Precedes(entries, rest[a], e) {
        RankMember(init, rest[a], r);
        var k :| 0 <= k < |init| && init[k] == rest[a];
        assert t[k] == init[k];
      }
    }
  }

  lemma CompiledFlown(source: MissionPlan, o: Options, trace: Trace)
    requires ValidPlan(source) && OptionsOk(o) && CompileEntries(o, source.commands) == Done(trace)
    ensures Orderly(source.commands, Flown(trace))
  {
    var n := |source.commands|;
    assert source.commands[..n] == source.commands;
    var groups := CompilationAccounts(o, source, n);
    FlownOrderly(groups, source.commands, trace);
  }

  /** Each of prelude, items and postlude is in source order, whatever the source. */
  lemma PhasesInOrder(plan: Plan, source: MissionPlan, o: Options)
    requires CompiledFrom(plan, source, o)
    ensures InSourceOrder(source.commands, AsCommands(OwnPrelude(plan, o)))
    ensures InSourceOrder(source.commands, AsItems(plan.items))
    ensures InSourceOrder(source.commands, AsCommands(plan.postlude))
  {
    var trace := CompileEntries(o, source.commands).value;
    PlanLists(plan, source, o, trace);
    CompiledFlown(source, o, trace);
    CompiledPhases(o, source.commands);
    RanksInOrder(source.commands, trace);
  }

  lemma RanksInOrder(entries: seq<Entry>, trace: Trace)
    requires Orderly(entries, Flown(trace)) && PhasesOk(trace)
    ensures InSourceOrder(entries, AsCommands(Commands(trace, CommandPrelude)))
    ensures InSourceOrder(entries, AsItems(Items(trace)))
    ensures InSourceOrder(entries, AsCommands(Commands(trace, CommandPostlude)))
  {
    PreludeIsRank(trace);
    ItemsAreRank(trace);
    PostludeIsRank(trace);
    OfRankFlown(trace, 0);
    OfRankFlown(trace, 1);
    OfRankFlown(trace, 2);
    RankInOrder(entries, Flown(trace), 0);
    RankInOrder(entries, Flown(trace), 1);
    RankInOrder(entries, Flown(trace), 2);
  }

  /** Two emissions that precede each other come from one command. */
  lemma PrecedesBothWays(entries: seq<Entry>, e: Emission, f: Emission)
    requires DistinctIds(entries) && Precedes(entries, e, f) && Precedes(entries, f, e)
    ensures SourceId(e) == SourceId(f)
  {
    var i, j :| 0 <= i <= j < |entries| && entries[i].commandId == SourceId(e) && entries[j].commandId == SourceId(f);
    var k, l :| 0 <= k <= l < |entries| && entries[k].commandId == SourceId(f) && entries[l].commandId == SourceId(e);
    assert i == l && j == k;
  }

  lemma PhasedMember(t: Trace, e: Emission) returns (k: nat)
    requires e in t && 0 <= Rank(e) <= 2
    ensures k < |Phased(t)| && Phased(t)[k] == e
  {
    RankMember(t, e, Rank(e));
    var own := OfRank(t, Rank(e));
    k :| 0 <= k < |own| && own[k] == e;
    if Rank(e) == 1 {
      k := |OfRank(t, 0)| + k;
    } else if Rank(e) == 2 {
      k := |OfRank(t, 0)| + |OfRank(t, 1)| + k;
    }
  }

  /** Two emissions whose ranks go down in the source change places in the phases. */
  lemma RanksSwap(entries: seq<Entry>, t: Trace, i: nat, j: nat)
    requires DistinctIds(entries) && Orderly(entries, t) && i < j < |t| && 0 <= Rank(t[j]) < Rank(t[i]) <= 2
    ensures !InSourceOrder(entries, Phased(t))
  {
    var a := PhasedMember(t, t[j]);
    var b := PhasedMember(t, t[i]);
    var laid := Phased(t);
    PhasedAscends(t);
    assert a < b;
    if InSourceOrder(entries, laid) {
      assert Precedes(entries, laid[a], laid[b]) && Precedes(entries, t[i], t[j]);
      PrecedesBothWays(entries, t[i], t[j]);
    }
  }

  lemma PhasedInOrderExactly(entries: seq<Entry>, t: Trace)
    requires DistinctIds(entries) && Orderly(entries, t) && forall i :: 0 <= i < |t| ==> 0 <= Rank(t[i]) <= 2
    ensures InSourceOrder(entries, Phased(t)) <==> RanksAscend(t)
  {
    if RanksAscend(t) {
      AscendingIsPhased(t);
    } else {
      var i, j :| 0 <= i < j < |t| && Rank(t[i]) > Rank(t[j]);
      RanksSwap(entries, t, i, j);
    }
  }

  lemma FlownInOrderExactly(entries: seq<Entry>, trace: Trace)
    requires DistinctIds(entries) && Orderly(entries, Flown(trace))
    ensures InSourceOrder(entries, Phased(trace)) <==> RanksAscend(Flown(trace))
  {
    OfRankFlown(trace, 0);
    OfRankFlown(trace, 1);
    OfRankFlown(trace, 2);
    forall i | 0 <= i < |Flown(trace)| ensures 0 <= Rank(Flown(trace)[i]) <= 2 {
      RankBounds(Flown(trace)[i]);
    }
    PhasedInOrderExactly(entries, Flown(trace));
  }

  lemma TraceOrderExactly(source: MissionPlan, o: Options, trace: Trace)
    requires ValidPlan(source) && OptionsOk(o) && CompileEntries(o, source.commands) == Done(trace)
    ensures InSourceOrder(source.commands, Phased(trace)) <==> Staged(o, source.commands)
  {
    CompiledFlown(source, o, trace);
    FlownInOrderExactly(source.commands, trace);
    var n := |source.commands|;
    assert source.commands[..n] == source.commands;
    StagedExactly(o, source, n);
  }

  /** Prelude, items and postlude of a compiled plan, laid end to end, are in source order
      exactly when the source is staged. */
  lemma PlanOrderExactly(plan: Plan, source: MissionPlan, o: Options)
    requires CompiledFrom(plan, source, o)
    ensures InSourceOrder(source.commands, Laid(plan, o)) <==> Staged(o, source.commands)
  {
    var trace := CompileEntries(o, source.commands).value;
    LaidIsPhased(plan, source, o, trace);
    TraceOrderExactly(source, o, trace);
  }
}
