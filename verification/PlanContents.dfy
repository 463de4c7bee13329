/** What each source command becomes in a compiled plan, read off the lists of the plan. */
module PlanContents {
  import opened Basics
  import opened MissionIr
  import opened CommonPlan
  import opened PlanCompiler
  import opened MavlinkCompiler
  import opened CompiledPlans
  import CapabilityProfile

  // ----- the share of one command -----

  /** The items of command `id` are the `n` items from position `at` on, and no others. */
  ghost predicate Block(items: seq<MissionItem>, id: string, at: nat, n: nat) {
    at + n <= |items| && forall k :: 0 <= k < |items| ==> (items[k].commandId == id <==> at <= k < at + n)
  }

  lemma {:induction false} ItemsOfGroup(a: Trace, b: Trace, id: string)
    requires forall k :: 0 <= k < |b| ==> SourceId(b[k]) == id
    ensures Items(a) <= Items(a + b)
    ensures forall k :: |Items(a)| <= k < |Items(a + b)| ==> Items(a + b)[k].commandId == id
  {
    if b == [] {
      assert a + b == a;
    } else {
      ItemsOfGroup(a, b[..|b| - 1], id);
      assert (a + b)[..|a + b| - 1] == a + b[..|b| - 1];
    }
  }

  /** Everything added to the items carries this id. */
  ghost predicate GrowsBy(items: seq<MissionItem>, more: seq<MissionItem>, own: string) {
    items <= more && forall k :: |items| <= k < |more| ==> more[k].commandId == own
  }

  /** Compiling the command turned `before` into `after` by adding emissions of its id. */
  ghost predicate Stage(o: Options, entry: Entry, before: Trace, after: Trace) {
    && CompileEntry(o, before, entry) == Done(after) && before <= after
    && (forall k :: |before| <= k < |after| ==> SourceId(after[k]) == entry.commandId)
    && GrowsBy(Items(before), Items(after), entry.commandId)
  }

  ghost predicate StageAt(o: Options, entries: seq<Entry>, ts: seq<Trace>, n: nat) {
    n < |entries| && |ts| == |entries| + 1 && Stage(o, entries[n], ts[n], ts[n + 1])
  }

  /** The emissions before the first command, and after each one. */
  ghost predicate Stages(o: Options, entries: seq<Entry>, ts: seq<Trace>) {
    |ts| == |entries| + 1 && ts[0] == [] && forall n :: 0 <= n < |entries| ==> StageAt(o, entries, ts, n)
  }

  lemma NextStage(o: Options, source: MissionPlan, n: nat)
    requires ValidPlan(source) && OptionsOk(o) && n < |source.commands|
    requires CompileEntries(o, source.commands[..n + 1]).Done?
    ensures CompileEntries(o, source.commands[..n]).Done?
    ensures Stage(o, source.commands[n], CompileEntries(o, source.commands[..n]).value,
                  CompileEntries(o, source.commands[..n + 1]).value)
  {
    StepShare(o, source, n);
    assert source.commands[..n + 1][..n] == source.commands[..n];
    var before, after := CompileEntries(o, source.commands[..n]).value,
                         CompileEntries(o, source.commands[..n + 1]).value;
    assert forall k :: |before| <= k < |after| ==> after[k] == after[|before|..][k - |before|];
    ItemsOfGroup(before, after[|before|..], source.commands[n].commandId);
  }

  lemma StagesNext(o: Options, entries: seq<Entry>, n: nat, ts: seq<Trace>, t: Trace)
    requires n < |entries| && Stages(o, entries[..n], ts) && Stage(o, entries[n], ts[n], t)
    ensures Stages(o, entries[..n + 1], ts + [t])
  {
    var init, longer, more := entries[..n], entries[..n + 1], ts + [t];
    forall k | 0 <= k < n + 1 ensures StageAt(o, longer, more, k) {
      if k < n {
        assert StageAt(o, init, ts, k);
        assert longer[k] == init[k] && more[k] == ts[k] && more[k + 1] == ts[k + 1];
      }
    }
  }

  lemma {:induction false} CompilerStages(o: Options, source: MissionPlan, n: nat) returns (ts: seq<Trace>)
    requires ValidPlan(source) && OptionsOk(o) && n <= |source.commands|
    requires CompileEntries(o, source.commands[..n]).Done?
    ensures Stages(o, source.commands[..n], ts) && ts[n] == CompileEntries(o, source.commands[..n]).value
  {
    if n == 0 {
      ts := [[]];
    } else {
      NextStage(o, source, n - 1);
      var t := CompileEntries(o, source.commands[..n]).value;
      var init := CompilerStages(o, source, n - 1);
      StagesNext(o, source.commands, n - 1, init, t);
      ts := init + [t];
    }
  }

  lemma WithIdStage(o: Options, entry: Entry, before: Trace, after: Trace, id: string)
    requires Stage(o, entry, before, after)
    ensures WithId(after, id) == WithId(before, id) + if id == entry.commandId then after[|before|..] else []
  {
    var group := after[|before|..];
    assert after == before + group;
    assert forall k :: 0 <= k < |group| ==> group[k] == after[|before| + k];
    WithIdAppend(before, group, id);
    WithIdUniform(group, id, entry.commandId);
  }

  lemma {:induction false} NotYet(o: Options, entries: seq<Entry>, ts: seq<Trace>, n: nat, i: nat)
    requires Stages(o, entries, ts) && DistinctIds(entries) && n <= i < |entries|
    ensures WithId(ts[n], entries[i].commandId) == []
    ensures forall k :: 0 <= k < |Items(ts[n])| ==> Items(ts[n])[k].commandId != entries[i].commandId
  {
    if n > 0 {
      assert StageAt(o, entries, ts, n - 1);
      NotYet(o, entries, ts, n - 1, i);
      WithIdStage(o, entries[n - 1], ts[n - 1], ts[n], entries[i].commandId);
    }
  }

  /** What carries the id of command `i` is what that command put out, however many followed. */
  lemma {:induction false} ShareById(o: Options, entries: seq<Entry>, ts: seq<Trace>, i: nat, n: nat)
    requires Stages(o, entries, ts) && DistinctIds(entries) && i < n <= |entries|
    ensures ts[i] <= ts[i + 1] && WithId(ts[n], entries[i].commandId) == ts[i + 1][|ts[i]|..]
  {
    var id := entries[i].commandId;
    assert StageAt(o, entries, ts, n - 1) && StageAt(o, entries, ts, i);
    WithIdStage(o, entries[n - 1], ts[n - 1], ts[n], id);
    if i < n - 1 {
      ShareById(o, entries, ts, i, n - 1);
      assert id != entries[n - 1].commandId;
      assert WithId(ts[n], id) == WithId(ts[n - 1], id);
    } else {
      NotYet(o, entries, ts, i, i);
    }
  }

  /** `before` and `after` are what the list was when command `id` was come to and dealt with. */
  ghost predicate Spans(before: seq<MissionItem>, after: seq<MissionItem>, items: seq<MissionItem>, id: string) {
    before <= after <= items && Block(items, id, |before|, |after| - |before|)
  }

  lemma SpanGrows(before: seq<MissionItem>, after: seq<MissionItem>, items: seq<MissionItem>, id: string,
                  more: seq<MissionItem>, own: string)
    requires Spans(before, after, items, id) && GrowsBy(items, more, own) && own != id
    ensures Spans(before, after, more, id)
  {
    assert forall k :: 0 <= k < |items| ==> more[k] == items[k];
  }

  lemma SpanNew(items: seq<MissionItem>, more: seq<MissionItem>, id: string)
    requires GrowsBy(items, more, id) && forall k :: 0 <= k < |items| ==> items[k].commandId != id
    ensures Spans(items, more, more, id)
  {
    assert forall k :: 0 <= k < |items| ==> more[k] == items[k];
  }

  lemma {:induction false} BlockById(o: Options, entries: seq<Entry>, ts: seq<Trace>, i: nat, n: nat)
    requires Stages(o, entries, ts) && DistinctIds(entries) && i < n <= |entries|
    ensures Spans(Items(ts[i]), Items(ts[i + 1]), Items(ts[n]), entries[i].commandId)
  {
    assert StageAt(o, entries, ts, n - 1);
    if i < n - 1 {
      BlockById(o, entries, ts, i, n - 1);
      SpanGrows(Items(ts[i]), Items(ts[i + 1]), Items(ts[n - 1]), entries[i].commandId, Items(ts[n]),
                entries[n - 1].commandId);
    } else {
      NotYet(o, entries, ts, i, i);
      SpanNew(Items(ts[i]), Items(ts[n]), entries[i].commandId);
    }
  }

  /** What compiling the command put out, and where that stands in the lists. */
  ghost predicate Placed(o: Options, entry: Entry, before: Trace, after: Trace, prelude: seq<CommonCommand>,
                         items: seq<MissionItem>, postlude: seq<CommonCommand>, unsupported: seq<Unsupported>)
  {
    && CompileEntry(o, before, entry) == Done(after) && before <= after
    && Spans(Items(before), Items(after), items, entry.commandId)
    && var id, group := entry.commandId, after[|before|..];
       && CommandsWith(prelude, id) == Commands(group, CommandPrelude)
       && CommandsWith(postlude, id) == Commands(group, CommandPostlude)
       && FeaturesWith(unsupported, id) == Features(group)
  }

  lemma TracePlaced(o: Options, entries: seq<Entry>, ts: seq<Trace>, i: nat)
    requires Stages(o, entries, ts) && DistinctIds(entries) && i < |entries|
    ensures var trace := ts[|entries|];
            Placed(o, entries[i], ts[i], ts[i + 1], Commands(trace, CommandPrelude), Items(trace),
                   Commands(trace, CommandPostlude), Features(trace))
  {
    var id, trace := entries[i].commandId, ts[|entries|];
    assert StageAt(o, entries, ts, i);
    ShareById(o, entries, ts, i, |entries|);
    BlockById(o, entries, ts, i, |entries|);
    CommandsById(trace, CommandPrelude, id);
    CommandsById(trace, CommandPostlude, id);
    FeaturesById(trace, id);
  }

  /** The plan's lists are those of the last stage. */
  lemma PlanStages(plan: Plan, source: MissionPlan, o: Options) returns (ts: seq<Trace>)
    requires CompiledFrom(plan, source, o)
    ensures Stages(o, source.commands, ts) && DistinctIds(source.commands) && CommandsOk(source) && OptionsOk(o)
    ensures var trace := ts[|source.commands|];
            && OwnPrelude(plan, o) == Commands(trace, CommandPrelude) && plan.items == Items(trace)
            && plan.postlude == Commands(trace, CommandPostlude) && plan.unsupported == Features(trace)
  {
    var n := |source.commands|;
    assert source.commands[..n] == source.commands;
    ts := CompilerStages(o, source, n);
    PlanLists(plan, source, o, ts[n]);
  }

  lemma Share(plan: Plan, source: MissionPlan, o: Options, i: nat) returns (before: Trace, after: Trace)
    requires CompiledFrom(plan, source, o) && i < |source.commands|
    ensures CommandOk(source.commands[i].command, source.frame) && OptionsOk(o)
    ensures Placed(o, source.commands[i], before, after, OwnPrelude(plan, o), plan.items, plan.postlude,
                   plan.unsupported)
  {
    var ts := PlanStages(plan, source, o);
    TracePlaced(o, source.commands, ts, i);
    before, after := ts[i], ts[i + 1];
  }

  // ----- commands that become items -----

  /** Item number `k` stands for the command: it asks for `name` at `place`, with these parameters,
      and carries the numbers and sources the command gives it. */
  predicate ItemAt(items: seq<MissionItem>, k: int, entry: Entry, name: CommandName, place: Option<Coordinate>,
                   params: Params)
  {
    && 0 <= k < |items| && place == Some(items[k].coordinate)
    && items[k] == MissionItem(k, entry.commandId, name, GlobalRelativeAltInt, place.value, params, k == 0,
                               entry.sourceTaskId, entry.sourceRouteId)
  }

  lemma OneItem(trace: Trace, entry: Entry, name: CommandName, stop: Stop)
    requires EmitItem(trace, entry, name, stop).Done?
    ensures var items, more := Items(trace), Items(EmitItem(trace, entry, name, stop).value);
            && |more| == |items| + 1 && items <= more
            && ItemAt(more, |items|, entry, name, stop.at, stop.params)
  {
    Snoc(trace, ItemEmission(trace, entry, name, stop.at.value, stop.params));
  }

  lemma {:induction false} ManyItems(trace: Trace, entry: Entry, name: CommandName, stops: seq<Stop>)
    requires EmitItems(trace, entry, name, stops).Done?
    ensures var items, more := Items(trace), Items(EmitItems(trace, entry, name, stops).value);
            && |more| == |items| + |stops| && items <= more
            && forall k :: 0 <= k < |stops| ==> ItemAt(more, |items| + k, entry, name, stops[k].at, stops[k].params)
  {
    if stops != [] {
      var init := stops[..|stops| - 1];
      ManyItems(trace, entry, name, init);
      OneItem(EmitItems(trace, entry, name, init).value, entry, name, stops[|stops| - 1]);
      var items, more := Items(EmitItems(trace, entry, name, init).value),
                         Items(EmitItems(trace, entry, name, stops).value);
      forall k | 0 <= k < |init|
        ensures ItemAt(more, |Items(trace)| + k, entry, name, stops[k].at, stops[k].params)
      {
        assert stops[k] == init[k];
        ItemAtGrows(items, more, |Items(trace)| + k, entry, name, init[k].at, init[k].params);
      }
    }
  }

  lemma ItemAtGrows(items: seq<MissionItem>, more: seq<MissionItem>, k: int, entry: Entry, name: CommandName,
                    place: Option<Coordinate>, params: Params)
    requires items <= more && ItemAt(items, k, entry, name, place, params)
    ensures ItemAt(more, k, entry, name, place, params)
  {
    assert more[k] == items[k];
  }

  lemma StopsPlaced(trace: Trace, entry: Entry, name: CommandName, stops: seq<Stop>, items: seq<MissionItem>)
    requires EmitItems(trace, entry, name, stops).Done?
    requires Items(EmitItems(trace, entry, name, stops).value) <= items
    ensures |Items(EmitItems(trace, entry, name, stops).value)| == |Items(trace)| + |stops|
    ensures forall k :: 0 <= k < |stops| ==>
              ItemAt(items, |Items(trace)| + k, entry, name, stops[k].at, stops[k].params)
  {
    ManyItems(trace, entry, name, stops);
    forall k | 0 <= k < |stops|
      ensures ItemAt(items, |Items(trace)| + k, entry, name, stops[k].at, stops[k].params)
    {
      ItemAtGrows(Items(EmitItems(trace, entry, name, stops).value), items, |Items(trace)| + k, entry, name,
                  stops[k].at, stops[k].params);
    }
  }

  /** The route is flown waypoint by waypoint, in the order given and each within its own radius. */
  ghost predicate Follows(items: seq<MissionItem>, o: Options, entry: Entry, waypoints: seq<Waypoint>, at: nat) {
    && Block(items, entry.commandId, at, |waypoints|)
    && forall k :: 0 <= k < |waypoints| ==>
         ItemAt(items, at + k, entry, NavWaypoint, o.geodesy.convert(waypoints[k].position),
                [Some(0.0), waypoints[k].acceptanceRadius, Some(0.0), None])
  }

  lemma RoutePlaced(o: Options, entry: Entry, trace: Trace, items: seq<MissionItem>)
    requires entry.command.FollowRoute? && CompileEntry(o, trace, entry).Done?
    requires Spans(Items(trace), Items(CompileEntry(o, trace, entry).value), items, entry.commandId)
    ensures Follows(items, o, entry, entry.command.waypoints, |Items(trace)|)
  {
    var waypoints, stops := entry.command.waypoints, RouteStops(o.geodesy, entry.command.waypoints);
    StopsPlaced(trace, entry, NavWaypoint, stops, items);
    assert forall k :: 0 <= k < |waypoints| ==>
        stops[k] == Stop(o.geodesy.convert(waypoints[k].position),
                         [Some(0.0), waypoints[k].acceptanceRadius, Some(0.0), None]);
  }

  lemma RouteFlown(plan: Plan, source: MissionPlan, o: Options, i: nat) returns (at: nat)
    requires CompiledFrom(plan, source, o) && i < |source.commands| && source.commands[i].command.FollowRoute?
    ensures Follows(plan.items, o, source.commands[i], source.commands[i].command.waypoints, at)
  {
    var before, after := Share(plan, source, o, i);
    RoutePlaced(o, source.commands[i], before, plan.items);
    at := |Items(before)|;
  }

  /** A single destination is one waypoint. */
  ghost predicate Goes(items: seq<MissionItem>, o: Options, entry: Entry, position: Position, at: nat) {
    && Block(items, entry.commandId, at, 1)
    && ItemAt(items, at, entry, NavWaypoint, o.geodesy.convert(position), [Some(0.0), Some(0.0), Some(0.0), None])
  }

  lemma GoToPlaced(o: Options, entry: Entry, trace: Trace, items: seq<MissionItem>)
    requires entry.command.GoTo? && CompileEntry(o, trace, entry).Done?
    requires Spans(Items(trace), Items(CompileEntry(o, trace, entry).value), items, entry.commandId)
    ensures Goes(items, o, entry, entry.command.position, |Items(trace)|)
  {
    OneItem(trace, entry, NavWaypoint, Stop(o.geodesy.convert(entry.command.position), LEVEL));
    assert items[|Items(trace)|] == Items(CompileEntry(o, trace, entry).value)[|Items(trace)|];
  }

  lemma GoToFlown(plan: Plan, source: MissionPlan, o: Options, i: nat) returns (at: nat)
    requires CompiledFrom(plan, source, o) && i < |source.commands| && source.commands[i].command.GoTo?
    ensures Goes(plan.items, o, source.commands[i], source.commands[i].command.position, at)
  {
    var before, after := Share(plan, source, o, i);
    GoToPlaced(o, source.commands[i], before, plan.items);
    at := |Items(before)|;
  }

  /** `n` is `x` rounded up. */
  predicate RoundsUpTo(x: real, n: int) {
    x <= n as real < x + 1.0
  }

  lemma OrbitRounds(turns: real, segments: nat)
    requires turns > 0.0 && segments > 0
    ensures RoundsUpTo(turns * segments as real, OrbitCount(turns, segments))
  {
    OrbitCountPositive(turns, segments);
  }

  /** The only trace of the command is one record of what is not supported. */
  ghost predicate Recorded(plan: Plan, entry: Entry, rule: UnsupportedRule, kind: string) {
    FeaturesWith(plan.unsupported, entry.commandId) == [Unsupported(rule, entry.commandId, kind)]
  }

  /** The command's `n` items are the first `n` points of the orbit. */
  ghost predicate Rounds(items: seq<MissionItem>, o: Options, entry: Entry, segments: nat, at: nat, n: nat)
    requires entry.command.Orbit?
  {
    var c := entry.command;
    && Block(items, entry.commandId, at, n)
    && forall k :: 0 <= k < n ==>
         ItemAt(items, at + k, entry, NavWaypoint,
                o.geodesy.orbitPoint(c.center, c.radius, c.direction, segments, k),
                [Some(0.0), Some(0.0), Some(0.0), None])
  }

  /** An orbit is flown point by point, as many as the turns have segments, rounded up. */
  ghost predicate Circles(items: seq<MissionItem>, o: Options, entry: Entry, segments: nat, at: nat, n: nat)
    requires entry.command.Orbit?
  {
    && n <= 65535 && RoundsUpTo(entry.command.turns * segments as real, n)
    && Rounds(items, o, entry, segments, at, n)
  }

  lemma PointsPlaced(o: Options, entry: Entry, trace: Trace, segments: nat, n: nat, items: seq<MissionItem>)
    requires entry.command.Orbit?
    requires var c := entry.command;
             var r := EmitItems(trace, entry, NavWaypoint,
                                OrbitStops(o.geodesy, c.center, c.radius, c.direction, segments, n));
             r.Done? && Spans(Items(trace), Items(r.value), items, entry.commandId)
    ensures Rounds(items, o, entry, segments, |Items(trace)|, n)
  {
    var c := entry.command;
    var stops := OrbitStops(o.geodesy, c.center, c.radius, c.direction, segments, n);
    StopsPlaced(trace, entry, NavWaypoint, stops, items);
    assert forall k :: 0 <= k < n ==>
        stops[k] == Stop(o.geodesy.orbitPoint(c.center, c.radius, c.direction, segments, k), LEVEL);
  }

  lemma OrbitPlaced(o: Options, entry: Entry, trace: Trace, segments: nat, items: seq<MissionItem>) returns (n: nat)
    requires entry.command.Orbit? && entry.command.turns > 0.0 && CompileEntry(o, trace, entry).Done?
    requires o.orbit == WaypointApproximation(segments) && segments > 0
    requires Spans(Items(trace), Items(CompileEntry(o, trace, entry).value), items, entry.commandId)
    ensures Circles(items, o, entry, segments, |Items(trace)|, n)
  {
    n := OrbitCount(entry.command.turns, segments);
    OrbitRounds(entry.command.turns, segments);
    PointsPlaced(o, entry, trace, segments, n, items);
  }

  /** A command refused by `rule` leaves one record. */
  lemma RefusalRecorded(plan: Plan, o: Options, entry: Entry, before: Trace, after: Trace, rule: UnsupportedRule)
    requires Placed(o, entry, before, after, OwnPrelude(plan, o), plan.items, plan.postlude, plan.unsupported)
    requires after == before + [Refusal(entry, rule)]
    ensures Recorded(plan, entry, rule, KindName(entry.command))
  {
    Snoc([], Refusal(entry, rule));
    assert after[|before|..] == [] + [Refusal(entry, rule)];
  }

  /** Without an approximation an orbit is not supported. */
  lemma OrbitFlown(plan: Plan, source: MissionPlan, o: Options, i: nat) returns (at: nat, n: nat)
    requires CompiledFrom(plan, source, o) && i < |source.commands| && source.commands[i].command.Orbit?
    ensures match o.orbit
            case WaypointApproximation(segments) => Circles(plan.items, o, source.commands[i], segments, at, n)
            case OrbitUnsupported => Recorded(plan, source.commands[i], OrbitRule, "orbit")
  {
    var before, after := Share(plan, source, o, i);
    at, n := |Items(before)|, 0;
    match o.orbit
    case WaypointApproximation(segments) =>
      n := OrbitPlaced(o, source.commands[i], before, segments, plan.items);
    case OrbitUnsupported => RefusalRecorded(plan, o, source.commands[i], before, after, OrbitRule);
  }

  /** A hold or loiter: one timed loiter where the item before it is, or else at the default
      position, or else one record of what is not supported. */
  ghost predicate Holds(plan: Plan, o: Options, entry: Entry, duration: real, rule: UnsupportedRule, kind: string,
                        at: nat)
  {
    var params := [Some(duration), Some(0.0), Some(0.0), Some(0.0)];
    if at > 0 then
      && Block(plan.items, entry.commandId, at, 1)
      && ItemAt(plan.items, at, entry, NavLoiterTime, Some(plan.items[at - 1].coordinate), params)
    else if o.defaultHold.Some? then
      && Block(plan.items, entry.commandId, 0, 1)
      && ItemAt(plan.items, 0, entry, NavLoiterTime, o.geodesy.convert(o.defaultHold.value), params)
    else Recorded(plan, entry, rule, kind)
  }

  lemma HoldPlaced(plan: Plan, o: Options, entry: Entry, trace: Trace, after: Trace, duration: real,
                   rule: UnsupportedRule)
    requires Placed(o, entry, trace, after, OwnPrelude(plan, o), plan.items, plan.postlude, plan.unsupported)
    requires EmitHold(o, trace, entry, duration, rule) == Done(after)
    ensures Holds(plan, o, entry, duration, rule, KindName(entry.command), |Items(trace)|)
  {
    var params := [Some(duration), Some(0.0), Some(0.0), Some(0.0)];
    var at, items := |Items(trace)|, Items(after);
    if Anchor(trace).Some? {
      OneItem(trace, entry, NavLoiterTime, Stop(Anchor(trace), params));
      ItemAtGrows(items, plan.items, at, entry, NavLoiterTime, Anchor(trace), params);
      assert plan.items[at - 1] == items[at - 1] == Items(trace)[at - 1];
    } else if o.defaultHold.Some? {
      var place := o.geodesy.convert(o.defaultHold.value);
      OneItem(trace, entry, NavLoiterTime, Stop(place, params));
      ItemAtGrows(items, plan.items, at, entry, NavLoiterTime, place, params);
    } else {
      RefusalRecorded(plan, o, entry, trace, after, rule);
    }
  }

  lemma HoldFlown(plan: Plan, source: MissionPlan, o: Options, i: nat) returns (at: nat)
    requires CompiledFrom(plan, source, o) && i < |source.commands| && source.commands[i].command.Hold?
    ensures Holds(plan, o, source.commands[i], source.commands[i].command.duration, HoldPositionRule, "hold", at)
  {
    var before, after := Share(plan, source, o, i);
    HoldPlaced(plan, o, source.commands[i], before, after, source.commands[i].command.duration, HoldPositionRule);
    at := |Items(before)|;
  }

  lemma LoiterFlown(plan: Plan, source: MissionPlan, o: Options, i: nat) returns (at: nat)
    requires CompiledFrom(plan, source, o) && i < |source.commands| && source.commands[i].command.LoiterTime?
    ensures Holds(plan, o, source.commands[i], source.commands[i].command.duration, LoiterPositionRule, "loiter_time",
                  at)
  {
    var before, after := Share(plan, source, o, i);
    HoldPlaced(plan, o, source.commands[i], before, after, source.commands[i].command.duration, LoiterPositionRule);
    at := |Items(before)|;
  }

  // ----- commands that stay commands -----

  ghost predicate EarlierId(entries: seq<Entry>, i: nat, id: string) {
    exists j :: 0 <= j < i && j < |entries| && entries[j].commandId == id
  }

  /** Some item comes from a command before command `i`. */
  ghost predicate ItemsBefore(items: seq<MissionItem>, entries: seq<Entry>, i: nat) {
    exists k :: 0 <= k < |items| && EarlierId(entries, i, items[k].commandId)
  }

  lemma {:induction false} ItemIdsEarlier(o: Options, entries: seq<Entry>, ts: seq<Trace>, n: nat, k: nat)
    requires Stages(o, entries, ts) && n <= |entries| && k < |Items(ts[n])|
    ensures EarlierId(entries, n, Items(ts[n])[k].commandId)
  {
    if n > 0 {
      assert StageAt(o, entries, ts, n - 1);
      if k < |Items(ts[n - 1])| {
        ItemIdsEarlier(o, entries, ts, n - 1, k);
      } else {
        assert entries[n - 1].commandId == Items(ts[n])[k].commandId;
      }
    }
  }

  /** An item of an earlier command was there when command `i` was come to. */
  lemma EarlierItem(o: Options, entries: seq<Entry>, ts: seq<Trace>, i: nat, k: nat)
    requires Stages(o, entries, ts) && DistinctIds(entries) && i < |entries|
    requires k < |Items(ts[|entries|])| && EarlierId(entries, i, Items(ts[|entries|])[k].commandId)
    ensures k < |Items(ts[i])|
  {
    var j: nat :| j < i && entries[j].commandId == Items(ts[|entries|])[k].commandId;
    BlockById(o, entries, ts, j, i);
    BlockById(o, entries, ts, j, |entries|);
  }

  /** There were items when command `i` was come to exactly when an earlier command has some. */
  lemma ItemsBeforeExactly(o: Options, entries: seq<Entry>, ts: seq<Trace>, i: nat)
    requires Stages(o, entries, ts) && DistinctIds(entries) && i < |entries|
    ensures Items(ts[i]) != [] <==> ItemsBefore(Items(ts[|entries|]), entries, i)
  {
    var before, items := Items(ts[i]), Items(ts[|entries|]);
    if before != [] {
      BlockById(o, entries, ts, i, |entries|);
      ItemIdsEarlier(o, entries, ts, i, 0);
      assert items[0] == before[0];
    }
    if k: nat :| k < |items| && EarlierId(entries, i, items[k].commandId) {
      EarlierItem(o, entries, ts, i, k);
    }
  }

  /** The command is in the prelude, or in the postlude, just once and as given. */
  ghost predicate Sent(plan: Plan, o: Options, entry: Entry, name: CommandName, params: Params, late: bool) {
    var id := entry.commandId;
    && CommandsWith(OwnPrelude(plan, o), id) ==
         (if late then [] else [CommonCommand(id, name, CommandPrelude, params)])
    && CommandsWith(plan.postlude, id) == if late then [CommonCommand(id, name, CommandPostlude, params)] else []
  }

  const NOTHING: Params := [Some(0.0), Some(0.0), Some(0.0), Some(0.0), Some(0.0), Some(0.0), Some(0.0)]

  /** What a command that is sent as it is asks for: arming is told from disarming by the first
      parameter, a takeoff has its altitude last, and return and abort are the same command. */
  ghost predicate SentAs(plan: Plan, o: Options, entry: Entry, late: bool) {
    match entry.command
    case Arm => Sent(plan, o, entry, ComponentArmDisarm, NOTHING[0 := Some(1.0)], false)
    case Disarm => Sent(plan, o, entry, ComponentArmDisarm, NOTHING[0 := Some(0.0)], false)
    case Takeoff(altitude) => Sent(plan, o, entry, NavTakeoff, NOTHING[3 := None][6 := Some(altitude)], false)
    case Land => Sent(plan, o, entry, NavLand, NOTHING[3 := None], late)
    case ReturnToLaunch => Sent(plan, o, entry, NavReturnToLaunch, NOTHING, late)
    case Abort => Sent(plan, o, entry, NavReturnToLaunch, NOTHING, late)
    case _ => true
  }

  lemma CommandPlaced(plan: Plan, o: Options, entry: Entry, trace: Trace, after: Trace)
    requires IsDirect(entry.command)
    requires Placed(o, entry, trace, after, OwnPrelude(plan, o), plan.items, plan.postlude, plan.unsupported)
    ensures SentAs(plan, o, entry, Items(trace) != [])
  {
    var e := DirectEmission(trace, entry);
    Snoc([], e);
    assert after[|trace|..] == [] + [e];
    assert NOTHING[0 := Some(0.0)] == NOTHING;
  }

  /** Arm, disarm and takeoff are sent in the prelude; land, return and abort in the postlude
      exactly when an earlier command has an item, and in the prelude otherwise. */
  lemma CommandSent(plan: Plan, source: MissionPlan, o: Options, i: nat)
    requires CompiledFrom(plan, source, o) && i < |source.commands|
    ensures SentAs(plan, o, source.commands[i], ItemsBefore(plan.items, source.commands, i))
  {
    if IsDirect(source.commands[i].command) {
      var ts := PlanStages(plan, source, o);
      TracePlaced(o, source.commands, ts, i);
      CommandPlaced(plan, o, source.commands[i], ts[i], ts[i + 1]);
      ItemsBeforeExactly(o, source.commands, ts, i);
    }
  }

  /** Pause and resume are never supported. */
  lemma PauseRecorded(plan: Plan, source: MissionPlan, o: Options, i: nat)
    requires CompiledFrom(plan, source, o) && i < |source.commands|
    ensures source.commands[i].command.Pause? ==> Recorded(plan, source.commands[i], PauseRule, "pause")
    ensures source.commands[i].command.Resume? ==> Recorded(plan, source.commands[i], ResumeRule, "resume")
  {
    var before, after := Share(plan, source, o, i);
    if source.commands[i].command.Pause? {
      RefusalRecorded(plan, o, source.commands[i], before, after, PauseRule);
    } else if source.commands[i].command.Resume? {
      RefusalRecorded(plan, o, source.commands[i], before, after, ResumeRule);
    }
  }

  // ----- the rest of the plan -----

  lemma UploadAck(prelude: seq<CommonCommand>, items: seq<MissionItem>, start: Option<CommonCommand>,
                  postlude: seq<CommonCommand>)
    requires ItemsNumbered(items)
    ensures var acks := ExpectedAcks(prelude, items, start, postlude);
            if items == [] then forall k :: 0 <= k < |acks| ==> acks[k].kind == CommandAck
            else
              && |prelude| < |acks|
              && acks[|prelude|] == ExpectedAck(MissionUpload, MissionAck, None, None, Some(|items| - 1))
  {
  }

  /** The mission is started, and its upload acknowledged by the number of its last item,
      exactly when there are items. */
  lemma MissionStarted(plan: Plan, source: MissionPlan, o: Options)
    requires CompiledFrom(plan, source, o)
    ensures plan.items == [] ==> plan.start.None? && forall k :: 0 <= k < |plan.expectedAcks| ==>
                                   plan.expectedAcks[k].kind == CommandAck
    ensures plan.items != [] ==>
              && plan.start == Some(CommonCommand("mission-start-0", MissionStart, StartPhase, NOTHING))
              && |plan.prelude| < |plan.expectedAcks|
              && plan.expectedAcks[|plan.prelude|] ==
                   ExpectedAck(MissionUpload, MissionAck, None, None, Some(|plan.items| - 1))
  {
    CompiledItemsNumbered(o, source.commands);
    UploadAck(plan.prelude, plan.items, plan.start, plan.postlude);
  }

  /** What is counted as required and missing: the unsupported commands, and the violations of a
      flight-controller contract that blocks. Names, fence and contract are passed on. */
  lemma RestOfPlan(plan: Plan, source: MissionPlan, o: Options)
    requires CompiledFrom(plan, source, o)
    ensures plan.unsupportedRequired ==
            |plan.unsupported| + match o.contract case Some(c) => (if c.blocksMissionStart then c.violations else 0)
                                                  case None => 0
    ensures plan.sourceMissionId == source.missionId && plan.backendProfile == o.profile
    ensures plan.contract == o.contract
    ensures match o.fence
            case Some(FenceCompiled(items, enable)) =>
              && plan.geofence == Some(items)
              && plan.prelude == (if enable then [CommonCommand("fence-enable-0", DoFenceEnable, CommandPrelude,
                                                                NOTHING[0 := Some(1.0)])] else [])
                                 + OwnPrelude(plan, o)
            case None => plan.geofence == None && plan.prelude == OwnPrelude(plan, o)
  {
    var trace := CompileEntries(o, source.commands).value;
    CompiledItemsNumbered(o, source.commands);
    CapabilityProfile.ProfileVerdicts(Draft(o, source.missionId, trace), o.profile);
  }

  /** The compatibility of a compiled plan: nothing is known of ArduPilot, the other profiles have
      caveats, and an empty plan is supported; hardware is allowed for PX4, and for ArduPilot
      only when there is nothing to do. */
  lemma CompatibilityExactly(plan: Plan, source: MissionPlan, o: Options)
    requires CompiledFrom(plan, source, o)
    ensures plan.compatibility.Some? && plan.compatibility.value.profile == o.profile
    ensures var empty := plan.prelude == [] && plan.items == [] && plan.postlude == [];
            && plan.compatibility.value.overall ==
                 (if empty then Supported
                  else if o.profile.ArduPilot? then UnknownUntilSitlOrHardware else SupportedWithCaveats)
            && (plan.compatibility.value.hardwareFacingAllowed <==>
                  o.profile.Px4? || (o.profile.ArduPilot? && empty))
  {
    var draft := Draft(o, source.missionId, CompileEntries(o, source.commands).value);
    CompiledItemsNumbered(o, source.commands);
    CapabilityProfile.ProfileAggregate(draft, o.profile);
  }

  // ----- what is refused -----

  /** How many items the command needs, given whether there are items already. */
  function Needs(o: Options, hasItems: bool, c: Command): nat {
    match c
    case GoTo(_) => 1
    case FollowRoute(waypoints) => |waypoints|
    case Hold(_) => if hasItems || o.defaultHold.Some? then 1 else 0
    case LoiterTime(_) => if hasItems || o.defaultHold.Some? then 1 else 0
    case Orbit(_, _, turns, _) =>
      if o.orbit.WaypointApproximation? then OrbitCount(turns, o.orbit.segmentsPerTurn) else 0
    case _ => 0
  }

  function NeedsAll(o: Options, entries: seq<Entry>): nat {
    if entries == [] then 0
    else
      var n := NeedsAll(o, entries[..|entries| - 1]);
      n + Needs(o, n > 0, entries[|entries| - 1].command)
  }

  /** Every position the command is to be flown at has a coordinate. */
  predicate Located(o: Options, hasItems: bool, c: Command) {
    match c
    case GoTo(position) => o.geodesy.convert(position).Some?
    case FollowRoute(waypoints) =>
      forall k :: 0 <= k < |waypoints| ==> o.geodesy.convert(waypoints[k].position).Some?
    case Hold(_) => hasItems || o.defaultHold.None? || o.geodesy.convert(o.defaultHold.value).Some?
    case LoiterTime(_) => hasItems || o.defaultHold.None? || o.geodesy.convert(o.defaultHold.value).Some?
    case Orbit(center, radius, _, direction) =>
      o.orbit.WaypointApproximation? ==>
        forall k: nat :: k < Needs(o, hasItems, c) ==>
          o.geodesy.orbitPoint(center, radius, direction, o.orbit.segmentsPerTurn, k).Some?
    case _ => true
  }

  /** The command can be located, and item numbers stay within 16 bits; an orbit by itself may
      not have more than 65535 points. */
  predicate Fits(o: Options, before: nat, c: Command) {
    && Located(o, before > 0, c) && before + Needs(o, before > 0, c) <= 65536
    && (c.Orbit? ==> Needs(o, before > 0, c) <= 65535)
  }

  predicate AllFit(o: Options, entries: seq<Entry>) {
    forall n :: 0 <= n < |entries| ==> Fits(o, NeedsAll(o, entries[..n]), entries[n].command)
  }

  predicate AllPlaced(stops: seq<Stop>) {
    forall k :: 0 <= k < |stops| ==> stops[k].at.Some?
  }

  lemma RouteLocated(g: Geodesy, waypoints: seq<Waypoint>)
    ensures AllPlaced(RouteStops(g, waypoints)) <==>
            forall k :: 0 <= k < |waypoints| ==> g.convert(waypoints[k].position).Some?
  {
    var stops := RouteStops(g, waypoints);
    assert forall k :: 0 <= k < |waypoints| ==> stops[k].at == g.convert(waypoints[k].position);
  }

  lemma OrbitLocated(g: Geodesy, center: Position, radius: real, direction: Direction, segments: nat, n: nat)
    ensures AllPlaced(OrbitStops(g, center, radius, direction, segments, n)) <==>
            forall k: nat :: k < n ==> g.orbitPoint(center, radius, direction, segments, k).Some?
  {
    var stops := OrbitStops(g, center, radius, direction, segments, n);
    assert forall k: nat :: k < n ==> stops[k].at == g.orbitPoint(center, radius, direction, segments, k);
  }

  lemma {:induction false} StopsFit(trace: Trace, entry: Entry, name: CommandName, stops: seq<Stop>)
    requires |Items(trace)| <= 65536
    ensures EmitItems(trace, entry, name, stops).Done? <==>
            |Items(trace)| + |stops| <= 65536 && AllPlaced(stops)
    ensures var r := EmitItems(trace, entry, name, stops);
            if r.Done? then |Items(r.value)| == |Items(trace)| + |stops|
            else
              || (r.error == CoordinateFailure && !AllPlaced(stops))
              || (r.error == TooManyMissionItems(65537) && |Items(trace)| + |stops| > 65536)
  {
    if stops != [] {
      var init, last := stops[..|stops| - 1], stops[|stops| - 1];
      StopsFit(trace, entry, name, init);
      assert forall k :: 0 <= k < |init| ==> stops[k] == init[k];
      if EmitItems(trace, entry, name, stops).Done? {
        OneItem(EmitItems(trace, entry, name, init).value, entry, name, last);
      }
    }
  }

  lemma ItemFits(trace: Trace, entry: Entry, name: CommandName, stop: Stop)
    ensures match EmitItem(trace, entry, name, stop)
            case Done(t) => stop.at.Some? && |Items(t)| == |Items(trace)| + 1 && |Items(trace)| <= 65535
            case Refused(error) =>
              || (error == CoordinateFailure && stop.at.None?)
              || (error == TooManyMissionItems(|Items(trace)| + 1) && |Items(trace)| > 65535)
  {
    if EmitItem(trace, entry, name, stop).Done? {
      OneItem(trace, entry, name, stop);
    }
  }

  /** What is said of a command that does not fit. */
  predicate Misfit(o: Options, before: nat, c: Command, error: Error) {
    var needs := Needs(o, before > 0, c);
    || (error == CoordinateFailure && !Located(o, before > 0, c))
    || (error == TooManyMissionItems(65537) && before + needs > 65536)
    || (error == TooManyMissionItems(needs) && c.Orbit? && needs > 65535)
  }

  /** The command compiles exactly when it fits, and then gets the items it needs. */
  ghost predicate DoneIfFit(o: Options, trace: Trace, c: Command, r: Outcome<Trace>) {
    && (r.Done? <==> Fits(o, |Items(trace)|, c))
    && if r.Done? then |Items(r.value)| == |Items(trace)| + Needs(o, |Items(trace)| > 0, c)
       else Misfit(o, |Items(trace)|, c, r.error)
  }

  lemma OrbitFits(o: Options, trace: Trace, entry: Entry)
    requires |Items(trace)| <= 65536 && entry.command.Orbit?
    ensures DoneIfFit(o, trace, entry.command, CompileEntry(o, trace, entry))
  {
    var c := entry.command;
    match o.orbit
    case WaypointApproximation(segments) =>
      var n := OrbitCount(c.turns, segments);
      StopsFit(trace, entry, NavWaypoint, OrbitStops(o.geodesy, c.center, c.radius, c.direction, segments, n));
      OrbitLocated(o.geodesy, c.center, c.radius, c.direction, segments, n);
    case OrbitUnsupported => Snoc(trace, Refusal(entry, OrbitRule));
  }

  lemma HoldItems(o: Options, trace: Trace, entry: Entry, duration: real, rule: UnsupportedRule)
    ensures var at := |Items(trace)|;
            var here := at > 0 || o.defaultHold.None? || o.geodesy.convert(o.defaultHold.value).Some?;
            var n := if at > 0 || o.defaultHold.Some? then 1 else 0;
            match EmitHold(o, trace, entry, duration, rule)
            case Done(t) => here && |Items(t)| == at + n && (n == 1 ==> at <= 65535)
            case Refused(error) =>
              (error == CoordinateFailure && !here) || (error == TooManyMissionItems(at + 1) && n == 1 && at > 65535)
  {
    var params := [Some(duration), Some(0.0), Some(0.0), Some(0.0)];
    if Anchor(trace).Some? {
      ItemFits(trace, entry, NavLoiterTime, Stop(Anchor(trace), params));
    } else if o.defaultHold.Some? {
      ItemFits(trace, entry, NavLoiterTime, Stop(o.geodesy.convert(o.defaultHold.value), params));
    } else {
      Snoc(trace, Refusal(entry, rule));
    }
  }

  lemma HoldFits(o: Options, trace: Trace, entry: Entry)
    requires |Items(trace)| <= 65536 && entry.command.Hold?
    ensures DoneIfFit(o, trace, entry.command, CompileEntry(o, trace, entry))
  {
    HoldItems(o, trace, entry, entry.command.duration, HoldPositionRule);
  }

  lemma LoiterFits(o: Options, trace: Trace, entry: Entry)
    requires |Items(trace)| <= 65536 && entry.command.LoiterTime?
    ensures DoneIfFit(o, trace, entry.command, CompileEntry(o, trace, entry))
  {
    HoldItems(o, trace, entry, entry.command.duration, LoiterPositionRule);
  }

  lemma RouteFits(o: Options, trace: Trace, entry: Entry)
    requires |Items(trace)| <= 65536 && entry.command.FollowRoute?
    ensures DoneIfFit(o, trace, entry.command, CompileEntry(o, trace, entry))
  {
    StopsFit(trace, entry, NavWaypoint, RouteStops(o.geodesy, entry.command.waypoints));
    RouteLocated(o.geodesy, entry.command.waypoints);
  }

  lemma GoToFits(o: Options, trace: Trace, entry: Entry)
    requires |Items(trace)| <= 65536 && entry.command.GoTo?
    ensures DoneIfFit(o, trace, entry.command, CompileEntry(o, trace, entry))
  {
    ItemFits(trace, entry, NavWaypoint, Stop(o.geodesy.convert(entry.command.position), LEVEL));
  }

  lemma DirectFits(o: Options, trace: Trace, entry: Entry)
    requires |Items(trace)| <= 65536 && IsDirect(entry.command)
    ensures DoneIfFit(o, trace, entry.command, CompileEntry(o, trace, entry))
  {
    Snoc(trace, DirectEmission(trace, entry));
  }

  lemma PauseFits(o: Options, trace: Trace, entry: Entry)
    requires |Items(trace)| <= 65536 && (entry.command.Pause? || entry.command.Resume?)
    ensures DoneIfFit(o, trace, entry.command, CompileEntry(o, trace, entry))
  {
    Snoc(trace, Refusal(entry, if entry.command.Pause? then PauseRule else ResumeRule));
  }

  lemma EntryFits(o: Options, trace: Trace, entry: Entry)
    requires |Items(trace)| <= 65536
    ensures DoneIfFit(o, trace, entry.command, CompileEntry(o, trace, entry))
  {
    if entry.command.FollowRoute? {
      RouteFits(o, trace, entry);
    } else if entry.command.Orbit? {
      OrbitFits(o, trace, entry);
    } else if entry.command.Hold? {
      HoldFits(o, trace, entry);
    } else if entry.command.LoiterTime? {
      LoiterFits(o, trace, entry);
    } else if entry.command.GoTo? {
      GoToFits(o, trace, entry);
    } else if IsDirect(entry.command) {
      DirectFits(o, trace, entry);
    } else {
      PauseFits(o, trace, entry);
    }
  }

  /** The commands compile exactly when each of them fits, and then need the items they get;
      otherwise the error is about a command that does not fit. */
  lemma {:induction false} CompilesExactly(o: Options, entries: seq<Entry>)
    ensures CompileEntries(o, entries).Done? <==> AllFit(o, entries)
    ensures match CompileEntries(o, entries)
            case Done(trace) => |Items(trace)| == NeedsAll(o, entries) <= 65536
            case Refused(error) => SomeMisfit(o, entries, error)
  {
    if entries != [] {
      var init, last := entries[..|entries| - 1], entries[|entries| - 1];
      CompilesExactly(o, init);
      AllFitSnoc(o, entries);
      if CompileEntries(o, init).Done? {
        EntryFits(o, CompileEntries(o, init).value, last);
        assert entries[..|init|] == init;
      } else {
        MisfitStays(o, entries, CompileEntries(o, init).error);
      }
    }
  }

  ghost predicate SomeMisfit(o: Options, entries: seq<Entry>, error: Error) {
    exists n :: 0 <= n < |entries| && Misfit(o, NeedsAll(o, entries[..n]), entries[n].command, error)
  }

  lemma MisfitStays(o: Options, entries: seq<Entry>, error: Error)
    requires entries != [] && SomeMisfit(o, entries[..|entries| - 1], error)
    ensures SomeMisfit(o, entries, error)
  {
    var init := entries[..|entries| - 1];
    var n :| 0 <= n < |init| && Misfit(o, NeedsAll(o, init[..n]), init[n].command, error);
    assert init[..n] == entries[..n] && init[n] == entries[n];
  }

  lemma AllFitSnoc(o: Options, entries: seq<Entry>)
    requires entries != []
    ensures var n := |entries| - 1;
            AllFit(o, entries) <==> AllFit(o, entries[..n]) && Fits(o, NeedsAll(o, entries[..n]), entries[n].command)
  {
    var n := |entries| - 1;
    assert forall k :: 0 <= k < n ==> entries[..n][..k] == entries[..k] && entries[..n][k] == entries[k];
  }
}
