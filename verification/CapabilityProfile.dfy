/** Classification of a compiled plan against a capability profile. */
module CapabilityProfile {
  import opened Basics
  import opened CommonPlan

  datatype Rule = Rule(command: CommandName, classification: CompatibilityClass)

  datatype Profile = Profile(id: ProfileId, frames: seq<Frame>, rules: seq<Rule>)

  function Rank(c: CompatibilityClass): (r: nat)
    ensures r <= 5
  {
    match c
    case Supported => 0
    case SupportedViaFallback => 1
    case SupportedWithCaveats => 2
    case RequiresStackSpecificMapping => 3
    case UnknownUntilSitlOrHardware => 4
    case NotSupported => 5
  }

  function MaxClass(a: CompatibilityClass, b: CompatibilityClass): CompatibilityClass {
    if Rank(a) >= Rank(b) then a else b
  }

  predicate Blocks(c: CompatibilityClass) {
    c.NotSupported? || c.UnknownUntilSitlOrHardware? || c.RequiresStackSpecificMapping?
  }

  function FindRule(rules: seq<Rule>, c: CommandName): Option<Rule> {
    if rules == [] then None else if rules[0].command == c then Some(rules[0]) else FindRule(rules[1..], c)
  }

  function RuleClass(profile: Profile, c: CommandName): CompatibilityClass {
    match FindRule(profile.rules, c)
    case None => NotSupported
    case Some(rule) => rule.classification
  }

  function ClassifyCommand(c: CommonCommand, profile: Profile): Row {
    Row(Some(c.commandId), None, c.command, c.phase, None, RuleClass(profile, c.command))
  }

  function ClassifyItem(item: MissionItem, profile: Profile): Row {
    var class_ :=
      if item.frame !in profile.frames then NotSupported
      else if item.command.NavWaypoint? && "orbit" <= item.commandId then
        MaxClass(RuleClass(profile, item.command), SupportedViaFallback)
      else RuleClass(profile, item.command);
    Row(Some(item.commandId), Some(item.seqNo), item.command, MissionUpload, Some(item.frame), class_)
  }

  function CommandRows(commands: seq<CommonCommand>, profile: Profile): (r: seq<Row>)
    ensures |r| == |commands|
  {
    seq(|commands|, i requires 0 <= i < |commands| => ClassifyCommand(commands[i], profile))
  }

  function ItemRows(items: seq<MissionItem>, profile: Profile): (r: seq<Row>)
    ensures |r| == |items|
  {
    seq(|items|, i requires 0 <= i < |items| => ClassifyItem(items[i], profile))
  }

  function AllRows(plan: Plan, profile: Profile): seq<Row> {
    CommandRows(plan.prelude, profile) + ItemRows(plan.items, profile)
    + (if plan.start.Some? then [ClassifyCommand(plan.start.value, profile)] else [])
    + CommandRows(plan.postlude, profile)
  }

  /** Highest rank among the rows, `Supported` when there is none. */
  function Aggregate(rows: seq<Row>): CompatibilityClass {
    if rows == [] then Supported else MaxClass(Aggregate(rows[..|rows| - 1]), rows[|rows| - 1].classification)
  }

  predicate AnyBlocks(rows: seq<Row>) {
    exists i :: 0 <= i < |rows| && Blocks(rows[i].classification)
  }

  function CountNotSupported(rows: seq<Row>): (n: nat)
    ensures n == 0 <==> forall i :: 0 <= i < |rows| ==> !rows[i].classification.NotSupported?
  {
    if rows == [] then 0
    else
      var last := rows[|rows| - 1];
      assert forall i :: 0 <= i < |rows| - 1 ==> rows[..|rows| - 1][i] == rows[i];
      CountNotSupported(rows[..|rows| - 1]) + if last.classification.NotSupported? then 1 else 0
  }

  /** The blocking classes are exactly the ones of rank three and more, so the aggregate blocks
      exactly when some row does. */
  lemma {:induction false} AggregateBlocks(rows: seq<Row>)
    ensures Blocks(Aggregate(rows)) <==> AnyBlocks(rows)
    ensures forall i :: 0 <= i < |rows| ==> Rank(rows[i].classification) <= Rank(Aggregate(rows))
    ensures rows != [] ==>
              exists i :: 0 <= i < |rows| &&
                (Rank(rows[i].classification) == Rank(Aggregate(rows)) || Aggregate(rows).Supported?)
  {
    if rows != [] {
      var init, last := rows[..|rows| - 1], rows[|rows| - 1];
      AggregateBlocks(init);
      assert forall i :: 0 <= i < |init| ==> rows[i] == init[i];
      assert rows[|rows| - 1] == last;
      if AnyBlocks(init) {
        var i :| 0 <= i < |init| && Blocks(init[i].classification);
        assert Blocks(rows[i].classification);
      }
    }
  }

  predicate Occurs(rows: seq<Row>, c: CompatibilityClass) {
    exists i :: 0 <= i < |rows| && rows[i].classification == c
  }

  /** The aggregate is the worst class that occurs. */
  lemma {:induction false} WorstExactly(rows: seq<Row>)
    ensures Aggregate(rows) ==
            if Occurs(rows, NotSupported) then NotSupported
            else if Occurs(rows, UnknownUntilSitlOrHardware) then UnknownUntilSitlOrHardware
            else if Occurs(rows, RequiresStackSpecificMapping) then RequiresStackSpecificMapping
            else if Occurs(rows, SupportedWithCaveats) then SupportedWithCaveats
            else if Occurs(rows, SupportedViaFallback) then SupportedViaFallback
            else Supported
  {
    if rows != [] {
      var init, last := rows[..|rows| - 1], rows[|rows| - 1];
      WorstExactly(init);
      forall c ensures Occurs(rows, c) <==> Occurs(init, c) || last.classification == c {
        assert forall i :: 0 <= i < |init| ==> rows[i] == init[i];
        assert rows[|init|] == last;
      }
    }
  }

  /** The class of the first rule for the command; without a rule it is not supported. */
  ghost predicate RuleIs(profile: Profile, c: CommandName, class_: CompatibilityClass) {
    || (exists k :: 0 <= k < |profile.rules| && profile.rules[k] == Rule(c, class_)
                    && forall j :: 0 <= j < k ==> profile.rules[j].command != c)
    || ((forall j :: 0 <= j < |profile.rules| ==> profile.rules[j].command != c) && class_ == NotSupported)
  }

  lemma {:induction false} FirstRule(rules: seq<Rule>, c: CommandName, k: nat)
    requires k <= |rules| && forall j :: 0 <= j < k ==> rules[j].command != c
    requires k < |rules| ==> rules[k].command == c
    ensures FindRule(rules, c) == if k < |rules| then Some(rules[k]) else None
  {
    if k > 0 {
      FirstRule(rules[1..], c, k - 1);
    }
  }

  lemma RuleExactly(profile: Profile, c: CommandName, class_: CompatibilityClass)
    requires RuleIs(profile, c, class_)
    ensures RuleClass(profile, c) == class_
  {
    if k :| 0 <= k < |profile.rules| && profile.rules[k] == Rule(c, class_)
            && forall j :: 0 <= j < k ==> profile.rules[j].command != c {
      FirstRule(profile.rules, c, k);
    } else {
      FirstRule(profile.rules, c, |profile.rules|);
    }
  }

  predicate IsOrbit(id: string) {
    |id| >= 5 && id[..5] == "orbit"
  }

  /** For any profile: an item in a frame it does not list is not supported; otherwise the rule
      decides, but the waypoints of an approximated orbit are at best a fallback. */
  lemma ItemClassified(item: MissionItem, profile: Profile, class_: CompatibilityClass)
    requires RuleIs(profile, item.command, class_)
    ensures ClassifyItem(item, profile).classification ==
            if !exists k :: 0 <= k < |profile.frames| && profile.frames[k] == item.frame then NotSupported
            else if item.command == NavWaypoint && IsOrbit(item.commandId) && class_ == Supported
            then SupportedViaFallback else class_
  {
    RuleExactly(profile, item.command, class_);
    assert "orbit" <= item.commandId <==> IsOrbit(item.commandId);
  }

  function Report(plan: Plan, profile: Profile): CompatibilityReport {
    var rows := AllRows(plan, profile);
    CompatibilityReport(profile.id, Aggregate(rows), profile.id != MavlinkCommonGeneric && !AnyBlocks(rows), rows)
  }

  method ClassifyCommands(commands: seq<CommonCommand>, profile: Profile, before: seq<Row>) returns (rows: seq<Row>)
    ensures rows == before + CommandRows(commands, profile)
  {
    rows := before;
    for k := 0 to |commands|
      invariant rows == before + CommandRows(commands[..k], profile)
    {
      assert CommandRows(commands[..k + 1], profile) ==
             CommandRows(commands[..k], profile) + [ClassifyCommand(commands[k], profile)];
      rows := rows + [ClassifyCommand(commands[k], profile)];
    }
    assert commands[..|commands|] == commands;
  }

  method ClassifyItems(items: seq<MissionItem>, profile: Profile, before: seq<Row>) returns (rows: seq<Row>)
    ensures rows == before + ItemRows(items, profile)
  {
    rows := before;
    for k := 0 to |items|
      invariant rows == before + ItemRows(items[..k], profile)
    {
      assert ItemRows(items[..k + 1], profile) == ItemRows(items[..k], profile) + [ClassifyItem(items[k], profile)];
      rows := rows + [ClassifyItem(items[k], profile)];
    }
    assert items[..|items|] == items;
  }

  method AggregateClass(rows: seq<Row>) returns (overall: CompatibilityClass)
    ensures overall == Aggregate(rows)
  {
    overall := Supported;
    for k := 0 to |rows|
      invariant overall == Aggregate(rows[..k])
    {
      assert rows[..k + 1][..k] == rows[..k];
      overall := MaxClass(overall, rows[k].classification);
    }
    assert rows[..|rows|] == rows;
  }

  /** Classify every element of the plan. Hardware-facing use is allowed exactly for a
      non-generic profile whose aggregate class does not block. */
  method Classify(plan: Plan, profile: Profile) returns (r: CompatibilityReport)
    ensures r == Report(plan, profile)
    ensures r.hardwareFacingAllowed <==> profile.id != MavlinkCommonGeneric && !Blocks(r.overall)
  {
    var rows := ClassifyCommands(plan.prelude, profile, []);
    rows := ClassifyItems(plan.items, profile, rows);
    if plan.start.Some? {
      rows := rows + [ClassifyCommand(plan.start.value, profile)];
    }
    rows := ClassifyCommands(plan.postlude, profile, rows);
    assert rows == AllRows(plan, profile);
    var overall := AggregateClass(rows);
    AggregateBlocks(rows);
    r := CompatibilityReport(profile.id, overall, profile.id != MavlinkCommonGeneric && !AnyBlocks(rows), rows);
  }

  // ----- the three profiles -----

  const COMMANDS: seq<CommandName> :=
    [ComponentArmDisarm, NavTakeoff, NavLand, NavReturnToLaunch, NavWaypoint, NavLoiterTime, MissionStart,
     FenceCircleInclusion, FenceCircleExclusion, FencePolygonVertexInclusion, FencePolygonVertexExclusion,
     DoFenceEnable]

  /** A table that gives every command the same class. */
  function UniformRules(c: CompatibilityClass): (r: seq<Rule>)
    ensures |r| == |COMMANDS| && forall i :: 0 <= i < |r| ==> r[i] == Rule(COMMANDS[i], c)
  {
    seq(|COMMANDS|, i requires 0 <= i < |COMMANDS| => Rule(COMMANDS[i], c))
  }

  function ProfileFor(id: ProfileId): Profile {
    match id
    case MavlinkCommonGeneric =>
      Profile(MavlinkCommonGeneric, [GlobalRelativeAltInt], UniformRules(SupportedWithCaveats))
    case Px4 => Profile(Px4, [GlobalRelativeAltInt], UniformRules(SupportedWithCaveats))
    case ArduPilot => Profile(ArduPilot, [GlobalRelativeAltInt], UniformRules(UnknownUntilSitlOrHardware))
  }

  lemma {:induction false} UniformClass(rules: seq<Rule>, class_: CompatibilityClass, c: CommandName)
    requires forall i :: 0 <= i < |rules| ==> rules[i].classification == class_
    requires exists i :: 0 <= i < |rules| && rules[i].command == c
    ensures FindRule(rules, c) == Some(Rule(c, class_))
  {
    if rules[0].command != c {
      UniformClass(rules[1..], class_, c);
    }
  }

  lemma EveryCommandListed(c: CommandName)
    ensures c in COMMANDS
  {
    match c
    case ComponentArmDisarm => assert COMMANDS[0] == c;
    case NavTakeoff => assert COMMANDS[1] == c;
    case NavLand => assert COMMANDS[2] == c;
    case NavReturnToLaunch => assert COMMANDS[3] == c;
    case NavWaypoint => assert COMMANDS[4] == c;
    case NavLoiterTime => assert COMMANDS[5] == c;
    case MissionStart => assert COMMANDS[6] == c;
    case FenceCircleInclusion => assert COMMANDS[7] == c;
    case FenceCircleExclusion => assert COMMANDS[8] == c;
    case FencePolygonVertexInclusion => assert COMMANDS[9] == c;
    case FencePolygonVertexExclusion => assert COMMANDS[10] == c;
    case DoFenceEnable => assert COMMANDS[11] == c;
  }

  lemma TableGives(class_: CompatibilityClass, c: CommandName)
    ensures FindRule(UniformRules(class_), c) == Some(Rule(c, class_))
  {
    var rules := UniformRules(class_);
    EveryCommandListed(c);
    var i :| 0 <= i < |COMMANDS| && COMMANDS[i] == c;
    assert rules[i].command == c;
    UniformClass(rules, class_, c);
  }

  /** With all items in the usual frame every row has the one class of its profile. */
  lemma RowsUniform(plan: Plan, id: ProfileId)
    requires forall i :: 0 <= i < |plan.items| ==> plan.items[i].frame == GlobalRelativeAltInt
    ensures var rows := AllRows(plan, ProfileFor(id));
            forall i :: 0 <= i < |rows| ==>
              rows[i].classification == if id.ArduPilot? then UnknownUntilSitlOrHardware else SupportedWithCaveats
  {
    var profile := ProfileFor(id);
    var class_ := if id.ArduPilot? then UnknownUntilSitlOrHardware else SupportedWithCaveats;
    var rows := AllRows(plan, profile);
    forall i | 0 <= i < |rows| ensures rows[i].classification == class_ {
      TableGives(class_, rows[i].command);
      RowClass(plan, profile, class_, i);
    }
  }

  /** So no element of a plan is refused outright, and a row blocks exactly under the ArduPilot
      profile. */
  lemma ProfileVerdicts(plan: Plan, id: ProfileId)
    requires forall i :: 0 <= i < |plan.items| ==> plan.items[i].frame == GlobalRelativeAltInt
    ensures CountNotSupported(AllRows(plan, ProfileFor(id))) == 0
    ensures AnyBlocks(AllRows(plan, ProfileFor(id))) <==> id.ArduPilot? && AllRows(plan, ProfileFor(id)) != []
  {
    RowsUniform(plan, id);
    var rows := AllRows(plan, ProfileFor(id));
    if id.ArduPilot? && rows != [] {
      assert Blocks(rows[0].classification);
    }
  }

  lemma {:induction false} UniformAggregate(rows: seq<Row>, class_: CompatibilityClass)
    requires forall i :: 0 <= i < |rows| ==> rows[i].classification == class_
    ensures Aggregate(rows) == if rows == [] then Supported else class_
  {
    if rows != [] {
      UniformAggregate(rows[..|rows| - 1], class_);
    }
  }

  lemma ProfileAggregate(plan: Plan, id: ProfileId)
    requires forall i :: 0 <= i < |plan.items| ==> plan.items[i].frame == GlobalRelativeAltInt
    requires plan.start.Some? ==> plan.items != []
    ensures var empty := plan.prelude == [] && plan.items == [] && plan.postlude == [];
            var report := Report(plan, ProfileFor(id));
            && report.profile == id && (report.rows == [] <==> empty)
            && report.overall == (if empty then Supported
                                  else if id.ArduPilot? then UnknownUntilSitlOrHardware else SupportedWithCaveats)
            && (report.hardwareFacingAllowed <==> id.Px4? || (id.ArduPilot? && empty))
  {
    RowsUniform(plan, id);
    ProfileVerdicts(plan, id);
    UniformAggregate(AllRows(plan, ProfileFor(id)),
                     if id.ArduPilot? then UnknownUntilSitlOrHardware else SupportedWithCaveats);
  }

  lemma RowClass(plan: Plan, profile: Profile, class_: CompatibilityClass, i: nat)
    requires profile.frames == [GlobalRelativeAltInt] && Rank(class_) >= 1 && i < |AllRows(plan, profile)|
    requires forall k :: 0 <= k < |plan.items| ==> plan.items[k].frame == GlobalRelativeAltInt
    requires RuleClass(profile, AllRows(plan, profile)[i].command) == class_
    ensures AllRows(plan, profile)[i].classification == class_
  {
    var p, m := |plan.prelude|, |plan.items|;
    var row := AllRows(plan, profile)[i];
    if p <= i < p + m {
      assert row == ClassifyItem(plan.items[i - p], profile);
    } else if i < p {
      assert row == ClassifyCommand(plan.prelude[i], profile);
    } else if plan.start.Some? && i == p + m {
      assert row == ClassifyCommand(plan.start.value, profile);
    } else {
      var s := if plan.start.Some? then 1 else 0;
      assert row == ClassifyCommand(plan.postlude[i - p - m - s], profile);
    }
  }
}
