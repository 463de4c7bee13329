/** The independent checks of a compiled plan, and which compiled plans pass them. */
module PlanChecks {
  import opened Basics
  import opened MissionIr
  import opened CommonPlan
  import opened PlanCompiler
  import opened MavlinkCompiler
  import CapabilityProfile

  datatype PlanFinding =
    | ItemSequence
    | AckMissing
    | ProfileMissing
    | ProfileMismatch
    | RowCount
    | RowMismatch
    | ProfileUnsupported
    | HardwareBlocking
    | OrderUnsafe

  // ----- the checks, as properties -----

  predicate SequenceOk(plan: Plan) {
    forall i :: 0 <= i < |plan.items| ==> plan.items[i].seqNo == i
  }

  predicate CommandCovered(acks: seq<ExpectedAck>, c: CommonCommand) {
    exists i :: 0 <= i < |acks| && acks[i].kind.CommandAck?
             && acks[i].commandId == Some(c.commandId) && acks[i].command == Some(c.command)
  }

  predicate AllCovered(acks: seq<ExpectedAck>, commands: seq<CommonCommand>) {
    forall i :: 0 <= i < |commands| ==> CommandCovered(acks, commands[i])
  }

  predicate UploadCovered(acks: seq<ExpectedAck>) {
    exists i :: 0 <= i < |acks| && acks[i].kind.MissionAck?
  }

  predicate AcksOk(plan: Plan) {
    && AllCovered(plan.expectedAcks, plan.prelude) && AllCovered(plan.expectedAcks, plan.postlude)
    && (plan.items != [] ==> UploadCovered(plan.expectedAcks))
    && (plan.start.Some? ==> CommandCovered(plan.expectedAcks, plan.start.value))
  }

  /** What a row must say about a plan element, derived from the plan alone. */
  datatype Expected = Expected(commandId: string, seqNo: Option<nat>, command: CommandName, phase: Phase,
                               frame: Option<Frame>)

  function ExpectedCommand(c: CommonCommand): Expected {
    Expected(c.commandId, None, c.command, c.phase, None)
  }

  function ExpectedItem(i: MissionItem): Expected {
    Expected(i.commandId, Some(i.seqNo), i.command, MissionUpload, Some(i.frame))
  }

  function ExpectedCommands(commands: seq<CommonCommand>): (r: seq<Expected>)
    ensures |r| == |commands|
  {
    seq(|commands|, i requires 0 <= i < |commands| => ExpectedCommand(commands[i]))
  }

  function ExpectedItems(items: seq<MissionItem>): (r: seq<Expected>)
    ensures |r| == |items|
  {
    seq(|items|, i requires 0 <= i < |items| => ExpectedItem(items[i]))
  }

  function ExpectedRows(plan: Plan): seq<Expected> {
    ExpectedCommands(plan.prelude) + ExpectedItems(plan.items)
    + (if plan.start.Some? then [ExpectedCommand(plan.start.value)] else [])
    + ExpectedCommands(plan.postlude)
  }

  predicate RowMatches(row: Row, e: Expected) {
    && row.commandId == Some(e.commandId) && row.seqNo == e.seqNo && row.command == e.command
    && row.phase == e.phase && row.frame == e.frame
  }

  predicate RowsMatch(rows: seq<Row>, expected: seq<Expected>) {
    forall i :: 0 <= i < |rows| && i < |expected| ==> RowMatches(rows[i], expected[i])
  }

  function RowFindings(plan: Plan, report: CompatibilityReport): set<PlanFinding> {
    (if plan.backendProfile != report.profile then {ProfileMismatch} else {})
    + (if |report.rows| != |ExpectedRows(plan)| then {RowCount} else {})
    + (if !RowsMatch(report.rows, ExpectedRows(plan)) then {RowMismatch} else {})
    + (if exists i :: 0 <= i < |report.rows| && report.rows[i].classification.NotSupported?
       then {ProfileUnsupported} else {})
    + (if CapabilityProfile.AnyBlocks(report.rows) && report.hardwareFacingAllowed then {HardwareBlocking} else {})
  }

  function CompatibilityFindings(plan: Plan): set<PlanFinding> {
    match plan.compatibility
    case None => {ProfileMissing}
    case Some(report) => RowFindings(plan, report)
  }

  predicate IsLanding(c: CommonCommand) {
    c.command.NavLand? || c.command.NavReturnToLaunch?
  }

  predicate AnyLanding(commands: seq<CommonCommand>) {
    exists i :: 0 <= i < |commands| && IsLanding(commands[i])
  }

  /** A plan with items must not land before flying them. */
  predicate OrderOk(plan: Plan) {
    plan.items == [] || !AnyLanding(plan.prelude)
  }

  // ----- the checks, as the validator runs them -----

  method CheckSequence(plan: Plan) returns (ok: bool)
    ensures ok <==> SequenceOk(plan)
  {
    ok := true;
    for k := 0 to |plan.items|
      invariant ok <==> forall i :: 0 <= i < k ==> plan.items[i].seqNo == i
    {
      if plan.items[k].seqNo != k {
        ok := false;
      }
    }
  }

  method CheckCovered(acks: seq<ExpectedAck>, commands: seq<CommonCommand>) returns (ok: bool)
    ensures ok <==> AllCovered(acks, commands)
  {
    ok := true;
    for k := 0 to |commands|
      invariant ok <==> forall i :: 0 <= i < k ==> CommandCovered(acks, commands[i])
    {
      if !CommandCovered(acks, commands[k]) {
        ok := false;
      }
    }
  }

  method CheckAcks(plan: Plan) returns (ok: bool)
    ensures ok <==> AcksOk(plan)
  {
    var first := CheckCovered(plan.expectedAcks, plan.prelude);
    var last := CheckCovered(plan.expectedAcks, plan.postlude);
    ok := first && last;
    if plan.items != [] && !UploadCovered(plan.expectedAcks) {
      ok := false;
    }
    if plan.start.Some? && !CommandCovered(plan.expectedAcks, plan.start.value) {
      ok := false;
    }
  }

  method CheckRows(rows: seq<Row>, expected: seq<Expected>) returns (ok: bool)
    ensures ok <==> RowsMatch(rows, expected)
  {
    ok := true;
    for k := 0 to |expected|
      invariant ok <==> forall i :: 0 <= i < k && i < |rows| ==> RowMatches(rows[i], expected[i])
    {
      if k >= |rows| {
        break;
      }
      if !RowMatches(rows[k], expected[k]) {
        ok := false;
      }
    }
  }

  method CheckCompatibility(plan: Plan) returns (findings: set<PlanFinding>)
    ensures findings == CompatibilityFindings(plan)
  {
    if plan.compatibility.None? {
      return {ProfileMissing};
    }
    var report := plan.compatibility.value;
    findings := if plan.backendProfile != report.profile then {ProfileMismatch} else {};
    var expected := ExpectedRows(plan);
    if |report.rows| != |expected| {
      findings := findings + {RowCount};
    }
    var match_ := CheckRows(report.rows, expected);
    if !match_ {
      findings := findings + {RowMismatch};
    }
    if exists i :: 0 <= i < |report.rows| && report.rows[i].classification.NotSupported? {
      findings := findings + {ProfileUnsupported};
    }
    if CapabilityProfile.AnyBlocks(report.rows) && report.hardwareFacingAllowed {
      findings := findings + {HardwareBlocking};
    }
  }

  function Findings(plan: Plan): set<PlanFinding> {
    (if !SequenceOk(plan) then {ItemSequence} else {})
    + (if !OrderOk(plan) then {OrderUnsafe} else {})
    + (if !AcksOk(plan) then {AckMissing} else {})
    + CompatibilityFindings(plan)
  }

  method ValidatePlan(plan: Plan) returns (findings: set<PlanFinding>)
    ensures findings == Findings(plan)
  {
    var sequence := CheckSequence(plan);
    findings := if !sequence then {ItemSequence} else {};
    if !OrderOk(plan) {
      findings := findings + {OrderUnsafe};
    }
    var acks := CheckAcks(plan);
    if !acks {
      findings := findings + {AckMissing};
    }
    var rows := CheckCompatibility(plan);
    findings := findings + rows;
  }

  // ----- compiled plans pass -----

  lemma AckAt(acks: seq<ExpectedAck>, i: nat, c: CommonCommand, phase: Phase)
    requires i < |acks| && acks[i] == CommandAckFor(c, phase)
    ensures CommandCovered(acks, c)
  {
  }

  lemma AcksCoverPlan(plan: Plan)
    requires plan.expectedAcks == ExpectedAcks(plan.prelude, plan.items, plan.start, plan.postlude)
    ensures AcksOk(plan)
  {
    var acks := plan.expectedAcks;
    var p, u, s := |plan.prelude|, |UploadAcks(plan.items)|, |StartAcks(plan.start)|;
    forall i | 0 <= i < p ensures CommandCovered(acks, plan.prelude[i]) {
      assert acks[i] == CommandAcks(plan.prelude)[i];
      AckAt(acks, i, plan.prelude[i], plan.prelude[i].phase);
    }
    forall i | 0 <= i < |plan.postlude| ensures CommandCovered(acks, plan.postlude[i]) {
      assert acks[p + u + s + i] == CommandAcks(plan.postlude)[i];
      AckAt(acks, p + u + s + i, plan.postlude[i], plan.postlude[i].phase);
    }
    if plan.items != [] {
      assert acks[p] == UploadAcks(plan.items)[0];
    }
    if plan.start.Some? {
      assert acks[p + u] == StartAcks(plan.start)[0];
      AckAt(acks, p + u, plan.start.value, StartPhase);
    }
  }

  /** Classification and expectation are derived separately and agree row by row. */
  lemma RowsAgree(plan: Plan, profile: CapabilityProfile.Profile)
    ensures |CapabilityProfile.AllRows(plan, profile)| == |ExpectedRows(plan)|
    ensures RowsMatch(CapabilityProfile.AllRows(plan, profile), ExpectedRows(plan))
  {
    var rows, expected := CapabilityProfile.AllRows(plan, profile), ExpectedRows(plan);
    var p, m := |plan.prelude|, |plan.items|;
    var s := if plan.start.Some? then 1 else 0;
    forall i | 0 <= i < |rows| && i < |expected| ensures RowMatches(rows[i], expected[i]) {
      if i < p {
        assert rows[i] == CapabilityProfile.ClassifyCommand(plan.prelude[i], profile);
        assert expected[i] == ExpectedCommand(plan.prelude[i]);
      } else if i < p + m {
        assert rows[i] == CapabilityProfile.ClassifyItem(plan.items[i - p], profile);
        assert expected[i] == ExpectedItem(plan.items[i - p]);
      } else if i < p + m + s {
        assert rows[i] == CapabilityProfile.ClassifyCommand(plan.start.value, profile);
        assert expected[i] == ExpectedCommand(plan.start.value);
      } else {
        var k := i - p - m - s;
        assert rows[i] == CapabilityProfile.ClassifyCommand(plan.postlude[k], profile);
        assert expected[i] == ExpectedCommand(plan.postlude[k]);
      }
    }
  }

  /** Reports of compiled plans are consistent with the plan and with themselves. */
  lemma ReportsPass(plan: Plan)
    requires plan.compatibility ==
             Some(CapabilityProfile.Report(plan, CapabilityProfile.ProfileFor(plan.backendProfile)))
    requires forall i :: 0 <= i < |plan.items| ==> plan.items[i].frame == GlobalRelativeAltInt
    ensures CompatibilityFindings(plan) == {}
  {
    var profile := CapabilityProfile.ProfileFor(plan.backendProfile);
    RowsAgree(plan, profile);
    CapabilityProfile.ProfileVerdicts(plan, plan.backendProfile);
    assert profile.id == plan.backendProfile;
  }

  lemma CompiledReport(plan: Plan, source: MissionPlan, o: Options)
    requires CompiledFrom(plan, source, o)
    ensures plan.compatibility ==
            Some(CapabilityProfile.Report(plan, CapabilityProfile.ProfileFor(plan.backendProfile)))
    ensures plan.items == Items(CompileEntries(o, source.commands).value)
    ensures plan.prelude == FencePrelude(o) + Commands(CompileEntries(o, source.commands).value, CommandPrelude)
  {
    var draft := Draft(o, source.missionId, CompileEntries(o, source.commands).value);
    var profile := CapabilityProfile.ProfileFor(o.profile);
    assert CapabilityProfile.AllRows(plan, profile) == CapabilityProfile.AllRows(draft, profile);
  }

  // ----- landing before the items -----

  /** A land, return or abort comes before any item. */
  predicate LandsEarly(o: Options, entries: seq<Entry>) {
    entries != [] &&
    var init, c := entries[..|entries| - 1], entries[|entries| - 1].command;
    LandsEarly(o, init) || (IsLifecycle(c) && !HasItems(o, init))
  }

  lemma {:induction false} CommandsAppendItems(a: Trace, b: Trace, phase: Phase)
    requires forall i :: 0 <= i < |b| ==> !b[i].OfCommand?
    ensures Commands(a + b, phase) == Commands(a, phase)
  {
    if b == [] {
      assert a + b == a;
    } else {
      CommandsAppendItems(a, b[..|b| - 1], phase);
      assert (a + b)[..|a + b| - 1] == a + b[..|b| - 1];
    }
  }

  lemma LandingSnoc(commands: seq<CommonCommand>, c: CommonCommand)
    ensures AnyLanding(commands + [c]) <==> AnyLanding(commands) || IsLanding(c)
  {
    var more := commands + [c];
    assert more[|commands|] == c;
    assert forall i :: 0 <= i < |commands| ==> more[i] == commands[i];
  }

  /** Whether one more command adds a landing to the prelude. */
  lemma EntryLanding(o: Options, trace: Trace, entry: Entry, frame: CoordinateFrame)
    requires OptionsOk(o) && CommandOk(entry.command, frame) && CompileEntry(o, trace, entry).Done?
    ensures var t := CompileEntry(o, trace, entry).value;
            AnyLanding(Commands(t, CommandPrelude)) <==>
            AnyLanding(Commands(trace, CommandPrelude)) || (IsLifecycle(entry.command) && Items(trace) == [])
  {
    var t := CompileEntry(o, trace, entry).value;
    EntryShare(o, trace, entry, frame);
    EntryRanks(o, trace, entry, frame);
    var group := t[|trace|..];
    assert t == trace + group;
    if IsEarly(entry.command) || IsLifecycle(entry.command) {
      assert group == [t[|trace|]] && t[|trace|].OfCommand?;
      Snoc(trace, t[|trace|]);
      LandingSnoc(Commands(trace, CommandPrelude), t[|trace|].command);
    } else {
      forall i | 0 <= i < |group| ensures !group[i].OfCommand? {
        assert Rank(t[|trace| + i]) <= 1 && Rank(t[|trace| + i]) != 0;
      }
      CommandsAppendItems(trace, group, CommandPrelude);
    }
  }

  lemma {:induction false} PreludeLandings(o: Options, plan: MissionPlan, n: nat)
    requires OptionsOk(o) && CommandsOk(plan) && n <= |plan.commands| && CompileEntries(o, plan.commands[..n]).Done?
    ensures AnyLanding(Commands(CompileEntries(o, plan.commands[..n]).value, CommandPrelude)) <==>
            LandsEarly(o, plan.commands[..n])
  {
    if n > 0 {
      StepShare(o, plan, n - 1);
      PreludeLandings(o, plan, n - 1);
      StagedExactly(o, plan, n - 1);
      var before := CompileEntries(o, plan.commands[..n - 1]).value;
      assert plan.commands[..n][..n - 1] == plan.commands[..n - 1];
      EntryLanding(o, before, plan.commands[n - 1], plan.frame);
    }
  }

  lemma FencePreludeNoLanding(o: Options, commands: seq<CommonCommand>)
    ensures AnyLanding(FencePrelude(o) + commands) <==> AnyLanding(commands)
  {
    var all := FencePrelude(o) + commands;
    assert forall i :: 0 <= i < |commands| ==> all[|FencePrelude(o)| + i] == commands[i];
  }

  /** A compiled plan is out of order exactly when its source has items and lands, returns or
      aborts before the first of them. */
  lemma CompiledOrder(source: MissionPlan, o: Options, trace: Trace)
    requires ValidPlan(source) && OptionsOk(o) && CompileEntries(o, source.commands) == Done(trace)
    ensures Items(trace) != [] && AnyLanding(FencePrelude(o) + Commands(trace, CommandPrelude)) <==>
            HasItems(o, source.commands) && LandsEarly(o, source.commands)
  {
    var n := |source.commands|;
    assert source.commands[..n] == source.commands;
    StagedExactly(o, source, n);
    PreludeLandings(o, source, n);
    FencePreludeNoLanding(o, Commands(trace, CommandPrelude));
  }

  /** Every compiled plan passes the item-sequence, acknowledgement and compatibility checks;
      the only thing the validator can object to is a source that lands, returns or aborts
      before its first item and has items all the same. */
  lemma CompiledPlansPass(plan: Plan, source: MissionPlan, o: Options)
    requires CompiledFrom(plan, source, o)
    ensures Findings(plan) ==
            if HasItems(o, source.commands) && LandsEarly(o, source.commands) then {OrderUnsafe} else {}
  {
    CompiledReport(plan, source, o);
    CompiledItemsNumbered(o, source.commands);
    CompiledAcks(plan, source, o);
    AcksCoverPlan(plan);
    ReportsPass(plan);
    CompiledOrder(source, o, CompileEntries(o, source.commands).value);
  }
}
