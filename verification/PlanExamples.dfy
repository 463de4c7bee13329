/** Small missions that compile and show where the plan departs from its source. */
module PlanExamples {
  import opened Basics
  import opened MissionIr
  import opened CommonPlan
  import opened PlanCompiler
  import opened MavlinkCompiler
  import CompiledPlans
  import PlanChecks

  const HOME := Local(0.0, 0.0, 0.0)
  const GO := GoTo(HOME)

  /** A mission of two commands. */
  function TwoSteps(first: Command, second: Command): MissionPlan {
    MissionPlan("m", LocalEnu, [Entry("1", first, None, None), Entry("22", second, None, None)])
  }

  /** No fence, and the position can be converted. */
  predicate Plain(o: Options) {
    OptionsOk(o) && o.fence.None? && o.geodesy.convert(HOME).Some?
  }

  function PlanOf(o: Options, source: MissionPlan): Plan
    requires CompileEntries(o, source.commands).Done?
  {
    Finished(o, source.missionId, CompileEntries(o, source.commands).value)
  }

  lemma TwoValid(first: Command, second: Command)
    requires CommandOk(first, LocalEnu) && CommandOk(second, LocalEnu)
    ensures ValidPlan(TwoSteps(first, second))
  {
    var entries := TwoSteps(first, second).commands;
    assert |entries[0].commandId| != |entries[1].commandId|;
  }

  lemma TwoCompiled(o: Options, first: Command, second: Command, middle: Trace, end: Trace)
    requires CompileEntry(o, [], TwoSteps(first, second).commands[0]) == Done(middle)
    requires CompileEntry(o, middle, TwoSteps(first, second).commands[1]) == Done(end)
    ensures CompileEntries(o, TwoSteps(first, second).commands) == Done(end)
  {
    var entries := TwoSteps(first, second).commands;
    assert entries[..1] == [entries[0]] && entries[..1][..0] == [];
    assert CompileEntries(o, [entries[0]]) == Done(middle);
  }

  lemma FlightCompiles(o: Options, trace: Trace, entry: Entry)
    requires Plain(o) && entry.command == GO && |trace| <= 1
    ensures CompileEntry(o, trace, entry).Done?
  {
    assert |Items(trace)| <= 1;
  }

  /** Landing, then flying: a valid mission whose compiled plan is called unsafe. */
  lemma LandThenFly(o: Options)
    requires Plain(o)
    ensures CompileEntries(o, TwoSteps(Land, GO).commands).Done?
    ensures CompiledFrom(PlanOf(o, TwoSteps(Land, GO)), TwoSteps(Land, GO), o)
    ensures PlanChecks.Findings(PlanOf(o, TwoSteps(Land, GO))) == {PlanChecks.OrderUnsafe}
  {
    var source := TwoSteps(Land, GO);
    var middle := CompileEntry(o, [], source.commands[0]).value;
    FlightCompiles(o, middle, source.commands[1]);
    TwoCompiled(o, Land, GO, middle, CompileEntry(o, middle, source.commands[1]).value);
    TwoValid(Land, GO);
    LandThenFlySource(o);
    PlanChecks.CompiledPlansPass(PlanOf(o, source), source, o);
  }

  lemma LandThenFlySource(o: Options)
    ensures var entries := TwoSteps(Land, GO).commands; HasItems(o, entries) && PlanChecks.LandsEarly(o, entries)
  {
    var entries := TwoSteps(Land, GO).commands;
    assert entries[..1] == [entries[0]] && entries[..1][..0] == [];
  }

  /** Flying, then arming: a valid mission whose compiled plan is not in source order. */
  lemma FlyThenArm(o: Options)
    requires Plain(o)
    ensures CompileEntries(o, TwoSteps(GO, Arm).commands).Done?
    ensures CompiledFrom(PlanOf(o, TwoSteps(GO, Arm)), TwoSteps(GO, Arm), o)
    ensures var laid := CompiledPlans.Laid(PlanOf(o, TwoSteps(GO, Arm)), o);
            !CompiledPlans.InSourceOrder(TwoSteps(GO, Arm).commands, laid)
  {
    var source := TwoSteps(GO, Arm);
    FlightCompiles(o, [], source.commands[0]);
    var middle := CompileEntry(o, [], source.commands[0]).value;
    TwoCompiled(o, GO, Arm, middle, CompileEntry(o, middle, source.commands[1]).value);
    TwoValid(GO, Arm);
    FlyThenArmSource(o);
    CompiledPlans.PlanOrderExactly(PlanOf(o, source), source, o);
  }

  lemma FlyThenArmSource(o: Options)
    ensures !Staged(o, TwoSteps(GO, Arm).commands)
  {
    var entries := TwoSteps(GO, Arm).commands;
    assert entries[..1] == [entries[0]] && entries[..1][..0] == [];
  }
}
