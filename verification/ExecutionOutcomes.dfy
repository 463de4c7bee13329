/** What the report of an execution says, read off its steps. */
module ExecutionOutcomes {
  import opened Basics
  import opened CommonPlan
  import opened PlanExecutor

  /** How many steps a plan has. */
  function StepCount(plan: Plan): nat {
    |plan.prelude| + (if plan.items == [] then 0 else 1) + (if plan.start.Some? then 1 else 0) + |plan.postlude|
  }

  /** Step `i` asks for `r`: the prelude commands come first, then the upload of the items if there
      are any, then the start, then the postlude commands. */
  predicate AsksFor(plan: Plan, i: nat, r: Request) {
    var uploadAt := |plan.prelude|;
    var startAt := uploadAt + if plan.items == [] then 0 else 1;
    var postludeAt := startAt + if plan.start.Some? then 1 else 0;
    if i < uploadAt then r == AskPrelude(plan.prelude[i])
    else if i < startAt then r == AskUpload
    else if i < postludeAt then r == AskStart(plan.start.value)
    else i < postludeAt + |plan.postlude| && r == AskPostlude(plan.postlude[i - postludeAt])
  }

  lemma RequestsInOrder(plan: Plan)
    ensures |Requests(plan)| == StepCount(plan)
    ensures forall i :: 0 <= i < |Requests(plan)| ==> AsksFor(plan, i, Requests(plan)[i])
  {
    var p, u, s := |plan.prelude|, |UploadRequests(plan)|, |StartRequests(plan)|;
    forall i | 0 <= i < |Requests(plan)| ensures AsksFor(plan, i, Requests(plan)[i]) {
      if i < p {
        assert Requests(plan)[i] == PreludeRequests(plan)[i];
      } else if i < p + u {
        assert Requests(plan)[i] == UploadRequests(plan)[0];
      } else if i < p + u + s {
        assert Requests(plan)[i] == StartRequests(plan)[0];
      } else {
        assert Requests(plan)[i] == PostludeRequests(plan)[i - p - u - s];
      }
    }
  }

  /** The step is the `i`-th, and is named after what is asked in it. */
  ghost predicate StepIs(plan: Plan, step: Step, i: nat) {
    step.index == i &&
    exists r :: AsksFor(plan, i, r) && step.name == if r.AskUpload? then Uploaded else Issued(r.command.command)
  }

  /** The result that ended the run, if it was a failure. */
  function Ending(steps: seq<Step>): Option<StepResult> {
    if steps == [] then None
    else
      var r := steps[|steps| - 1].result;
      if r.Rejected? || r.Timeout? || r.TransportFailure? then Some(r) else None
  }

  /** The outcome that goes with the result of the last step: a transport failure fails the run,
      a rejection or timeout aborts it, with the reason given or the timeout; without a failure
      the run is completed, and retries are told when there were any. */
  ghost predicate OutcomeFor(plan: Plan, steps: seq<Step>, retries: nat, overall: Outcome) {
    match Ending(steps)
    case Some(TransportFailure(reason)) => overall == Failed(|steps| - 1, Given(reason))
    case Some(Rejected(reason)) => overall == Aborted(|steps| - 1, Given(reason))
    case Some(Timeout(ms)) =>
      exists r :: AsksFor(plan, |steps| - 1, r) && overall == Aborted(|steps| - 1, TimeoutOf(r, ms))
    case _ => overall == if retries == 0 then Completed else Retried(retries)
  }

  /** Every step but the last was accepted or skipped. */
  predicate PassedUpToLast(steps: seq<Step>) {
    forall i :: 0 <= i < |steps| - 1 ==> steps[i].result.Accepted? || steps[i].result.Skipped?
  }

  ghost predicate Reported(plan: Plan, report: Report) {
    && report.planId == plan.sourceMissionId
    && (forall i :: 0 <= i < |report.steps| ==> StepIs(plan, report.steps[i], i))
    && PassedUpToLast(report.steps)
    && OutcomeFor(plan, report.steps, report.retryCount, report.overall)
    && report.heartbeatReached == Ending(report.steps).None?
    && report.lifecycle == (if Ending(report.steps).None? then LifecycleCompleted else LifecycleAborted)
    && (Ending(report.steps).None? ==> |report.steps| == StepCount(plan))
  }

  lemma RunReported(plan: Plan, budget: nat, attempts: seq<Attempt>, calls: seq<Call>, report: Report)
    requires RunGives(plan, budget, attempts, calls, report)
    ensures Reported(plan, report)
  {
    var steps, n := report.steps, |attempts|;
    RequestsInOrder(plan);
    forall i | 0 <= i < n ensures StepIs(plan, steps[i], i) {
      assert AsksFor(plan, i, Requests(plan)[i]);
    }
    forall i | 0 <= i < n - 1 ensures steps[i].result.Accepted? || steps[i].result.Skipped? {
      assert !Fails(Final(attempts[i]));
    }
    if n > 0 {
      assert AsksFor(plan, n - 1, Requests(plan)[n - 1]);
    }
  }

  /** For every plan that no guard stops and every acknowledgement behaviour, the report tells
      steps, outcome, lifecycle and heartbeat as its last step has it. */
  lemma ReportIsItsSteps(plan: Plan, budget: nat, calls: seq<Call>, report: Report)
    requires Executed(plan, budget, calls, report) && !FenceGuard(plan) && !ContractGuard(plan)
    ensures Reported(plan, report)
  {
    var attempts :| RunGives(plan, budget, attempts, calls, report);
    RunReported(plan, budget, attempts, calls, report);
  }

  /** Which result gives which outcome. */
  lemma OutcomeExactly(plan: Plan, budget: nat, calls: seq<Call>, report: Report)
    requires Executed(plan, budget, calls, report) && !FenceGuard(plan) && !ContractGuard(plan)
    ensures var steps, overall := report.steps, report.overall;
            var failed := steps != [] && steps[|steps| - 1].result.TransportFailure?;
            var aborted := steps != [] && (steps[|steps| - 1].result.Rejected? || steps[|steps| - 1].result.Timeout?);
            && (overall.Failed? <==> failed) && (overall.Aborted? <==> aborted)
            && (failed || aborted ==> overall.atStep == |steps| - 1)
            && (overall.Completed? <==> !failed && !aborted && report.retryCount == 0)
            && (overall.Retried? <==> !failed && !aborted && report.retryCount > 0)
            && (overall.Retried? ==> overall.times == report.retryCount)
            && (report.heartbeatReached <==> !failed && !aborted)
  {
    ReportIsItsSteps(plan, budget, calls, report);
  }

  /** A fence that cannot be uploaded, and a flight-controller contract that blocks, abort before
      anything is asked, each with its own reason; the fence is looked at first. */
  lemma GuardsAbort(plan: Plan, budget: nat, calls: seq<Call>, report: Report)
    requires Executed(plan, budget, calls, report)
    ensures var fenced := plan.geofence.Some? && |plan.geofence.value| > 0;
            var blocked := plan.contract.Some? && plan.contract.value.blocksMissionStart;
            fenced || blocked ==>
              var reason := if fenced then FENCE_REASON else plan.contract.value.summary;
              && calls == [] && report.planId == plan.sourceMissionId
              && report.overall == Aborted(0, Given(reason)) && report.lifecycle == LifecycleAborted
              && !report.heartbeatReached && report.retryCount == 0
              && report.steps == if fenced then [Step(0, FenceUploaded, Rejected(reason))] else []
  {
  }
}
