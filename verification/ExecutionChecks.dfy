/** The independent check of an execution report, and what holds of every execution. */
module ExecutionChecks {
  import opened Basics
  import opened MissionIr
  import opened CommonPlan
  import opened PlanExecutor
  import PlanCompiler
  import MavlinkCompiler

  datatype Finding =
    | PlanIdMissing
    | StepsMissing
    | StepOrder
    | SuccessfulOutcomeHasFailedStep
    | TerminalStep
    | LifecycleOutcome
    | RetryCount

  /** The first step with the given index. */
  function FindStep(steps: seq<Step>, index: nat): Option<Step> {
    if steps == [] then None
    else if steps[0].index == index then Some(steps[0])
    else FindStep(steps[1..], index)
  }

  predicate InOrder(steps: seq<Step>) {
    forall i :: 0 <= i < |steps| ==> steps[i].index == i
  }

  predicate AnyFailed(steps: seq<Step>) {
    exists i :: 0 <= i < |steps| && Fails(steps[i].result)
  }

  predicate FailedAt(steps: seq<Step>, index: nat) {
    FindStep(steps, index).Some? && Fails(FindStep(steps, index).value.result)
  }

  function OutcomeFindings(report: Report): set<Finding> {
    if IsSuccess(report.overall) && report.lifecycle.LifecycleCompleted? then
      if AnyFailed(report.steps) then {SuccessfulOutcomeHasFailedStep} else {}
    else if !IsSuccess(report.overall) && report.lifecycle.LifecycleAborted? then
      if !FailedAt(report.steps, report.overall.atStep) && report.steps != [] then {TerminalStep} else {}
    else {LifecycleOutcome}
  }

  /** Everything the check finds wrong with a report. */
  function Findings(report: Report): set<Finding> {
    (if IsBlank(report.planId) then {PlanIdMissing} else {})
    + (if report.steps == [] then {StepsMissing} else {})
    + (if !InOrder(report.steps) then {StepOrder} else {})
    + OutcomeFindings(report)
    + (if report.overall.Retried? && report.overall.times != report.retryCount then {RetryCount} else {})
  }

  method CheckOrder(steps: seq<Step>) returns (ordered: bool)
    ensures ordered <==> InOrder(steps)
  {
    for k := 0 to |steps|
      invariant forall i :: 0 <= i < k ==> steps[i].index == i
    {
      if steps[k].index != k {
        return false;
      }
    }
    ordered := true;
  }

  method CountFailed(steps: seq<Step>) returns (failed: nat)
    ensures failed > 0 <==> AnyFailed(steps)
  {
    failed := 0;
    for k := 0 to |steps|
      invariant failed > 0 <==> exists i :: 0 <= i < k && Fails(steps[i].result)
    {
      if Fails(steps[k].result) {
        failed := failed + 1;
      }
    }
  }

  /** The check as the validator runs it. */
  method ValidateExecutionReport(report: Report) returns (findings: set<Finding>)
    ensures findings == Findings(report)
  {
    findings := if IsBlank(report.planId) then {PlanIdMissing} else {};
    if report.steps == [] {
      findings := findings + {StepsMissing};
    }
    var ordered := CheckOrder(report.steps);
    if !ordered {
      findings := findings + {StepOrder};
    }
    var failed := CountFailed(report.steps);
    var outcome: set<Finding> := {};
    if IsSuccess(report.overall) && report.lifecycle.LifecycleCompleted? {
      if failed > 0 {
        outcome := {SuccessfulOutcomeHasFailedStep};
      }
    } else if !IsSuccess(report.overall) && report.lifecycle.LifecycleAborted? {
      if !FailedAt(report.steps, report.overall.atStep) && report.steps != [] {
        outcome := {TerminalStep};
      }
    } else {
      outcome := {LifecycleOutcome};
    }
    assert outcome == OutcomeFindings(report);
    findings := findings + outcome;
    if report.overall.Retried? && report.overall.times != report.retryCount {
      findings := findings + {RetryCount};
    }
  }

  // ----- every execution passes the check -----

  lemma {:induction false} FindInOrder(steps: seq<Step>, offset: nat, k: nat)
    requires k < |steps| && forall i :: 0 <= i < |steps| ==> steps[i].index == offset + i
    ensures FindStep(steps, offset + k) == Some(steps[k])
  {
    if k > 0 {
      FindInOrder(steps[1..], offset + 1, k - 1);
    }
  }

  lemma RunReportClean(planId: string, requests: seq<Request>, budget: nat, attempts: seq<Attempt>)
    requires IsRun(requests, budget, attempts)
    ensures var r := ReportOf(planId, requests, attempts);
            InOrder(r.steps) && OutcomeFindings(r) == {} && (r.overall.Retried? ==> r.overall.times == r.retryCount)
  {
    var r, n := ReportOf(planId, requests, attempts), |attempts|;
    if n > 0 && Fails(Final(attempts[n - 1])) {
      FindInOrder(r.steps, 0, n - 1);
      assert r.steps[n - 1].result == Final(attempts[n - 1]);
    } else {
      forall i | 0 <= i < |r.steps| ensures !Fails(r.steps[i].result) {
        assert r.steps[i].result == Final(attempts[i]);
      }
    }
  }

  /** For every plan and every acknowledgement behaviour the report of an execution has no
      finding, except for a blank mission id or a report without any step. */
  lemma ExecutedReportsPass(plan: Plan, budget: nat, calls: seq<Call>, report: Report)
    requires Executed(plan, budget, calls, report)
    ensures Findings(report) ==
            (if IsBlank(plan.sourceMissionId) then {PlanIdMissing} else {})
            + (if report.steps == [] then {StepsMissing} else {})
  {
    if FenceGuard(plan) {
      FindInOrder(report.steps, 0, 0);
    } else if !ContractGuard(plan) {
      var attempts :| RunGives(plan, budget, attempts, calls, report);
      RunReportClean(plan.sourceMissionId, Requests(plan), budget, attempts);
    }
  }

  // ----- steps and expected acknowledgements -----

  /** The step is the one the acknowledgement was expected for. */
  predicate StepAnswers(step: Step, ack: ExpectedAck) {
    match step.name
    case Uploaded => ack.kind.MissionAck?
    case Issued(command) => ack.kind.CommandAck? && ack.command == Some(command)
    case FenceUploaded => false
  }

  predicate RequestAnswers(r: Request, ack: ExpectedAck) {
    match r
    case AskPrelude(c) => ack == MavlinkCompiler.CommandAckFor(c, c.phase)
    case AskUpload => ack.kind.MissionAck? && ack.phase.MissionUpload?
    case AskStart(c) => ack == MavlinkCompiler.CommandAckFor(c, StartPhase)
    case AskPostlude(c) => ack == MavlinkCompiler.CommandAckFor(c, c.phase)
  }

  /** Compiler and executor agree on what is acknowledged, one for one and in order. */
  lemma RequestsMatchAcks(plan: Plan)
    requires plan.expectedAcks == MavlinkCompiler.ExpectedAcks(plan.prelude, plan.items, plan.start, plan.postlude)
    ensures |Requests(plan)| == |plan.expectedAcks|
    ensures forall i :: 0 <= i < |plan.expectedAcks| ==> RequestAnswers(Requests(plan)[i], plan.expectedAcks[i])
  {
    var p, u, s := |plan.prelude|, |UploadRequests(plan)|, |StartRequests(plan)|;
    forall i | 0 <= i < |plan.expectedAcks| ensures RequestAnswers(Requests(plan)[i], plan.expectedAcks[i]) {
      if i < p {
        assert Requests(plan)[i] == AskPrelude(plan.prelude[i]);
        assert plan.expectedAcks[i] == MavlinkCompiler.CommandAcks(plan.prelude)[i];
      } else if i < p + u {
        assert Requests(plan)[i] == AskUpload;
        assert plan.expectedAcks[i] == MavlinkCompiler.UploadAcks(plan.items)[0];
      } else if i < p + u + s {
        assert Requests(plan)[i] == AskStart(plan.start.value);
        assert plan.expectedAcks[i] == MavlinkCompiler.StartAcks(plan.start)[0];
      } else {
        assert Requests(plan)[i] == AskPostlude(plan.postlude[i - p - u - s]);
        assert plan.expectedAcks[i] == MavlinkCompiler.CommandAcks(plan.postlude)[i - p - u - s];
      }
    }
  }

  lemma RunOutcome(planId: string, requests: seq<Request>, budget: nat, attempts: seq<Attempt>)
    requires IsRun(requests, budget, attempts)
    ensures var r := ReportOf(planId, requests, attempts);
            IsSuccess(r.overall) <==> |r.steps| == |requests| && !AnyFailed(r.steps)
  {
    var r, n := ReportOf(planId, requests, attempts), |attempts|;
    if n > 0 && Fails(Final(attempts[n - 1])) {
      assert Fails(r.steps[n - 1].result);
    } else {
      forall i | 0 <= i < n ensures !Fails(r.steps[i].result) {
        assert r.steps[i].result == Final(attempts[i]);
      }
    }
  }

  /** Whatever the acknowledgements, the recorded steps of a compiled plan follow the expected
      acknowledgements one for one from the start, and the run succeeds exactly when it has
      gone through all of them without a failing step. */
  lemma StepsFollowExpectedAcks(plan: Plan, source: MissionPlan, o: PlanCompiler.Options, budget: nat,
                                calls: seq<Call>, report: Report)
    requires MavlinkCompiler.CompiledFrom(plan, source, o) && !FenceGuard(plan) && !ContractGuard(plan)
    requires Executed(plan, budget, calls, report)
    ensures |report.steps| <= |plan.expectedAcks|
    ensures forall i :: 0 <= i < |report.steps| ==> StepAnswers(report.steps[i], plan.expectedAcks[i])
    ensures IsSuccess(report.overall) <==> |report.steps| == |plan.expectedAcks| && !AnyFailed(report.steps)
  {
    MavlinkCompiler.CompiledAcks(plan, source, o);
    AcknowledgedPlanSteps(plan, budget, calls, report);
  }

  lemma AcknowledgedPlanSteps(plan: Plan, budget: nat, calls: seq<Call>, report: Report)
    requires plan.expectedAcks == MavlinkCompiler.ExpectedAcks(plan.prelude, plan.items, plan.start, plan.postlude)
    requires !FenceGuard(plan) && !ContractGuard(plan) && Executed(plan, budget, calls, report)
    ensures |report.steps| <= |plan.expectedAcks|
    ensures forall i :: 0 <= i < |report.steps| ==> StepAnswers(report.steps[i], plan.expectedAcks[i])
    ensures IsSuccess(report.overall) <==> |report.steps| == |plan.expectedAcks| && !AnyFailed(report.steps)
  {
    var attempts :| RunGives(plan, budget, attempts, calls, report);
    RequestsMatchAcks(plan);
    RunOutcome(plan.sourceMissionId, Requests(plan), budget, attempts);
    forall i | 0 <= i < |report.steps| ensures StepAnswers(report.steps[i], plan.expectedAcks[i]) {
      assert RequestAnswers(Requests(plan)[i], plan.expectedAcks[i]);
      assert report.steps[i].name == Label(Requests(plan)[i]);
    }
  }

  // ----- who is asked, and how often -----

  /** Number of questions put for the first `n` steps. */
  function Asked(attempts: seq<Attempt>, n: nat): nat
    requires n <= |attempts|
  {
    if n == 0 then 0 else Asked(attempts, n - 1) + |attempts[n - 1]|
  }

  lemma {:induction false} AskedBefore(attempts: seq<Attempt>, m: nat, n: nat)
    requires n <= m <= |attempts|
    ensures Asked(attempts[..m], n) == Asked(attempts, n)
  {
    if n > 0 {
      AskedBefore(attempts, m, n - 1);
    }
  }

  lemma {:induction false} AskedGrows(attempts: seq<Attempt>, m: nat, n: nat)
    requires m <= n <= |attempts|
    ensures Asked(attempts, m) <= Asked(attempts, n)
    decreases n
  {
    if m < n {
      AskedGrows(attempts, m, n - 1);
    }
  }

  lemma {:induction false} CallCount(requests: seq<Request>, attempts: seq<Attempt>)
    requires |attempts| <= |requests|
    ensures |Calls(requests, attempts)| == Asked(attempts, |attempts|)
  {
    if attempts != [] {
      var n := |attempts| - 1;
      CallCount(requests, attempts[..n]);
      AskedBefore(attempts, n, n);
    }
  }

  /** The `j`-th question of step `i`, in its place in the log. */
  lemma {:induction false} CallAt(requests: seq<Request>, attempts: seq<Attempt>, i: nat, j: nat)
    requires |attempts| <= |requests| && i < |attempts| && j < |attempts[i]|
    ensures Asked(attempts, i) + j < |Calls(requests, attempts)|
    ensures Calls(requests, attempts)[Asked(attempts, i) + j] == Call(requests[i], attempts[i][j])
  {
    var n := |attempts| - 1;
    var before := Calls(requests, attempts[..n]);
    CallCount(requests, attempts[..n]);
    AskedBefore(attempts, n, n);
    if i < n {
      CallAt(requests, attempts[..n], i, j);
      AskedBefore(attempts, n, i);
    } else {
      assert Calls(requests, attempts) == before + CallsFor(requests[n], attempts[n]);
    }
  }

  lemma {:induction false} RetriesAdd(attempts: seq<Attempt>, budget: nat)
    requires forall i :: 0 <= i < |attempts| ==> AttemptOk(attempts[i], budget)
    ensures Asked(attempts, |attempts|) == |attempts| + Retries(attempts)
  {
    if attempts != [] {
      var n := |attempts| - 1;
      RetriesAdd(attempts[..n], budget);
      AskedBefore(attempts, n, n);
    }
  }

  lemma {:induction false} RetriesBounded(attempts: seq<Attempt>, budget: nat)
    requires forall i :: 0 <= i < |attempts| ==> AttemptOk(attempts[i], budget)
    ensures Retries(attempts) <= budget * |attempts|
  {
    if attempts != [] {
      var n := |attempts| - 1;
      RetriesBounded(attempts[..n], budget);
      assert budget * |attempts| == budget * n + budget;
    }
  }

  predicate Passes(r: StepResult) {
    r.Accepted? || r.Skipped?
  }

  /** The log falls into one block of 1 to `budget + 1` questions per step; `starts[i]` is where
      the block of step `i` begins, and the last entry is the end of the log. */
  predicate Blocks(starts: seq<nat>, steps: nat, calls: nat, budget: nat) {
    && |starts| == steps + 1 && starts[0] == 0 && starts[steps] == calls
    && forall i :: 0 <= i < steps ==> starts[i] < starts[i + 1] <= starts[i] + budget + 1
  }

  /** The block of one step: it puts only this step's request, every answer but the last is a
      timeout, and the last is the recorded result. */
  predicate StepBlock(request: Request, result: StepResult, block: seq<Call>) {
    && block != [] && block[|block| - 1].answer == result
    && (forall k :: 0 <= k < |block| ==> block[k].request == request)
    && (forall k :: 0 <= k < |block| - 1 ==> block[k].answer.Timeout?)
  }

  predicate BlockAt(request: Request, result: StepResult, calls: seq<Call>, starts: seq<nat>, i: nat) {
    && i + 1 < |starts| && starts[i] <= starts[i + 1] <= |calls|
    && StepBlock(request, result, calls[starts[i]..starts[i + 1]])
  }

  predicate BlocksOk(requests: seq<Request>, steps: seq<Step>, calls: seq<Call>, starts: seq<nat>, budget: nat) {
    && |steps| <= |requests| && Blocks(starts, |steps|, |calls|, budget)
    && forall i :: 0 <= i < |steps| ==> BlockAt(requests[i], steps[i].result, calls, starts, i)
  }

  /** By question `k` step `j` has had its last question, and passed. */
  predicate PassedBefore(calls: seq<Call>, starts: seq<nat>, j: nat, k: nat) {
    && j + 1 < |starts| && 1 <= starts[j + 1] <= k < |calls| && Passes(calls[starts[j + 1] - 1].answer)
  }

  /** Question `k` is put for step `i`. When it is put, every earlier step has had its last
      question, and that one was answered with acceptance or a skip. */
  predicate PutFor(requests: seq<Request>, calls: seq<Call>, starts: seq<nat>, k: nat, i: nat) {
    && k < |calls| && i < |requests| && i + 1 < |starts| && starts[i] <= k < starts[i + 1]
    && calls[k].request == requests[i]
    && forall j :: 0 <= j < i ==> PassedBefore(calls, starts, j, k)
  }

  ghost predicate InTurn(requests: seq<Request>, calls: seq<Call>, starts: seq<nat>, k: nat) {
    exists i: nat :: PutFor(requests, calls, starts, k, i)
  }

  function StartsOf(attempts: seq<Attempt>): (r: seq<nat>)
    ensures |r| == |attempts| + 1 && forall i :: 0 <= i <= |attempts| ==> r[i] == Asked(attempts, i)
  {
    seq(|attempts| + 1, i requires 0 <= i <= |attempts| => Asked(attempts, i))
  }

  predicate CallIs(requests: seq<Request>, attempts: seq<Attempt>, calls: seq<Call>, i: nat, j: nat)
    requires i < |attempts| <= |requests| && j < |attempts[i]|
  {
    && Asked(attempts, i) + j < |calls|
    && calls[Asked(attempts, i) + j] == Call(requests[i], attempts[i][j])
  }

  /** The log holds the answers of each step in turn. */
  ghost predicate Logged(requests: seq<Request>, attempts: seq<Attempt>, calls: seq<Call>) {
    && |attempts| <= |requests| && |calls| == Asked(attempts, |attempts|)
    && forall i: nat, j: nat :: i < |attempts| && j < |attempts[i]| ==> CallIs(requests, attempts, calls, i, j)
  }

  lemma CallsLogged(requests: seq<Request>, attempts: seq<Attempt>)
    requires |attempts| <= |requests|
    ensures Logged(requests, attempts, Calls(requests, attempts))
  {
    CallCount(requests, attempts);
    forall i: nat, j: nat | i < |attempts| && j < |attempts[i]|
      ensures CallIs(requests, attempts, Calls(requests, attempts), i, j)
    {
      CallAt(requests, attempts, i, j);
    }
  }

  lemma AttemptBlock(requests: seq<Request>, attempts: seq<Attempt>, calls: seq<Call>, budget: nat, i: nat)
    requires Logged(requests, attempts, calls) && i < |attempts| && AttemptOk(attempts[i], budget)
    ensures BlockAt(requests[i], Final(attempts[i]), calls, StartsOf(attempts), i)
  {
    AskedGrows(attempts, i + 1, |attempts|);
    var block := calls[Asked(attempts, i)..Asked(attempts, i + 1)];
    forall j: nat | j < |block| ensures block[j] == Call(requests[i], attempts[i][j]) {
      assert CallIs(requests, attempts, calls, i, j);
    }
  }

  lemma RunBlocks(requests: seq<Request>, budget: nat, attempts: seq<Attempt>, calls: seq<Call>, steps: seq<Step>)
    requires Logged(requests, attempts, calls) && |steps| == |attempts|
    requires forall i :: 0 <= i < |attempts| ==> AttemptOk(attempts[i], budget) && steps[i].result == Final(attempts[i])
    ensures BlocksOk(requests, steps, calls, StartsOf(attempts), budget)
  {
    var starts := StartsOf(attempts);
    forall i | 0 <= i < |attempts| ensures BlockAt(requests[i], steps[i].result, calls, starts, i) {
      AttemptBlock(requests, attempts, calls, budget, i);
    }
    forall i | 0 <= i < |attempts| ensures starts[i] < starts[i + 1] <= starts[i] + budget + 1 {
      assert AttemptOk(attempts[i], budget);
    }
  }

  lemma {:induction false} BlockOf(starts: seq<nat>, steps: nat, calls: nat, budget: nat, k: nat) returns (i: nat)
    requires Blocks(starts, steps, calls, budget) && k < calls
    ensures i < steps && starts[i] <= k < starts[i + 1]
  {
    i := 0;
    while starts[i + 1] <= k
      invariant i < steps && starts[i] <= k
      decreases steps - i
    {
      i := i + 1;
    }
  }

  lemma {:induction false} StartsAscend(starts: seq<nat>, steps: nat, calls: nat, budget: nat, m: nat, n: nat)
    requires Blocks(starts, steps, calls, budget) && m <= n <= steps
    ensures starts[m] <= starts[n]
    decreases n
  {
    if m < n {
      StartsAscend(starts, steps, calls, budget, m, n - 1);
    }
  }

  /** With the log in blocks and every step but the last passed, each question has its step. */
  lemma EveryQuestionInTurn(requests: seq<Request>, steps: seq<Step>, calls: seq<Call>, starts: seq<nat>,
                            budget: nat, k: nat)
    returns (i: nat)
    requires BlocksOk(requests, steps, calls, starts, budget) && k < |calls|
    requires forall j :: 0 <= j < |steps| - 1 ==> Passes(steps[j].result)
    ensures PutFor(requests, calls, starts, k, i)
  {
    i := BlockOf(starts, |steps|, |calls|, budget, k);
    assert BlockAt(requests[i], steps[i].result, calls, starts, i);
    var own := calls[starts[i]..starts[i + 1]];
    assert own[k - starts[i]] == calls[k];
    forall j | 0 <= j < i ensures PassedBefore(calls, starts, j, k) {
      StartsAscend(starts, |steps|, |calls|, budget, j + 1, i);
      assert BlockAt(requests[j], steps[j].result, calls, starts, j);
      var block := calls[starts[j]..starts[j + 1]];
      assert block[|block| - 1] == calls[starts[j + 1] - 1];
    }
  }

  lemma RunInTurn(requests: seq<Request>, budget: nat, attempts: seq<Attempt>, calls: seq<Call>, steps: seq<Step>)
    requires IsRun(requests, budget, attempts) && Logged(requests, attempts, calls)
    requires steps == Steps(requests, attempts)
    ensures BlocksOk(requests, steps, calls, StartsOf(attempts), budget)
    ensures forall k: nat :: k < |calls| ==> InTurn(requests, calls, StartsOf(attempts), k)
  {
    RunBlocks(requests, budget, attempts, calls, steps);
    forall j | 0 <= j < |steps| - 1 ensures Passes(steps[j].result) {
      assert !Fails(Final(attempts[j]));
    }
    forall k: nat | k < |calls| ensures InTurn(requests, calls, StartsOf(attempts), k) {
      var i := EveryQuestionInTurn(requests, steps, calls, StartsOf(attempts), budget, k);
    }
  }

  /** The log is one block per recorded step, in step order, of at most `budget + 1` questions
      each, all but the last answered with a timeout; a question is put only when every earlier
      step had its last question, accepted or skipped; and questions number steps plus retries. */
  ghost predicate QuestionsOk(requests: seq<Request>, budget: nat, calls: seq<Call>, steps: seq<Step>, retries: nat,
                              starts: seq<nat>)
  {
    && BlocksOk(requests, steps, calls, starts, budget)
    && (forall k: nat :: k < |calls| ==> InTurn(requests, calls, starts, k))
    && |calls| == |steps| + retries && retries <= budget * |steps|
  }

  lemma RunQuestions(requests: seq<Request>, budget: nat, attempts: seq<Attempt>)
    requires IsRun(requests, budget, attempts)
    ensures QuestionsOk(requests, budget, Calls(requests, attempts), Steps(requests, attempts), Retries(attempts),
              StartsOf(attempts))
  {
    CallsLogged(requests, attempts);
    RunInTurn(requests, budget, attempts, Calls(requests, attempts), Steps(requests, attempts));
    RetriesAdd(attempts, budget);
    RetriesBounded(attempts, budget);
  }

  /** Nothing is asked when a guard trips; otherwise all questions are asked in turn. */
  lemma QuestionsInTurn(plan: Plan, budget: nat, calls: seq<Call>, report: Report) returns (starts: seq<nat>)
    requires Executed(plan, budget, calls, report)
    ensures FenceGuard(plan) || ContractGuard(plan) ==> calls == []
    ensures !FenceGuard(plan) && !ContractGuard(plan) ==>
              QuestionsOk(Requests(plan), budget, calls, report.steps, report.retryCount, starts)
  {
    starts := [];
    if !FenceGuard(plan) && !ContractGuard(plan) {
      var attempts :| RunGives(plan, budget, attempts, calls, report);
      starts := StartsOf(attempts);
      RunQuestions(Requests(plan), budget, attempts);
    }
  }
}
