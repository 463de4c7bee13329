/** Executing a compiled plan step by step against an arbitrary source of acknowledgements. */
module PlanExecutor {
  import opened Basics
  import opened CommonPlan

  datatype StepResult =
    | Accepted
    | Rejected(reason: string)
    | Timeout(afterMs: nat)
    | TransportFailure(reason: string)
    | Skipped(reason: string)

  predicate Fails(r: StepResult) {
    r.Rejected? || r.Timeout? || r.TransportFailure?
  }

  /** Why a run ended early: a reason that was given, or a timeout in one of the phases;
      `CauseText` spells it out. */
  datatype Cause = Given(text: string) | TimeoutOf(request: Request, afterMs: nat)

  datatype Outcome =
    | Completed
    | Retried(times: nat)
    | Aborted(atStep: nat, reason: Cause)
    | Failed(atStep: nat, reason: Cause)

  predicate IsSuccess(o: Outcome) {
    o.Completed? || o.Retried?
  }

  datatype Lifecycle =
    | LifecyclePlanned
    | LifecycleUploaded
    | LifecycleStarted
    | LifecycleCompleted
    | LifecycleAborted
    | LifecycleUnsupported

  /** What a step is called in the report; `Rendered` gives the text. */
  datatype StepName = Issued(command: CommandName) | Uploaded | FenceUploaded

  function Rendered(n: StepName): string {
    match n
    case Issued(command) => Name(command)
    case Uploaded => "mission_upload"
    case FenceUploaded => "fc_config_geofence_upload"
  }

  datatype Step = Step(index: nat, name: StepName, result: StepResult)

  datatype Report = Report(planId: string, steps: seq<Step>, overall: Outcome, lifecycle: Lifecycle,
                           heartbeatReached: bool, retryCount: nat)

  // ----- what is asked -----

  datatype Request =
    | AskPrelude(command: CommonCommand)
    | AskUpload
    | AskStart(command: CommonCommand)
    | AskPostlude(command: CommonCommand)

  function Label(r: Request): StepName {
    if r.AskUpload? then Uploaded else Issued(r.command.command)
  }

  function PreludeRequests(plan: Plan): (r: seq<Request>)
    ensures |r| == |plan.prelude|
  {
    seq(|plan.prelude|, i requires 0 <= i < |plan.prelude| => AskPrelude(plan.prelude[i]))
  }

  function PostludeRequests(plan: Plan): (r: seq<Request>)
    ensures |r| == |plan.postlude|
  {
    seq(|plan.postlude|, i requires 0 <= i < |plan.postlude| => AskPostlude(plan.postlude[i]))
  }

  function UploadRequests(plan: Plan): seq<Request> {
    if plan.items == [] then [] else [AskUpload]
  }

  function StartRequests(plan: Plan): seq<Request> {
    if plan.start.Some? then [AskStart(plan.start.value)] else []
  }

  /** All steps of a plan, in the order they are taken. */
  function Requests(plan: Plan): seq<Request> {
    PreludeRequests(plan) + UploadRequests(plan) + StartRequests(plan) + PostludeRequests(plan)
  }

  /** One question and its answer. */
  datatype Call = Call(request: Request, answer: StepResult)

  /** Any behaviour at all; the log is kept only for the specification. */
  class AckProvider {
    ghost var log: seq<Call>

    method Answer(request: Request) returns (r: StepResult)
      modifies this
      ensures log == old(log) + [Call(request, r)]
    {
      r := *;
      log := log + [Call(request, r)];
    }
  }

  // ----- runs -----

  /** All answers received for one step: timeouts are asked again while the budget lasts. */
  type Attempt = seq<StepResult>

  predicate AttemptOk(a: Attempt, budget: nat) {
    && 1 <= |a| <= budget + 1
    && (forall i :: 0 <= i < |a| - 1 ==> a[i].Timeout?)
    && (a[|a| - 1].Timeout? ==> |a| == budget + 1)
  }

  function Final(a: Attempt): StepResult {
    if a == [] then Accepted else a[|a| - 1]
  }

  /** Steps are taken in order; a step that does not fail is followed by the next one, and a
      failing step ends the run. */
  ghost predicate IsRun(requests: seq<Request>, budget: nat, attempts: seq<Attempt>) {
    && |attempts| <= |requests|
    && (forall i :: 0 <= i < |attempts| ==> AttemptOk(attempts[i], budget))
    && (forall i :: 0 <= i < |attempts| - 1 ==> !Fails(Final(attempts[i])))
    && (|attempts| < |requests| ==> |attempts| > 0 && Fails(Final(attempts[|attempts| - 1])))
  }

  /** A run that has not failed so far. */
  ghost predicate OnTrack(requests: seq<Request>, budget: nat, attempts: seq<Attempt>) {
    && |attempts| <= |requests|
    && forall i :: 0 <= i < |attempts| ==> AttemptOk(attempts[i], budget) && !Fails(Final(attempts[i]))
  }

  function CallsFor(request: Request, a: Attempt): (r: seq<Call>)
    ensures |r| == |a|
  {
    seq(|a|, i requires 0 <= i < |a| => Call(request, a[i]))
  }

  function Calls(requests: seq<Request>, attempts: seq<Attempt>): seq<Call>
    requires |attempts| <= |requests|
  {
    if attempts == [] then []
    else
      var n := |attempts| - 1;
      Calls(requests, attempts[..n]) + CallsFor(requests[n], attempts[n])
  }

  function Steps(requests: seq<Request>, attempts: seq<Attempt>): (r: seq<Step>)
    requires |attempts| <= |requests|
    ensures |r| == |attempts|
  {
    seq(|attempts|, i requires 0 <= i < |attempts| => Step(i, Label(requests[i]), Final(attempts[i])))
  }

  function Retries(attempts: seq<Attempt>): nat {
    if attempts == [] then 0
    else
      var a := attempts[|attempts| - 1];
      Retries(attempts[..|attempts| - 1]) + if a == [] then 0 else |a| - 1
  }

  function CauseText(c: Cause): string {
    match c
    case Given(text) => text
    case TimeoutOf(request, afterMs) =>
      var after := "timeout after " + Decimal(afterMs) + "ms";
      match request
      case AskPrelude(_) => after + " for " + Rendered(Label(request))
      case AskUpload => "upload " + after
      case AskStart(_) => "mission start " + after
      case AskPostlude(_) => "postlude " + after + " for " + Rendered(Label(request))
  }

  function FailureOutcome(request: Request, index: nat, r: StepResult): Outcome {
    match r
    case Rejected(reason) => Aborted(index, Given(reason))
    case Timeout(ms) => Aborted(index, TimeoutOf(request, ms))
    case TransportFailure(reason) => Failed(index, Given(reason))
    case _ => Completed
  }

  function SuccessOutcome(retries: nat): Outcome {
    if retries == 0 then Completed else Retried(retries)
  }

  /** The report of a run. */
  function ReportOf(planId: string, requests: seq<Request>, attempts: seq<Attempt>): Report
    requires |attempts| <= |requests|
  {
    var n, retries := |attempts|, Retries(attempts);
    if n > 0 && Fails(Final(attempts[n - 1])) then
      Report(planId, Steps(requests, attempts), FailureOutcome(requests[n - 1], n - 1, Final(attempts[n - 1])),
             LifecycleAborted, false, retries)
    else
      Report(planId, Steps(requests, attempts), SuccessOutcome(retries), LifecycleCompleted, true, retries)
  }

  // ----- guards -----

  predicate FenceGuard(plan: Plan) {
    plan.geofence.Some? && plan.geofence.value != []
  }

  predicate ContractGuard(plan: Plan) {
    plan.contract.Some? && plan.contract.value.blocksMissionStart
  }

  const FENCE_REASON :=
    "unsupported FC config phase: current MAVLink Common generated mission messages do not expose " +
    "mission_type=MAV_MISSION_TYPE_FENCE; refusing to execute geofence prelude before fence upload support exists"

  function FenceReport(plan: Plan): Report {
    Report(plan.sourceMissionId, [Step(0, FenceUploaded, Rejected(FENCE_REASON))],
           Aborted(0, Given(FENCE_REASON)), LifecycleAborted, false, 0)
  }

  function ContractReport(plan: Plan): Report
    requires ContractGuard(plan)
  {
    Report(plan.sourceMissionId, [], Aborted(0, Given(plan.contract.value.summary)), LifecycleAborted, false, 0)
  }

  /** `report` and `calls` are what some run of the plan gives. */
  ghost predicate Executed(plan: Plan, budget: nat, calls: seq<Call>, report: Report) {
    if FenceGuard(plan) then calls == [] && report == FenceReport(plan)
    else if ContractGuard(plan) then calls == [] && report == ContractReport(plan)
    else exists attempts :: RunGives(plan, budget, attempts, calls, report)
  }

  ghost predicate RunGives(plan: Plan, budget: nat, attempts: seq<Attempt>, calls: seq<Call>, report: Report) {
    && IsRun(Requests(plan), budget, attempts)
    && calls == Calls(Requests(plan), attempts)
    && report == ReportOf(plan.sourceMissionId, Requests(plan), attempts)
  }

  // ----- the executor -----

  /** Ask until something other than a timeout comes back or the budget is used up. */
  method TryWithRetry(ack: AckProvider, request: Request, budget: nat)
    returns (result: StepResult, retries: nat, ghost a: Attempt)
    modifies ack
    ensures AttemptOk(a, budget) && Final(a) == result && retries == |a| - 1
    ensures ack.log == old(ack.log) + CallsFor(request, a)
  {
    retries := 0;
    a := [];
    while true
      invariant |a| == retries <= budget && forall i :: 0 <= i < |a| ==> a[i].Timeout?
      invariant ack.log == old(ack.log) + CallsFor(request, a)
      decreases budget - retries
    {
      result := ack.Answer(request);
      assert CallsFor(request, a + [result]) == CallsFor(request, a) + [Call(request, result)];
      a := a + [result];
      if result.Timeout? && retries < budget {
        retries := retries + 1;
      } else {
        return;
      }
    }
  }

  lemma RunSnoc(requests: seq<Request>, budget: nat, attempts: seq<Attempt>, a: Attempt)
    requires OnTrack(requests, budget, attempts) && |attempts| < |requests| && AttemptOk(a, budget)
    ensures Calls(requests, attempts + [a]) == Calls(requests, attempts) + CallsFor(requests[|attempts|], a)
    ensures Steps(requests, attempts + [a]) ==
            Steps(requests, attempts) + [Step(|attempts|, Label(requests[|attempts|]), Final(a))]
    ensures Retries(attempts + [a]) == Retries(attempts) + |a| - 1
  {
    assert (attempts + [a])[..|attempts|] == attempts;
  }

  lemma RunContinues(requests: seq<Request>, budget: nat, attempts: seq<Attempt>, a: Attempt)
    requires OnTrack(requests, budget, attempts) && |attempts| < |requests| && AttemptOk(a, budget)
    ensures !Fails(Final(a)) ==> OnTrack(requests, budget, attempts + [a])
    ensures Fails(Final(a)) ==> IsRun(requests, budget, attempts + [a])
  {
    var longer := attempts + [a];
    assert forall i :: 0 <= i < |attempts| ==> longer[i] == attempts[i];
  }

  /** The state of an execution: steps and retries so far are those of the attempts. */
  ghost predicate Tracks(requests: seq<Request>, budget: nat, attempts: seq<Attempt>, steps: seq<Step>, retries: nat) {
    OnTrack(requests, budget, attempts) && steps == Steps(requests, attempts) && retries == Retries(attempts)
  }

  /** After `done` steps, those of `phase` are next. */
  ghost predicate IsNext(all: seq<Request>, done: nat, phase: seq<Request>) {
    done + |phase| <= |all| && phase == all[done..done + |phase|]
  }

  /** One more step of a run, taken with the answers `a`. */
  lemma NextStep(all: seq<Request>, budget: nat, attempts: seq<Attempt>, steps: seq<Step>, retries: nat, a: Attempt,
                 planId: string)
    requires Tracks(all, budget, attempts, steps, retries) && |attempts| < |all| && AttemptOk(a, budget)
    ensures var n, more := |attempts|, attempts + [a];
            var steps', retries' := steps + [Step(n, Label(all[n]), Final(a))], retries + |a| - 1;
            && Calls(all, more) == Calls(all, attempts) + CallsFor(all[n], a)
            && (!Fails(Final(a)) ==> Tracks(all, budget, more, steps', retries'))
            && (Fails(Final(a)) ==>
                  && IsRun(all, budget, more)
                  && ReportOf(planId, all, more) ==
                       Report(planId, steps', FailureOutcome(all[n], n, Final(a)), LifecycleAborted, false, retries'))
  {
    RunSnoc(all, budget, attempts, a);
    RunContinues(all, budget, attempts, a);
  }

  /** How an execution stands: on its way, or stopped with the report of a failed run. */
  ghost predicate Stands(planId: string, all: seq<Request>, budget: nat, attempts: seq<Attempt>, steps: seq<Step>,
                         retries: nat, stop: Option<Report>)
  {
    match stop
    case None => Tracks(all, budget, attempts, steps, retries)
    case Some(report) => IsRun(all, budget, attempts) && report == ReportOf(planId, all, attempts)
  }

  /** Take one step. */
  method TakeStep(ack: AckProvider, planId: string, ghost all: seq<Request>, request: Request, budget: nat,
                  steps: seq<Step>, retries: nat, ghost attempts: seq<Attempt>, ghost log: seq<Call>)
    returns (steps': seq<Step>, retries': nat, stop: Option<Report>, ghost attempts': seq<Attempt>)
    requires Tracks(all, budget, attempts, steps, retries) && |attempts| < |all| && all[|attempts|] == request
    requires ack.log == log + Calls(all, attempts)
    modifies ack
    ensures |attempts'| == |attempts| + 1 && Stands(planId, all, budget, attempts', steps', retries', stop)
    ensures ack.log == log + Calls(all, attempts')
  {
    var result, tries;
    ghost var a;
    result, tries, a := TryWithRetry(ack, request, budget);
    NextStep(all, budget, attempts, steps, retries, a, planId);
    var index := |steps|;
    attempts' := attempts + [a];
    steps', retries' := steps + [Step(index, Label(request), result)], retries + tries;
    stop := if Fails(result)
      then Some(Report(planId, steps', FailureOutcome(request, index, result), LifecycleAborted, false, retries'))
      else None;
  }

  /** Take the steps of one phase, `all[|steps|..|steps| + |phase|]`. On the first failure the
      final report is returned. */
  method RunPhase(ack: AckProvider, planId: string, ghost all: seq<Request>, phase: seq<Request>, budget: nat,
                  steps: seq<Step>, retries: nat, ghost attempts: seq<Attempt>, ghost log: seq<Call>)
    returns (steps': seq<Step>, retries': nat, stop: Option<Report>, ghost attempts': seq<Attempt>)
    requires Tracks(all, budget, attempts, steps, retries)
    requires ack.log == log + Calls(all, attempts)
    requires IsNext(all, |attempts|, phase)
    modifies ack
    ensures |attempts'| <= |all| && Stands(planId, all, budget, attempts', steps', retries', stop)
    ensures ack.log == log + Calls(all, attempts')
    ensures stop.None? ==> |attempts'| == |attempts| + |phase|
  {
    steps', retries', attempts', stop := steps, retries, attempts, None;
    for k := 0 to |phase|
      invariant stop.None? && Tracks(all, budget, attempts', steps', retries') && |attempts'| == |attempts| + k
      invariant ack.log == log + Calls(all, attempts')
    {
      steps', retries', stop, attempts' :=
        TakeStep(ack, planId, all, phase[k], budget, steps', retries', attempts', log);
      if stop.Some? {
        return;
      }
    }
  }

  /** The phases before the mission is started: prelude commands, then the upload. */
  method RunUntilUploaded(ack: AckProvider, plan: Plan, budget: nat, ghost log: seq<Call>)
    returns (steps: seq<Step>, retries: nat, stop: Option<Report>, ghost attempts: seq<Attempt>)
    requires ack.log == log
    modifies ack
    ensures |attempts| <= |Requests(plan)| && ack.log == log + Calls(Requests(plan), attempts)
    ensures stop.None? ==> Tracks(Requests(plan), budget, attempts, steps, retries)
                           && |attempts| == |plan.prelude| + |UploadRequests(plan)|
    ensures stop.Some? ==> IsRun(Requests(plan), budget, attempts)
                           && stop.value == ReportOf(plan.sourceMissionId, Requests(plan), attempts)
  {
    ghost var all := Requests(plan);
    PreludeIsNext(plan);
    steps, retries, stop, attempts :=
      RunPhase(ack, plan.sourceMissionId, all, PreludeRequests(plan), budget, [], 0, [], log);
    if stop.None? {
      UploadIsNext(plan);
      steps, retries, stop, attempts :=
        RunPhase(ack, plan.sourceMissionId, all, UploadRequests(plan), budget, steps, retries, attempts, log);
    }
  }

  /** All phases, once the guards have let the plan through. */
  method RunPhases(ack: AckProvider, plan: Plan, budget: nat) returns (report: Report, ghost attempts: seq<Attempt>)
    modifies ack
    ensures IsRun(Requests(plan), budget, attempts)
    ensures report == ReportOf(plan.sourceMissionId, Requests(plan), attempts)
    ensures ack.log == old(ack.log) + Calls(Requests(plan), attempts)
  {
    ghost var all, log := Requests(plan), ack.log;
    var id := plan.sourceMissionId;
    var steps, retries, stop;
    steps, retries, stop, attempts := RunUntilUploaded(ack, plan, budget, log);
    if stop.Some? {
      return stop.value, attempts;
    }
    StartIsNext(plan);
    steps, retries, stop, attempts :=
      RunPhase(ack, id, all, StartRequests(plan), budget, steps, retries, attempts, log);
    if stop.Some? {
      return stop.value, attempts;
    }
    PostludeIsNext(plan);
    steps, retries, stop, attempts :=
      RunPhase(ack, id, all, PostludeRequests(plan), budget, steps, retries, attempts, log);
    if stop.Some? {
      return stop.value, attempts;
    }
    AllDone(id, all, budget, attempts, steps, retries);
    report := Report(id, steps, SuccessOutcome(retries), LifecycleCompleted, true, retries);
  }

  lemma AllDone(id: string, all: seq<Request>, budget: nat, attempts: seq<Attempt>, steps: seq<Step>, retries: nat)
    requires Tracks(all, budget, attempts, steps, retries) && |attempts| == |all|
    ensures IsRun(all, budget, attempts)
    ensures ReportOf(id, all, attempts) == Report(id, steps, SuccessOutcome(retries), LifecycleCompleted, true, retries)
  {
  }

  lemma PreludeIsNext(plan: Plan)
    ensures IsNext(Requests(plan), 0, PreludeRequests(plan))
  {
  }

  lemma UploadIsNext(plan: Plan)
    ensures IsNext(Requests(plan), |plan.prelude|, UploadRequests(plan))
  {
  }

  lemma StartIsNext(plan: Plan)
    ensures IsNext(Requests(plan), |plan.prelude| + |UploadRequests(plan)|, StartRequests(plan))
  {
  }

  lemma PostludeIsNext(plan: Plan)
    ensures var done := |plan.prelude| + |UploadRequests(plan)| + |StartRequests(plan)|;
            IsNext(Requests(plan), done, PostludeRequests(plan))
    ensures |Requests(plan)| == |plan.prelude| + |UploadRequests(plan)| + |StartRequests(plan)| + |plan.postlude|
  {
  }

  /** Execute a plan against any acknowledgement behaviour. */
  method Execute(ack: AckProvider, plan: Plan, budget: nat) returns (report: Report, ghost calls: seq<Call>)
    modifies ack
    ensures ack.log == old(ack.log) + calls
    ensures Executed(plan, budget, calls, report)
  {
    calls := [];
    if plan.geofence.Some? && plan.geofence.value != [] {
      return FenceReport(plan), [];
    }
    if plan.contract.Some? && plan.contract.value.blocksMissionStart {
      return ContractReport(plan), [];
    }
    ghost var attempts;
    report, attempts := RunPhases(ack, plan, budget);
    calls := Calls(Requests(plan), attempts);
    assert RunGives(plan, budget, attempts, calls, report);
  }
}
