/** What the progress tracker tells its caller, read off the history. */
module SitlReports {
  import opened Basics
  import opened SitlProgress

  /** The tasks some sequence number of which was reached. */
  function ReachedTasks(mission: Mission, events: seq<Event>): set<string> {
    set task | task in mission.Values && WasReached(mission, events, task)
  }

  /** The task of the last known sequence number that was announced or reached. */
  function LastTask(mission: Mission, events: seq<Event>): Option<string> {
    if events == [] then None
    else
      var e := events[|events| - 1];
      if (e.Current? || e.Reached?) && e.item in mission then Some(mission[e.item])
      else LastTask(mission, events[..|events| - 1])
  }

  /** The words of a failure. */
  function Words(e: Event): string {
    match e
    case Rejected(reason) => reason
    case TimedOut(reason) => reason
    case Disconnected => "telemetry disconnected"
    case _ => "mission complete before all waypoint tasks were reached"
  }

  /** The words of the last failure. */
  function LastWords(mission: Mission, events: seq<Event>): Option<string> {
    if events == [] then None
    else
      var init, e := events[..|events| - 1], events[|events| - 1];
      if FailureAfter(mission, init, e) then Some(Words(e)) else LastWords(mission, init)
  }

  /** The verdict of the last event that gives one; failed as long as there is none. */
  ghost predicate FinalIs(mission: Mission, events: seq<Event>, f: Final) {
    (NoVerdict(mission, events) && f == MissionFailed) || exists i: nat :: LastVerdict(mission, events, i, f)
  }

  /** The report counts the tasks reached, and after a failure all others as failed; it names the
      task last announced or reached, the last verdict and the last failure. */
  ghost predicate Tells(mission: Mission, events: seq<Event>, r: Report) {
    var reached := ReachedTasks(mission, events);
    && r.total == |mission.Values| && r.completed == |reached|
    && r.failed == (if HasFailed(mission, events) then |mission.Values - reached| else 0)
    && r.task == LastTask(mission, events) && r.reason == LastWords(mission, events)
    && FinalIs(mission, events, r.final)
  }

  lemma CompletedAreReached(mission: Mission, events: seq<Event>, statuses: map<string, Status>)
    requires Matches(mission, events, statuses)
    ensures |statuses| == |mission.Values| && Count(statuses, Completed) == |ReachedTasks(mission, events)|
  {
    assert |statuses| == |statuses.Keys|;
    var those := set t | t in statuses && statuses[t] == Completed;
    forall t ensures t in those <==> t in ReachedTasks(mission, events) {
      assert t in mission.Values ==> statuses[t] == StatusOf(mission, events, t);
    }
    assert those == ReachedTasks(mission, events);
  }

  lemma FailedAreLeft(mission: Mission, events: seq<Event>, statuses: map<string, Status>)
    requires Matches(mission, events, statuses)
    ensures Count(statuses, Failed) ==
            if HasFailed(mission, events) then |mission.Values - ReachedTasks(mission, events)| else 0
  {
    var those := set t | t in statuses && statuses[t] == Failed;
    var left := if HasFailed(mission, events) then mission.Values - ReachedTasks(mission, events) else {};
    forall t ensures t in those <==> t in left {
      assert t in mission.Values ==> statuses[t] == StatusOf(mission, events, t);
    }
    assert those == left;
  }

  lemma {:induction false} CurrentIsHistory(mission: Mission, events: seq<Event>)
    ensures var current := Run(mission, events).current;
            && (current.Some? ==> current.value in mission)
            && LastTask(mission, events) == if current.Some? then Some(mission[current.value]) else None
  {
    if events != [] {
      CurrentIsHistory(mission, events[..|events| - 1]);
    }
  }

  lemma {:induction false} ReasonIsHistory(mission: Mission, events: seq<Event>)
    ensures Run(mission, events).reason == LastWords(mission, events)
  {
    if events != [] {
      var init := events[..|events| - 1];
      ReasonIsHistory(mission, init);
      StatusesAreHistory(mission, init);
      DoneMeansReached(mission, init, Run(mission, init));
    }
  }

  /** After any history the report tells that history. */
  lemma ReportIsHistory(mission: Mission, events: seq<Event>)
    ensures Tells(mission, events, ReportOf(mission, Run(mission, events)))
  {
    var t := Run(mission, events);
    StatusesAreHistory(mission, events);
    CompletedAreReached(mission, events, t.statuses);
    FailedAreLeft(mission, events, t.statuses);
    CurrentIsHistory(mission, events);
    ReasonIsHistory(mission, events);
    FinalIsLastVerdict(mission, events);
  }

  /** What the caller is to hear after `e`. */
  ghost predicate Says(mission: Mission, before: seq<Event>, e: Event, update: Update) {
    var events, total := before + [e], |mission.Values|;
    var reached := |ReachedTasks(mission, events)|;
    match e
    case Heartbeat(_) => update == Beat
    case Current(item, _) =>
      update == if item in mission then Now(item, mission[item], reached, total) else UnknownItem(item)
    case Reached(item, _) =>
      if item !in mission then update == UnknownItem(item)
      else if AllReached(mission, events) then update.Done? && Tells(mission, events, update.report)
      else update == Passed(item, mission[item], reached, total)
    case MissionComplete(_) =>
      && (if AllReached(mission, before) then update.Done? else update.GaveUp?)
      && Tells(mission, events, update.report)
    case _ => update.GaveUp? && Tells(mission, events, update.report)
  }

  /** After any history, and whatever comes next, the caller hears what happened. */
  lemma AnswerIsHistory(mission: Mission, before: seq<Event>, e: Event)
    ensures Says(mission, before, e, Answer(mission, Run(mission, before + [e]), e))
  {
    var events := before + [e];
    var t := Run(mission, events);
    ReportIsHistory(mission, events);
    StatusesAreHistory(mission, events);
    CompletedAreReached(mission, events, t.statuses);
    DoneMeansReached(mission, events, t);
    if e.MissionComplete? {
      CompletionMovesNothing(mission, before, e);
    }
  }

  lemma CompletionMovesNothing(mission: Mission, before: seq<Event>, e: Event)
    requires e.MissionComplete?
    ensures AllReached(mission, before + [e]) <==> AllReached(mission, before)
  {
    forall task | task in mission.Values
      ensures WasReached(mission, before + [e], task) <==> WasReached(mission, before, task)
    {
      WasReachedSnoc(mission, before, e, task);
    }
  }
}
