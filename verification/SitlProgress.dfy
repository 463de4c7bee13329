/** Mission progress tracked from telemetry: task statuses, the final status and the reports,
    each as a function of everything the tracker was told. */
module SitlProgress {
  import opened Basics

  datatype Status = Unassigned | InProgress | Completed | Failed

  datatype Final = MissionCompleted | MissionFailed | Disconnection | Rejection | NoProgress

  /** Telemetry with the time it came where that is kept, and the caller's decision that nothing
      moves any more. */
  datatype Event =
    | Heartbeat(now: nat)
    | Current(item: nat, now: nat)
    | Reached(item: nat, now: nat)
    | MissionComplete(now: nat)
    | Rejected(reason: string)
    | Disconnected
    | TimedOut(reason: string)

  /** Which task each mission sequence number belongs to. Several may belong to one task. */
  type Mission = map<nat, string>

  datatype Tracker = Tracker(statuses: map<string, Status>, current: Option<nat>, final: Option<Final>,
                             reason: Option<string>, heartbeat: Option<nat>, progress: Option<nat>)

  datatype Report = Report(final: Final, total: nat, completed: nat, failed: nat, task: Option<string>,
                           reason: Option<string>)

  datatype Update =
    | UnknownItem(item: nat)
    | Beat
    | Now(item: nat, task: string, completed: nat, total: nat)
    | Passed(item: nat, task: string, completed: nat, total: nat)
    | Done(report: Report)
    | GaveUp(report: Report)

  const EARLY := "mission complete before all waypoint tasks were reached"
  const LOST := "telemetry disconnected"

  // ----- one event -----

  function Count(statuses: map<string, Status>, s: Status): nat {
    |set t | t in statuses && statuses[t] == s|
  }

  function FailRest(statuses: map<string, Status>): (r: map<string, Status>)
    ensures r.Keys == statuses.Keys
  {
    map t | t in statuses :: if statuses[t].Completed? then Completed else Failed
  }

  function Fail(t: Tracker, final: Final, reason: string): Tracker {
    t.(statuses := FailRest(t.statuses), final := Some(final), reason := Some(reason))
  }

  function SetStatus(t: Tracker, task: string, s: Status): Tracker {
    if task in t.statuses then t.(statuses := t.statuses[task := s]) else t
  }

  predicate AllDone(t: Tracker) {
    Count(t.statuses, Completed) == |t.statuses|
  }

  function Visit(mission: Mission, t: Tracker, item: nat, now: nat): Tracker
    requires item in mission
  {
    var task, moved := mission[item], t.(current := Some(item), progress := Some(now));
    if task in t.statuses && t.statuses[task] != Completed && t.statuses[task] != Failed
    then SetStatus(moved, task, InProgress) else moved
  }

  /** The tracker with the reached task completed, before the final status is looked at. */
  function Passing(mission: Mission, t: Tracker, item: nat, now: nat): Tracker
    requires item in mission
  {
    SetStatus(t.(current := Some(item), progress := Some(now)), mission[item], Completed)
  }

  function Arrive(mission: Mission, t: Tracker, item: nat, now: nat): Tracker
    requires item in mission
  {
    var moved := Passing(mission, t, item, now);
    if AllDone(moved) then moved.(final := Some(MissionCompleted)) else moved
  }

  function Conclude(t: Tracker, now: nat): Tracker {
    var seen := t.(progress := Some(now));
    if AllDone(t) then seen.(final := Some(MissionCompleted)) else Fail(seen, MissionFailed, EARLY)
  }

  function Step(mission: Mission, t: Tracker, e: Event): Tracker {
    match e
    case Heartbeat(now) => t.(heartbeat := Some(now))
    case Current(item, now) => if item in mission then Visit(mission, t, item, now) else t
    case Reached(item, now) => if item in mission then Arrive(mission, t, item, now) else t
    case MissionComplete(now) => Conclude(t, now)
    case Rejected(reason) => Fail(t, Rejection, reason)
    case Disconnected => Fail(t, Disconnection, LOST)
    case TimedOut(reason) => Fail(t, NoProgress, reason)
  }

  function Fresh(mission: Mission): Tracker {
    Tracker(map task | task in mission.Values :: Unassigned, None, None, None, None, None)
  }

  function Run(mission: Mission, events: seq<Event>): Tracker {
    if events == [] then Fresh(mission)
    else Step(mission, Run(mission, events[..|events| - 1]), events[|events| - 1])
  }

  lemma RunSnoc(mission: Mission, events: seq<Event>, e: Event)
    ensures Run(mission, events + [e]) == Step(mission, Run(mission, events), e)
  {
    assert (events + [e])[..|events|] == events;
  }

  function ReportOf(mission: Mission, t: Tracker): Report {
    Report(
      if t.final.Some? then t.final.value else MissionFailed,
      |t.statuses|, Count(t.statuses, Completed), Count(t.statuses, Failed),
      if t.current.Some? && t.current.value in mission then Some(mission[t.current.value]) else None,
      t.reason)
  }

  /** What the caller is told, given the state after the event. */
  function Answer(mission: Mission, t: Tracker, e: Event): Update {
    match e
    case Heartbeat(_) => Beat
    case Current(item, _) =>
      if item in mission then Now(item, mission[item], Count(t.statuses, Completed), |t.statuses|)
      else UnknownItem(item)
    case Reached(item, _) =>
      if item !in mission then UnknownItem(item)
      else if AllDone(t) then Done(ReportOf(mission, t))
      else Passed(item, mission[item], Count(t.statuses, Completed), |t.statuses|)
    case MissionComplete(_) => if AllDone(t) then Done(ReportOf(mission, t)) else GaveUp(ReportOf(mission, t))
    case _ => GaveUp(ReportOf(mission, t))
  }

  // ----- history -----

  predicate ReachedBy(mission: Mission, e: Event, task: string) {
    e.Reached? && e.item in mission && mission[e.item] == task
  }

  predicate VisitedBy(mission: Mission, e: Event, task: string) {
    e.Current? && e.item in mission && mission[e.item] == task
  }

  predicate WasReached(mission: Mission, events: seq<Event>, task: string) {
    exists i :: 0 <= i < |events| && ReachedBy(mission, events[i], task)
  }

  predicate WasVisited(mission: Mission, events: seq<Event>, task: string) {
    exists i :: 0 <= i < |events| && VisitedBy(mission, events[i], task)
  }

  predicate AllReached(mission: Mission, events: seq<Event>) {
    forall task :: task in mission.Values ==> WasReached(mission, events, task)
  }

  /** A rejection, a disconnection, a timeout, or a completion message that came too early. */
  predicate FailureAfter(mission: Mission, before: seq<Event>, e: Event) {
    e.Rejected? || e.Disconnected? || e.TimedOut? || (e.MissionComplete? && !AllReached(mission, before))
  }

  predicate HasFailed(mission: Mission, events: seq<Event>) {
    exists i :: 0 <= i < |events| && FailureAfter(mission, events[..i], events[i])
  }

  /** A task's status, read off the history. */
  function StatusOf(mission: Mission, events: seq<Event>, task: string): Status {
    if WasReached(mission, events, task) then Completed
    else if HasFailed(mission, events) then Failed
    else if WasVisited(mission, events, task) then InProgress
    else Unassigned
  }

  lemma WasReachedSnoc(mission: Mission, events: seq<Event>, e: Event, task: string)
    ensures WasReached(mission, events + [e], task) <==>
            WasReached(mission, events, task) || ReachedBy(mission, e, task)
  {
    var all := events + [e];
    assert all[|events|] == e && forall i :: 0 <= i < |events| ==> all[i] == events[i];
  }

  lemma WasVisitedSnoc(mission: Mission, events: seq<Event>, e: Event, task: string)
    ensures WasVisited(mission, events + [e], task) <==>
            WasVisited(mission, events, task) || VisitedBy(mission, e, task)
  {
    var all := events + [e];
    assert all[|events|] == e && forall i :: 0 <= i < |events| ==> all[i] == events[i];
  }

  lemma HasFailedSnoc(mission: Mission, events: seq<Event>, e: Event)
    ensures HasFailed(mission, events + [e]) <==> HasFailed(mission, events) || FailureAfter(mission, events, e)
  {
    var all := events + [e];
    assert all[..|events|] == events && all[|events|] == e;
    assert forall i :: 0 <= i < |events| ==> all[..i] == events[..i] && all[i] == events[i];
  }

  lemma StatusOfSnoc(mission: Mission, events: seq<Event>, e: Event, task: string)
    ensures StatusOf(mission, events + [e], task) ==
            var s := StatusOf(mission, events, task);
            if ReachedBy(mission, e, task) then Completed
            else if s.Completed? then Completed
            else if FailureAfter(mission, events, e) then Failed
            else if s.Unassigned? && VisitedBy(mission, e, task) then InProgress
            else s
  {
    WasReachedSnoc(mission, events, e, task);
    WasVisitedSnoc(mission, events, e, task);
    HasFailedSnoc(mission, events, e);
  }

  ghost predicate Matches(mission: Mission, events: seq<Event>, statuses: map<string, Status>) {
    && statuses.Keys == mission.Values
    && forall task :: task in mission.Values ==> statuses[task] == StatusOf(mission, events, task)
  }

  lemma CountAll(statuses: map<string, Status>, s: Status)
    ensures Count(statuses, s) <= |statuses|
    ensures Count(statuses, s) == |statuses| <==> forall t :: t in statuses ==> statuses[t] == s
  {
    var those := set t | t in statuses && statuses[t] == s;
    assert those <= statuses.Keys && |statuses| == |statuses.Keys|;
    FullSubset(those, statuses.Keys);
  }

  lemma DoneMeansReached(mission: Mission, events: seq<Event>, t: Tracker)
    requires Matches(mission, events, t.statuses)
    ensures AllDone(t) <==> AllReached(mission, events)
  {
    CountAll(t.statuses, Completed);
    forall task | task in mission.Values
      ensures t.statuses[task].Completed? <==> WasReached(mission, events, task)
    {
      assert t.statuses[task] == StatusOf(mission, events, task);
    }
  }

  lemma FailMatches(mission: Mission, events: seq<Event>, t: Tracker, e: Event)
    requires Matches(mission, events, t.statuses) && FailureAfter(mission, events, e)
    ensures Matches(mission, events + [e], FailRest(t.statuses))
  {
    forall task | task in mission.Values ensures FailRest(t.statuses)[task] == StatusOf(mission, events + [e], task) {
      StatusOfSnoc(mission, events, e, task);
    }
  }

  lemma VisitMatches(mission: Mission, events: seq<Event>, t: Tracker, item: nat, now: nat)
    requires Matches(mission, events, t.statuses) && item in mission
    ensures Matches(mission, events + [Current(item, now)], Visit(mission, t, item, now).statuses)
  {
    var e, after := Current(item, now), Visit(mission, t, item, now).statuses;
    assert mission[item] in mission.Values;
    forall task | task in mission.Values ensures after[task] == StatusOf(mission, events + [e], task) {
      StatusOfSnoc(mission, events, e, task);
    }
  }

  lemma PassMatches(mission: Mission, events: seq<Event>, t: Tracker, item: nat, now: nat)
    requires Matches(mission, events, t.statuses) && item in mission
    ensures Matches(mission, events + [Reached(item, now)], Passing(mission, t, item, now).statuses)
  {
    var e, after := Reached(item, now), Passing(mission, t, item, now).statuses;
    assert mission[item] in mission.Values;
    forall task | task in mission.Values ensures after[task] == StatusOf(mission, events + [e], task) {
      StatusOfSnoc(mission, events, e, task);
    }
  }

  /** An event that neither moves a task nor fails the mission. */
  predicate Quiet(mission: Mission, events: seq<Event>, e: Event) {
    && !FailureAfter(mission, events, e)
    && (e.Reached? ==> e.item !in mission) && (e.Current? ==> e.item !in mission)
  }

  lemma QuietMatches(mission: Mission, events: seq<Event>, t: Tracker, e: Event)
    requires Matches(mission, events, t.statuses) && Quiet(mission, events, e)
    ensures Matches(mission, events + [e], t.statuses)
  {
    forall task | task in mission.Values ensures t.statuses[task] == StatusOf(mission, events + [e], task) {
      StatusOfSnoc(mission, events, e, task);
    }
  }

  lemma StepMatches(mission: Mission, events: seq<Event>, t: Tracker, e: Event)
    requires Matches(mission, events, t.statuses)
    ensures Matches(mission, events + [e], Step(mission, t, e).statuses)
  {
    DoneMeansReached(mission, events, t);
    if e.Current? && e.item in mission {
      VisitMatches(mission, events, t, e.item, e.now);
    } else if e.Reached? && e.item in mission {
      PassMatches(mission, events, t, e.item, e.now);
    } else if FailureAfter(mission, events, e) {
      FailMatches(mission, events, t, e);
    } else {
      QuietMatches(mission, events, t, e);
    }
  }

  /** After any history a task is completed exactly when one of its sequence numbers was
      reached; otherwise failed exactly when a failure happened; otherwise in progress exactly
      when it was announced as current. */
  lemma {:induction false} StatusesAreHistory(mission: Mission, events: seq<Event>)
    ensures Matches(mission, events, Run(mission, events).statuses)
  {
    if events != [] {
      var init, last := events[..|events| - 1], events[|events| - 1];
      StatusesAreHistory(mission, init);
      StepMatches(mission, init, Run(mission, init), last);
      assert init + [last] == events;
    }
  }

  // ----- counts -----

  lemma CountTwo(statuses: map<string, Status>)
    ensures Count(statuses, Completed) + Count(statuses, Failed) <= |statuses|
    ensures Count(statuses, Completed) + Count(statuses, Failed) == |statuses| <==>
            forall t :: t in statuses ==> statuses[t].Completed? || statuses[t].Failed?
  {
    var done := set t | t in statuses && statuses[t] == Completed;
    var failed := set t | t in statuses && statuses[t] == Failed;
    assert done !! failed && |done + failed| == |done| + |failed|;
    assert |statuses| == |statuses.Keys|;
    FullSubset(done + failed, statuses.Keys);
    assert forall t :: t in done + failed <==> t in statuses && (statuses[t].Completed? || statuses[t].Failed?);
  }

  /** Completed and failed tasks make up all tasks exactly when a failure happened or every
      task was reached. So the sum is reached at the first failure and kept from then on. */
  lemma SettledExactly(mission: Mission, events: seq<Event>)
    ensures var s := Run(mission, events).statuses;
            Count(s, Completed) + Count(s, Failed) == |s| <==> HasFailed(mission, events) || AllReached(mission, events)
  {
    StatusesAreHistory(mission, events);
    var s := Run(mission, events).statuses;
    CountTwo(s);
    forall task | task in s ensures s[task] == StatusOf(mission, events, task) {
    }
    if !HasFailed(mission, events) && !AllReached(mission, events) {
      var task :| task in mission.Values && !WasReached(mission, events, task);
      assert task in s && !s[task].Completed? && !s[task].Failed?;
    }
  }

  lemma {:induction false} FailureStays(mission: Mission, events: seq<Event>, more: seq<Event>)
    requires HasFailed(mission, events)
    ensures HasFailed(mission, events + more)
  {
    if more != [] {
      var init, last := more[..|more| - 1], more[|more| - 1];
      FailureStays(mission, events, init);
      HasFailedSnoc(mission, events + init, last);
      assert events + more == events + init + [last];
    } else {
      assert events + more == events;
    }
  }

  /** After the first failure, whatever follows, no task is left open. */
  lemma SettledForever(mission: Mission, events: seq<Event>, more: seq<Event>)
    requires HasFailed(mission, events)
    ensures var s := Run(mission, events + more).statuses; Count(s, Completed) + Count(s, Failed) == |s|
  {
    FailureStays(mission, events, more);
    SettledExactly(mission, events + more);
  }

  // ----- final status and reason -----

  /** The events that decide the final status, with the verdict each gives. */
  function Verdict(mission: Mission, before: seq<Event>, e: Event): Option<Final> {
    match e
    case Reached(item, _) =>
      if item in mission && AllReached(mission, before + [e]) then Some(MissionCompleted) else None
    case MissionComplete(_) => if AllReached(mission, before) then Some(MissionCompleted) else Some(MissionFailed)
    case Rejected(_) => Some(Rejection)
    case Disconnected => Some(Disconnection)
    case TimedOut(_) => Some(NoProgress)
    case _ => None
  }

  /** The verdict at position `i`, and no later one. */
  predicate LastVerdict(mission: Mission, events: seq<Event>, i: nat, f: Final) {
    && i < |events| && Verdict(mission, events[..i], events[i]) == Some(f)
    && forall j :: i < j < |events| ==> Verdict(mission, events[..j], events[j]) == None
  }

  predicate NoVerdict(mission: Mission, events: seq<Event>) {
    forall j :: 0 <= j < |events| ==> Verdict(mission, events[..j], events[j]) == None
  }

  lemma StepVerdict(mission: Mission, events: seq<Event>, e: Event)
    ensures var t := Run(mission, events);
            Step(mission, t, e).final ==
            if Verdict(mission, events, e).Some? then Verdict(mission, events, e) else t.final
  {
    var t := Run(mission, events);
    StatusesAreHistory(mission, events);
    DoneMeansReached(mission, events, t);
    if e.Reached? && e.item in mission {
      PassMatches(mission, events, t, e.item, e.now);
      DoneMeansReached(mission, events + [e], Passing(mission, t, e.item, e.now));
    }
  }

  /** The final status is the verdict of the last event that gives one. */
  lemma {:induction false} FinalIsLastVerdict(mission: Mission, events: seq<Event>)
    ensures Run(mission, events).final.None? ==> NoVerdict(mission, events)
    ensures Run(mission, events).final.Some? ==>
              exists i: nat :: LastVerdict(mission, events, i, Run(mission, events).final.value)
  {
    if events != [] {
      var init, last := events[..|events| - 1], events[|events| - 1];
      FinalIsLastVerdict(mission, init);
      StepVerdict(mission, init, last);
      assert forall j :: 0 <= j < |init| ==> init[..j] == events[..j] && init[j] == events[j];
      if Verdict(mission, init, last).Some? {
        var i, f := |init|, Run(mission, events).final.value;
        assert LastVerdict(mission, events, i, f);
      } else if Run(mission, init).final.Some? {
        var f := Run(mission, init).final.value;
        var i: nat :| LastVerdict(mission, init, i, f);
        assert LastVerdict(mission, events, i, f);
      }
    }
  }

  lemma ReachedStays(mission: Mission, events: seq<Event>, more: seq<Event>)
    requires AllReached(mission, events)
    ensures AllReached(mission, events + more)
  {
    forall task | task in mission.Values ensures WasReached(mission, events + more, task) {
      var i :| 0 <= i < |events| && ReachedBy(mission, events[i], task);
      assert (events + more)[i] == events[i];
    }
  }

  lemma CompletedMeansReached(mission: Mission, events: seq<Event>, i: nat)
    requires LastVerdict(mission, events, i, MissionCompleted)
    ensures AllReached(mission, events)
  {
    if events[i].Reached? {
      assert events[..i] + [events[i]] + events[i + 1..] == events;
      ReachedStays(mission, events[..i] + [events[i]], events[i + 1..]);
    } else {
      assert events[..i] + events[i..] == events;
      ReachedStays(mission, events[..i], events[i..]);
    }
  }

  /** A mission reported as completed has every task completed, and none failed. */
  lemma CompletedIsComplete(mission: Mission, events: seq<Event>)
    requires Run(mission, events).final == Some(MissionCompleted)
    ensures var s := Run(mission, events).statuses; Count(s, Completed) == |s| && Count(s, Failed) == 0
  {
    FinalIsLastVerdict(mission, events);
    var i: nat :| LastVerdict(mission, events, i, MissionCompleted);
    CompletedMeansReached(mission, events, i);
    StatusesAreHistory(mission, events);
    DoneMeansReached(mission, events, Run(mission, events));
    CountTwo(Run(mission, events).statuses);
  }

  /** The failure reason is never cleared: a report carries one exactly when a failure ever
      happened, also a report of a completed mission. */
  lemma {:induction false} ReasonMeansFailure(mission: Mission, events: seq<Event>)
    ensures Run(mission, events).reason.Some? <==> HasFailed(mission, events)
  {
    if events != [] {
      var init, last := events[..|events| - 1], events[|events| - 1];
      assert init + [last] == events;
      ReasonMeansFailure(mission, init);
      ReasonStep(mission, init, last);
      HasFailedSnoc(mission, init, last);
    }
  }

  lemma ReasonStep(mission: Mission, events: seq<Event>, e: Event)
    ensures var t := Run(mission, events);
            Step(mission, t, e).reason.Some? <==> t.reason.Some? || FailureAfter(mission, events, e)
  {
    StatusesAreHistory(mission, events);
    DoneMeansReached(mission, events, Run(mission, events));
  }

  /** Such a report: after any history with a failure, the last task still missing is reached. */
  lemma StaleReason(mission: Mission, before: seq<Event>, item: nat, now: nat)
    requires HasFailed(mission, before) && item in mission && AllReached(mission, before + [Reached(item, now)])
    ensures var t := Run(mission, before + [Reached(item, now)]);
            t.final == Some(MissionCompleted) && t.reason.Some?
  {
    RunSnoc(mission, before, Reached(item, now));
    StepVerdict(mission, before, Reached(item, now));
    FailureStays(mission, before, [Reached(item, now)]);
    ReasonMeansFailure(mission, before + [Reached(item, now)]);
  }

  function Arrivals(items: seq<nat>): (r: seq<Event>)
    ensures |r| == |items| && forall i :: 0 <= i < |r| ==> r[i] == Reached(items[i], i)
  {
    seq(|items|, i requires 0 <= i < |items| => Reached(items[i], i))
  }

  /** Every mission can end like that: the link is lost, and then all waypoints are reached. */
  lemma LateSuccess(mission: Mission, items: seq<nat>)
    requires items != [] && forall item :: item in items <==> item in mission
    ensures var t := Run(mission, [Disconnected] + Arrivals(items));
            t.final == Some(MissionCompleted) && t.reason.Some?
  {
    var n := |items| - 1;
    var events := [Disconnected] + Arrivals(items);
    var before := events[..n + 1];
    assert events == before + [Reached(items[n], n)] && items[n] in items;
    assert FailureAfter(mission, before[..0], before[0]);
    forall task | task in mission.Values ensures WasReached(mission, events, task) {
      var item :| item in mission && mission[item] == task;
      var i :| 0 <= i < |items| && items[i] == item;
      assert ReachedBy(mission, events[i + 1], task);
    }
    StaleReason(mission, before, items[n], n);
  }

  // ----- times -----

  /** Events that count as progress, or as a sign of life. */
  predicate Marks(mission: Mission, e: Event, progress: bool) {
    if progress then e.MissionComplete? || ((e.Current? || e.Reached?) && e.item in mission) else e.Heartbeat?
  }

  predicate NoneAfter(mission: Mission, events: seq<Event>, progress: bool, i: int) {
    forall j :: i < j < |events| && 0 <= j ==> !Marks(mission, events[j], progress)
  }

  predicate LastAt(mission: Mission, events: seq<Event>, progress: bool, i: nat, now: nat) {
    && i < |events| && Marks(mission, events[i], progress) && events[i].now == now
    && NoneAfter(mission, events, progress, i)
  }

  /** `time` is that of the last such event, if there was any. */
  ghost predicate LastTime(mission: Mission, events: seq<Event>, progress: bool, time: Option<nat>) {
    match time
    case None => NoneAfter(mission, events, progress, -1)
    case Some(now) => exists i: nat :: LastAt(mission, events, progress, i, now)
  }

  lemma LastTimeSnoc(mission: Mission, events: seq<Event>, e: Event, progress: bool, time: Option<nat>)
    requires LastTime(mission, events, progress, time)
    ensures LastTime(mission, events + [e], progress, if Marks(mission, e, progress) then Some(e.now) else time)
  {
    var all := events + [e];
    if Marks(mission, e, progress) {
      assert LastAt(mission, all, progress, |events|, e.now);
    } else if time.Some? {
      var i: nat :| LastAt(mission, events, progress, i, time.value);
      assert LastAt(mission, all, progress, i, time.value);
    }
  }

  /** The kept times are those of the last heartbeat and of the last progress. */
  lemma {:induction false} TimesAreHistory(mission: Mission, events: seq<Event>)
    ensures LastTime(mission, events, false, Run(mission, events).heartbeat)
    ensures LastTime(mission, events, true, Run(mission, events).progress)
  {
    if events != [] {
      var init, last := events[..|events| - 1], events[|events| - 1];
      TimesAreHistory(mission, init);
      assert events == init + [last];
      LastTimeSnoc(mission, init, last, false, Run(mission, init).heartbeat);
      LastTimeSnoc(mission, init, last, true, Run(mission, init).progress);
    }
  }

  // ----- the tracker -----

  lemma FailRestKeepsCompleted(statuses: map<string, Status>)
    ensures Count(FailRest(statuses), Completed) == Count(statuses, Completed)
  {
    assert (set t | t in FailRest(statuses) && FailRest(statuses)[t] == Completed) ==
           (set t | t in statuses && statuses[t] == Completed);
  }

  datatype ProgressError = EmptyMission | DuplicateItem(item: nat)

  predicate FirstRepeat(waypoints: seq<(nat, string)>, i: nat) {
    && i < |waypoints| && (exists j :: 0 <= j < i && waypoints[j].0 == waypoints[i].0)
    && forall j, k :: 0 <= j < k < i ==> waypoints[j].0 != waypoints[k].0
  }

  predicate DistinctItems(waypoints: seq<(nat, string)>, n: nat)
    requires n <= |waypoints|
  {
    forall j, k :: 0 <= j < k < n ==> waypoints[j].0 != waypoints[k].0
  }

  /** The mission holds the first `n` waypoints and nothing else. */
  predicate Holds(mission: Mission, waypoints: seq<(nat, string)>, n: nat)
    requires n <= |waypoints|
  {
    && (forall j :: 0 <= j < n ==> waypoints[j].0 in mission && mission[waypoints[j].0] == waypoints[j].1)
    && (forall item :: item in mission ==> exists j :: 0 <= j < n && waypoints[j].0 == item)
  }

  lemma HoldsNext(mission: Mission, waypoints: seq<(nat, string)>, n: nat)
    requires n < |waypoints| && Holds(mission, waypoints, n) && DistinctItems(waypoints, n)
    requires waypoints[n].0 !in mission
    ensures Holds(mission[waypoints[n].0 := waypoints[n].1], waypoints, n + 1) && DistinctItems(waypoints, n + 1)
  {
  }

  /** The mission made of the waypoints: refused when empty, or at the first repeated number. */
  method ReadWaypoints(waypoints: seq<(nat, string)>) returns (r: Result<ProgressError>, mission: Mission)
    ensures r.Ok? ==> waypoints != [] && DistinctItems(waypoints, |waypoints|) && Holds(mission, waypoints, |waypoints|)
    ensures r == Err(EmptyMission) <==> waypoints == []
    ensures r.Err? && r.error.DuplicateItem? ==>
              exists i: nat :: FirstRepeat(waypoints, i) && r.error.item == waypoints[i].0
  {
    mission := map[];
    for i := 0 to |waypoints|
      invariant Holds(mission, waypoints, i) && DistinctItems(waypoints, i)
    {
      var item := waypoints[i].0;
      if item in mission {
        assert FirstRepeat(waypoints, i);
        return Err(DuplicateItem(item)), mission;
      }
      HoldsNext(mission, waypoints, i);
      mission := mission[item := waypoints[i].1];
    }
    assert waypoints != [] ==> waypoints[0].0 in mission;
    r := if mission == map[] then Err(EmptyMission) else Ok;
  }

  class Progress {
    const mission: Mission
    var statuses: map<string, Status>
    var current: Option<nat>
    var final: Option<Final>
    var reason: Option<string>
    var lastHeartbeat: Option<nat>
    var lastProgress: Option<nat>
    ghost var events: seq<Event>

    ghost function State(): Tracker
      reads this
    {
      Tracker(statuses, current, final, reason, lastHeartbeat, lastProgress)
    }

    /** The tracker is what its history makes it. */
    ghost predicate Valid()
      reads this
    {
      State() == Run(mission, events)
    }

    constructor (mission: Mission)
      requires mission != map[]
      ensures Valid() && events == [] && this.mission == mission
    {
      this.mission := mission;
      statuses := map task | task in mission.Values :: Unassigned;
      current, final, reason, lastHeartbeat, lastProgress, events := None, None, None, None, None, [];
    }

    method MarkIncompleteFailed()
      modifies this`statuses
      ensures statuses == FailRest(old(statuses))
    {
      var todo := statuses.Keys;
      while todo != {}
        invariant statuses.Keys == old(statuses).Keys && todo <= statuses.Keys
        invariant forall t :: t in todo ==> statuses[t] == old(statuses)[t]
        invariant forall t :: t in statuses && t !in todo ==> statuses[t] == FailRest(old(statuses))[t]
      {
        var t :| t in todo;
        if !statuses[t].Completed? {
          statuses := statuses[t := Failed];
        }
        todo := todo - {t};
      }
    }

    method MarkFailed(f: Final, why: string) returns (report: Report)
      modifies this`statuses, this`final, this`reason
      ensures State() == Fail(old(State()), f, why) && report == ReportOf(mission, State())
    {
      MarkIncompleteFailed();
      final, reason := Some(f), Some(why);
      report := FinalReport();
    }

    function FinalReport(): (r: Report)
      reads this
      ensures r == ReportOf(mission, State())
    {
      Report(
        if final.Some? then final.value else MissionFailed,
        |statuses|, Count(statuses, Completed), Count(statuses, Failed),
        if current.Some? && current.value in mission then Some(mission[current.value]) else None,
        reason)
    }

    method MarkNoProgressTimeout(why: string) returns (report: Report)
      requires Valid()
      modifies this
      ensures Valid() && events == old(events) + [TimedOut(why)]
      ensures report == ReportOf(mission, State())
    {
      report := MarkFailed(NoProgress, why);
      RunSnoc(mission, events, TimedOut(why));
      events := events + [TimedOut(why)];
    }

    method Pass(item: nat, now: nat) returns (update: Update)
      modifies this
      ensures State() == Step(mission, old(State()), Reached(item, now)) && events == old(events)
      ensures update == Answer(mission, State(), Reached(item, now))
    {
      if item !in mission {
        return UnknownItem(item);
      }
      current, lastProgress := Some(item), Some(now);
      if mission[item] in statuses {
        statuses := statuses[mission[item] := Completed];
      }
      if Count(statuses, Completed) == |statuses| {
        final := Some(MissionCompleted);
        return Done(FinalReport());
      }
      update := Passed(item, mission[item], Count(statuses, Completed), |statuses|);
    }

    method Announce(item: nat, now: nat) returns (update: Update)
      modifies this
      ensures State() == Step(mission, old(State()), Current(item, now)) && events == old(events)
      ensures update == Answer(mission, State(), Current(item, now))
    {
      if item !in mission {
        return UnknownItem(item);
      }
      var task := mission[item];
      current, lastProgress := Some(item), Some(now);
      if task in statuses && statuses[task] != Completed && statuses[task] != Failed {
        statuses := statuses[task := InProgress];
      }
      update := Now(item, task, Count(statuses, Completed), |statuses|);
    }

    method Finish(now: nat) returns (update: Update)
      modifies this
      ensures State() == Step(mission, old(State()), MissionComplete(now)) && events == old(events)
      ensures update == Answer(mission, State(), MissionComplete(now))
    {
      lastProgress := Some(now);
      if Count(statuses, Completed) == |statuses| {
        final := Some(MissionCompleted);
        return Done(FinalReport());
      }
      var report := MarkFailed(MissionFailed, EARLY);
      FailRestKeepsCompleted(old(statuses));
      update := GaveUp(report);
    }

    method ApplyEvent(e: Event) returns (update: Update)
      requires Valid() && !e.TimedOut?
      modifies this
      ensures Valid() && events == old(events) + [e]
      ensures update == Answer(mission, State(), e)
    {
      match e {
        case Heartbeat(now) =>
          lastHeartbeat := Some(now);
          update := Beat;
        case Current(item, now) => update := Announce(item, now);
        case Reached(item, now) => update := Pass(item, now);
        case MissionComplete(now) => update := Finish(now);
        case Rejected(why) =>
          var report := MarkFailed(Rejection, why);
          update := GaveUp(report);
        case Disconnected =>
          var report := MarkFailed(Disconnection, LOST);
          update := GaveUp(report);
      }
      RunSnoc(mission, events, e);
      events := events + [e];
    }
  }
}
