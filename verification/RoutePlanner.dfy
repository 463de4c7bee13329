/** Ordering the tasks of one agent: nearest neighbour, 2-opt, and the battery limit. */
module RoutePlanner {
  import opened Basics
  import opened Fleet
  import opened Tours

  // ----- cost of a route -----

  /** Length of the walk from `start` through the tasks; a task without a pose costs nothing. */
  function RouteCost(d: Distance, start: Pose, tasks: seq<Task>): real
    decreases tasks
  {
    if tasks == [] then 0.0
    else
      match tasks[0].pose
      case None => RouteCost(d, start, tasks[1..])
      case Some(p) => d(start, p) + RouteCost(d, p, tasks[1..])
  }

  lemma {:induction false} CostIsLength(d: Distance, start: Pose, tasks: seq<Task>)
    ensures RouteCost(d, start, tasks) == Length(d, OneWay(start, tasks))
    decreases tasks
  {
    if tasks != [] {
      if tasks[0].pose.Some? {
        var p := tasks[0].pose.value;
        CostIsLength(d, p, tasks[1..]);
        assert OneWay(start, tasks)[1..] == OneWay(p, tasks[1..]);
      } else {
        CostIsLength(d, start, tasks[1..]);
      }
    }
  }

  method ComputeRouteCost(d: Distance, start: Pose, tasks: seq<Task>) returns (total: real)
    ensures total == RouteCost(d, start, tasks) == Length(d, OneWay(start, tasks))
  {
    CostIsLength(d, start, tasks);
    total := 0.0;
    var current := start;
    for k := 0 to |tasks|
      invariant total + RouteCost(d, current, tasks[k..]) == RouteCost(d, start, tasks)
    {
      assert tasks[k..][0] == tasks[k] && tasks[k..][1..] == tasks[k + 1..];
      if tasks[k].pose.Some? {
        total := total + d(current, tasks[k].pose.value);
        current := tasks[k].pose.value;
      }
    }
    assert tasks[|tasks|..] == [];
  }

  /** Where the agent is after visiting the tasks with the given ids in order. */
  function PositionAfter(tasks: seq<Task>, start: Pose, visited: seq<string>): Pose {
    if visited == [] then start
    else
      var before := PositionAfter(tasks, start, visited[..|visited| - 1]);
      match FindTask(tasks, visited[|visited| - 1])
      case None => before
      case Some(t) => if t.pose.Some? then t.pose.value else before
  }

  // ----- nearest neighbour -----

  function DistanceToTask(d: Distance, from: Pose, tasks: seq<Task>, id: string): real {
    match FindTask(tasks, id)
    case None => 0.0
    case Some(t) => if t.pose.Some? then d(from, t.pose.value) else 0.0
  }

  /** Every stop is a nearest one among those not visited yet. */
  ghost predicate NearestFirst(d: Distance, start: Pose, tasks: seq<Task>, order: seq<string>) {
    forall i, j :: 0 <= i < j < |order| ==>
      DistanceToTask(d, PositionAfter(tasks, start, order[..i]), tasks, order[i])
      <= DistanceToTask(d, PositionAfter(tasks, start, order[..i]), tasks, order[j])
  }

  lemma {:induction false} NearestExists(d: Distance, from: Pose, tasks: seq<Task>, ids: set<string>)
    requires ids != {}
    ensures exists n :: n in ids && forall x :: x in ids ==>
              DistanceToTask(d, from, tasks, n) <= DistanceToTask(d, from, tasks, x)
    decreases ids
  {
    var y :| y in ids;
    if ids != {y} {
      NearestExists(d, from, tasks, ids - {y});
      var n :| n in ids - {y} && forall x :: x in ids - {y} ==>
                 DistanceToTask(d, from, tasks, n) <= DistanceToTask(d, from, tasks, x);
      assert forall x :: x in ids ==> x == y || x in ids - {y};
      var m := if DistanceToTask(d, from, tasks, n) <= DistanceToTask(d, from, tasks, y) then n else y;
      assert forall x :: x in ids ==> DistanceToTask(d, from, tasks, m) <= DistanceToTask(d, from, tasks, x);
    }
  }

  /** Partway: every stop so far was a nearest one among the later stops and the rest. */
  ghost predicate GreedySoFar(d: Distance, start: Pose, tasks: seq<Task>, order: seq<string>, rest: set<string>) {
    && NearestFirst(d, start, tasks, order)
    && forall i, x :: 0 <= i < |order| && x in rest ==>
         DistanceToTask(d, PositionAfter(tasks, start, order[..i]), tasks, order[i])
         <= DistanceToTask(d, PositionAfter(tasks, start, order[..i]), tasks, x)
  }

  lemma GreedyStep(d: Distance, start: Pose, tasks: seq<Task>, order: seq<string>, rest: set<string>, next: string)
    requires GreedySoFar(d, start, tasks, order, rest) && next in rest
    requires forall x :: x in rest ==>
               DistanceToTask(d, PositionAfter(tasks, start, order), tasks, next)
               <= DistanceToTask(d, PositionAfter(tasks, start, order), tasks, x)
    ensures GreedySoFar(d, start, tasks, order + [next], rest - {next})
  {
    var longer := order + [next];
    assert longer[..|order|] == order;
    assert forall i :: 0 <= i < |order| ==> longer[..i] == order[..i];
  }

  /** Visited and remaining ids split the ids of the tasks. */
  ghost predicate SplitIds(tasks: seq<Task>, order: seq<string>, rest: set<string>) {
    Distinct(order) && Elements(order) !! rest && Elements(order) + rest == TaskIds(tasks)
  }

  lemma SplitStep(tasks: seq<Task>, order: seq<string>, rest: set<string>, next: string)
    requires SplitIds(tasks, order, rest) && next in rest
    ensures SplitIds(tasks, order + [next], rest - {next})
  {
    assert Elements(order + [next]) == Elements(order) + {next};
  }

  /** Greedy ordering; ties fall as the hash set happens to iterate. Each id comes out once,
      so with distinct ids the result is a rearrangement of the input. */
  method NearestNeighbour(d: Distance, start: Pose, tasks: seq<Task>) returns (ordered: seq<string>)
    ensures Distinct(ordered) && Elements(ordered) == TaskIds(tasks)
    ensures NearestFirst(d, start, tasks, ordered)
  {
    if |tasks| <= 1 {
      ordered := Ids(tasks);
      assert |tasks| == 1 ==> tasks[0] in tasks && ordered[0] == tasks[0].id;
      return;
    }
    ordered := [];
    var remaining := TaskIds(tasks);
    var current := start;
    while remaining != {}
      invariant SplitIds(tasks, ordered, remaining)
      invariant current == PositionAfter(tasks, start, ordered)
      invariant GreedySoFar(d, start, tasks, ordered, remaining)
      decreases remaining
    {
      NearestExists(d, current, tasks, remaining);
      var next :| next in remaining
               && forall x :: x in remaining ==>
                    DistanceToTask(d, current, tasks, next) <= DistanceToTask(d, current, tasks, x);
      GreedyStep(d, start, tasks, ordered, remaining, next);
      SplitStep(tasks, ordered, remaining, next);
      assert (ordered + [next])[..|ordered|] == ordered;
      remaining := remaining - {next};
      ordered := ordered + [next];
      var task := FindTask(tasks, next);
      if task.Some? && task.value.pose.Some? {
        current := task.value.pose.value;
      }
    }
  }

  lemma DistinctIdsPermuted(tasks: seq<Task>, ordered: seq<string>)
    requires Distinct(Ids(tasks)) && Distinct(ordered) && Elements(ordered) == TaskIds(tasks)
    ensures multiset(ordered) == multiset(Ids(tasks))
  {
    var ids := Ids(tasks);
    forall x ensures x in ids <==> x in ordered {
      if x in ids {
        var i :| 0 <= i < |ids| && ids[i] == x;
        assert tasks[i] in tasks && tasks[i].id in TaskIds(tasks);
        assert x in Elements(ordered);
      }
      if x in ordered {
        assert x in Elements(ordered);
        var t :| t in tasks && t.id == x;
        var i :| 0 <= i < |tasks| && tasks[i] == t;
        assert ids[i] == x;
      }
    }
    forall x ensures multiset(ordered)[x] == multiset(ids)[x] {
      CountOnce(ordered, x);
      CountOnce(ids, x);
      assert x in multiset(ids) <==> x in ids;
      assert x in multiset(ordered) <==> x in ordered;
    }
  }

  // ----- 2-opt -----

  /** The map from ids to tasks keeps the last task of a repeated id. */
  function TaskById(tasks: seq<Task>, id: string): (r: Option<Task>)
    ensures r.Some? <==> id in TaskIds(tasks)
  {
    if tasks == [] then None
    else
      var last := tasks[|tasks| - 1];
      assert forall t :: t in tasks <==> t == last || t in tasks[..|tasks| - 1];
      if last.id == id then Some(last) else TaskById(tasks[..|tasks| - 1], id)
  }

  predicate Known(tasks: seq<Task>, route: seq<string>) {
    forall i :: 0 <= i < |route| ==> route[i] in TaskIds(tasks)
  }

  function Resolve(tasks: seq<Task>, route: seq<string>): seq<Task>
    requires Known(tasks, route)
  {
    seq(|route|, i requires 0 <= i < |route| => TaskById(tasks, route[i]).value)
  }

  /** Cost of the route and of the way back, when its last task has a pose. */
  function ClosedCost(d: Distance, start: Pose, tasks: seq<Task>, route: seq<string>): real
    requires Known(tasks, route)
  {
    var stops := Resolve(tasks, route);
    RouteCost(d, start, stops)
    + if stops != [] && stops[|stops| - 1].pose.Some? then d(stops[|stops| - 1].pose.value, start) else 0.0
  }

  function Backwards(s: seq<string>): (r: seq<string>)
    ensures multiset(r) == multiset(s)
    ensures |r| == |s|
  {
    if s == [] then []
    else
      assert s == [s[0]] + s[1..];
      Backwards(s[1..]) + [s[0]]
  }

  /** Reverse the stops from `lo` to `hi`, both included. */
  function ReverseSegment(route: seq<string>, lo: nat, hi: nat): (r: seq<string>)
    requires lo <= hi < |route|
    ensures |r| == |route| && multiset(r) == multiset(route)
    ensures r[..lo] == route[..lo]
  {
    assert route == route[..lo] + route[lo..hi + 1] + route[hi + 1..];
    route[..lo] + Backwards(route[lo..hi + 1]) + route[hi + 1..]
  }

  lemma KnownPermutation(tasks: seq<Task>, route: seq<string>, route': seq<string>)
    requires Known(tasks, route) && multiset(route') == multiset(route)
    ensures Known(tasks, route')
  {
    forall i | 0 <= i < |route'| ensures route'[i] in TaskIds(tasks) {
      SameElements(route', route, route'[i]);
    }
  }

  /** Reversing the segment after position `i` up to `j` would not make the tour cheaper. */
  ghost predicate NoGain(d: Distance, start: Pose, tasks: seq<Task>, route: seq<string>, i: int, j: int)
    requires Known(tasks, route)
  {
    0 <= i && i + 2 <= j < |route| ==>
      var other := ReverseSegment(route, i + 1, j);
      Known(tasks, other) ==> ClosedCost(d, start, tasks, route) <= ClosedCost(d, start, tasks, other)
  }

  ghost predicate LocallyOptimal(d: Distance, start: Pose, tasks: seq<Task>, route: seq<string>)
    requires Known(tasks, route)
  {
    forall i, j :: 0 <= i && i + 2 <= j < |route| ==> NoGain(d, start, tasks, route, i, j)
  }

  /** What improving a route keeps: the same stops, the same first stop, no higher cost. */
  ghost predicate Improves(d: Distance, start: Pose, tasks: seq<Task>, from: seq<string>, to: seq<string>)
    requires Known(tasks, from)
  {
    && multiset(to) == multiset(from) && |to| == |from| && Known(tasks, to)
    && (|from| > 0 ==> to[0] == from[0])
    && ClosedCost(d, start, tasks, to) <= ClosedCost(d, start, tasks, from)
  }

  /** Try one reversal and keep it if it is strictly cheaper. */
  method TryReversal(d: Distance, start: Pose, tasks: seq<Task>, route: seq<string>, i: nat, j: nat)
    returns (r: seq<string>, better: bool)
    requires Known(tasks, route) && i + 2 <= j < |route|
    ensures Improves(d, start, tasks, route, r)
    ensures better ==> ClosedCost(d, start, tasks, r) < ClosedCost(d, start, tasks, route)
    ensures !better ==> r == route && NoGain(d, start, tasks, route, i, j)
  {
    var other := ReverseSegment(route, i + 1, j);
    KnownPermutation(tasks, route, other);
    if ClosedCost(d, start, tasks, other) < ClosedCost(d, start, tasks, route) {
      assert other[0] == other[..i + 1][0] == route[..i + 1][0] == route[0];
      return other, true;
    }
    return route, false;
  }

  /** Part of a pass: either something was gained, or nothing changed so far. */
  ghost predicate PassState(d: Distance, start: Pose, tasks: seq<Task>, route: seq<string>, r: seq<string>,
                            improved: bool)
    requires Known(tasks, route)
  {
    && Improves(d, start, tasks, route, r)
    && (improved ==> ClosedCost(d, start, tasks, r) < ClosedCost(d, start, tasks, route))
    && (!improved ==> r == route)
  }

  /** No reversal of a segment starting after a position below `i` pays. */
  ghost predicate NoGainBefore(d: Distance, start: Pose, tasks: seq<Task>, route: seq<string>, i: nat)
    requires Known(tasks, route)
  {
    forall a, b :: 0 <= a < i && a + 2 <= b < |route| ==> NoGain(d, start, tasks, route, a, b)
  }

  lemma PassStep(d: Distance, start: Pose, tasks: seq<Task>, route: seq<string>, r: seq<string>, improved: bool,
                 r': seq<string>, better: bool)
    requires Known(tasks, route) && PassState(d, start, tasks, route, r, improved)
    requires Improves(d, start, tasks, r, r')
    requires better ==> ClosedCost(d, start, tasks, r') < ClosedCost(d, start, tasks, r)
    requires !better ==> r' == r
    ensures PassState(d, start, tasks, route, r', improved || better)
  {
  }

  /** One step of a pass. */
  method TryInPass(d: Distance, start: Pose, tasks: seq<Task>, ghost route: seq<string>, i: nat, j: nat,
                   before: seq<string>, improvedBefore: bool)
    returns (r: seq<string>, improved: bool)
    requires Known(tasks, route) && PassState(d, start, tasks, route, before, improvedBefore)
    requires i + 2 <= j < |before|
    ensures PassState(d, start, tasks, route, r, improved) && |r| == |before|
    ensures !improved ==> !improvedBefore && NoGain(d, start, tasks, route, i, j)
  {
    var better;
    r, better := TryReversal(d, start, tasks, before, i, j);
    PassStep(d, start, tasks, route, before, improvedBefore, r, better);
    improved := improvedBefore || better;
  }

  /** No reversal of a segment that starts after `i` and ends before `j` pays. */
  ghost predicate NoGainAt(d: Distance, start: Pose, tasks: seq<Task>, route: seq<string>, i: nat, j: nat)
    requires Known(tasks, route)
  {
    forall b :: i + 2 <= b < j && b < |route| ==> NoGain(d, start, tasks, route, i, b)
  }

  lemma NoGainStep(d: Distance, start: Pose, tasks: seq<Task>, route: seq<string>, i: nat)
    requires Known(tasks, route) && NoGainBefore(d, start, tasks, route, i)
    requires NoGainAt(d, start, tasks, route, i, |route|)
    ensures NoGainBefore(d, start, tasks, route, i + 1)
  {
  }

  lemma NoGainNext(d: Distance, start: Pose, tasks: seq<Task>, route: seq<string>, i: nat, j: nat)
    requires Known(tasks, route) && NoGainAt(d, start, tasks, route, i, j)
    requires i + 2 <= j < |route| && NoGain(d, start, tasks, route, i, j)
    ensures NoGainAt(d, start, tasks, route, i, j + 1)
  {
  }

  /** How far the inner loop of a pass has come. */
  ghost predicate ScanState(d: Distance, start: Pose, tasks: seq<Task>, route: seq<string>, i: nat, j: nat,
                            r: seq<string>, improved: bool)
    requires Known(tasks, route)
  {
    PassState(d, start, tasks, route, r, improved) && (!improved ==> NoGainAt(d, start, tasks, route, i, j))
  }

  /** The inner loop of a pass: all segments that start after position `i`. */
  method ScanFrom(d: Distance, start: Pose, tasks: seq<Task>, ghost route: seq<string>, i: nat,
                  before: seq<string>, improvedBefore: bool)
    returns (r: seq<string>, improved: bool)
    requires Known(tasks, route) && PassState(d, start, tasks, route, before, improvedBefore)
    requires !improvedBefore ==> NoGainBefore(d, start, tasks, route, i)
    ensures PassState(d, start, tasks, route, r, improved)
    ensures !improved ==> NoGainBefore(d, start, tasks, route, i + 1)
  {
    r, improved := before, improvedBefore;
    var j := i + 2;
    while j < |before|
      invariant i + 2 <= j && |r| == |before| == |route| && ScanState(d, start, tasks, route, i, j, r, improved)
      invariant !improved ==> !improvedBefore
    {
      r, improved := TryInPass(d, start, tasks, route, i, j, r, improved);
      if !improved {
        NoGainNext(d, start, tasks, route, i, j);
      }
      j := j + 1;
    }
    if !improved {
      NoGainStep(d, start, tasks, route, i);
    }
  }

  /** One full pass over all pairs. If it changed nothing, no scanned reversal pays. */
  method Pass(d: Distance, start: Pose, tasks: seq<Task>, route: seq<string>) returns (r: seq<string>, improved: bool)
    requires Known(tasks, route)
    ensures Improves(d, start, tasks, route, r)
    ensures improved ==> ClosedCost(d, start, tasks, r) < ClosedCost(d, start, tasks, route)
    ensures !improved ==> r == route && LocallyOptimal(d, start, tasks, r)
  {
    r, improved := route, false;
    for i := 0 to |route|
      invariant PassState(d, start, tasks, route, r, improved)
      invariant !improved ==> NoGainBefore(d, start, tasks, route, i)
    {
      r, improved := ScanFrom(d, start, tasks, route, i, r, improved);
    }
  }

  /** 2-opt from a nearest-neighbour start `nn`. The tour is never worse than `nn`, visits the
      same tasks and begins with the same one; `settled` tells that the last pass found
      nothing, and then no reversal the passes try would help. */
  method TwoOpt(d: Distance, start: Pose, tasks: seq<Task>, maxIterations: nat)
    returns (route: seq<string>, settled: bool, ghost nn: seq<string>)
    ensures NearestFirst(d, start, tasks, nn) && Distinct(nn) && Elements(nn) == TaskIds(tasks)
    ensures Known(tasks, nn) && Improves(d, start, tasks, nn, route)
    ensures Distinct(Ids(tasks)) ==> multiset(route) == multiset(Ids(tasks))
    ensures settled ==> LocallyOptimal(d, start, tasks, route)
    ensures !settled && maxIterations > 0 ==> ClosedCost(d, start, tasks, route) < ClosedCost(d, start, tasks, nn)
  {
    route := NearestNeighbour(d, start, tasks);
    nn := route;
    KnownRoute(tasks, nn);
    if Distinct(Ids(tasks)) {
      DistinctIdsPermuted(tasks, nn);
    }
    if |tasks| <= 2 {
      FewStops(tasks, nn);
      return route, true, nn;
    }
    var improved, iterations := true, 0;
    while improved && iterations < maxIterations
      invariant iterations <= maxIterations
      invariant Improves(d, start, tasks, nn, route)
      invariant !improved ==> LocallyOptimal(d, start, tasks, route)
      invariant improved && iterations > 0 ==> ClosedCost(d, start, tasks, route) < ClosedCost(d, start, tasks, nn)
    {
      iterations := iterations + 1;
      route, improved := Pass(d, start, tasks, route);
    }
    settled := !improved;
  }

  lemma KnownRoute(tasks: seq<Task>, route: seq<string>)
    requires Elements(route) == TaskIds(tasks)
    ensures Known(tasks, route)
  {
    forall i | 0 <= i < |route| ensures route[i] in TaskIds(tasks) {
      assert route[i] in Elements(route);
    }
  }

  lemma FewStops(tasks: seq<Task>, route: seq<string>)
    requires |tasks| <= 2 && Distinct(route) && Elements(route) == TaskIds(tasks)
    ensures |route| <= 2
  {
    DistinctCount(route);
    TaskIdsCount(tasks);
  }

  // ----- battery -----

  /** Drain of the walk from `current` through the tasks and back to `start`, for a given
      drain per leg. */
  function TripDrain(leg: Distance, current: Pose, start: Pose, tasks: seq<Task>): real
    decreases tasks
  {
    if tasks == [] then leg(current, start)
    else
      match tasks[0].pose
      case None => TripDrain(leg, current, start, tasks[1..])
      case Some(p) => leg(current, p) + TripDrain(leg, p, start, tasks[1..])
  }

  function Abs(x: real): real {
    if x < 0.0 then -x else x
  }

  /** Drain of one leg: cruising over the ground plus climbing or sinking. */
  function LegDrain(flat: Distance, m: BatteryModel, a: Pose, b: Pose): real {
    flat(a, b) * m.cruiseDrain + Abs(a.z - b.z) * m.climbDrain
  }

  function Leg(flat: Distance, m: BatteryModel): Distance {
    (a, b) => LegDrain(flat, m, a, b)
  }

  /** The two distances a planner measures with: in space and over the ground. */
  datatype Ruler = Ruler(space: Distance, flat: Distance)

  /** The way back is added only when the last task has a pose. */
  function LegacyDistance(d: Distance, start: Pose, tasks: seq<Task>): real {
    RouteCost(d, start, tasks)
    + if tasks != [] && tasks[|tasks| - 1].pose.Some? then d(tasks[|tasks| - 1].pose.value, start) else 0.0
  }

  function LegacyDrain(d: Distance, start: Pose, tasks: seq<Task>, rate: real): real {
    LegacyDistance(d, start, tasks) * rate
  }

  function BatteryDrain(ruler: Ruler, start: Pose, tasks: seq<Task>, agent: Agent): real {
    match agent.batteryModel
    case Some(m) => TripDrain(Leg(ruler.flat, m), start, start, tasks)
    case None => LegacyDrain(ruler.space, start, tasks, agent.drainRate)
  }

  // ----- the drain in lengths -----

  lemma {:induction false} TripIsLength(leg: Distance, current: Pose, start: Pose, tasks: seq<Task>)
    ensures TripDrain(leg, current, start, tasks) == Length(leg, [current] + Poses(tasks) + [start])
    decreases tasks
  {
    var walk := [current] + Poses(tasks) + [start];
    if tasks == [] {
      assert walk[1..] == [start];
    } else if tasks[0].pose.Some? {
      var p := tasks[0].pose.value;
      TripIsLength(leg, p, start, tasks[1..]);
      assert walk[1..] == [p] + Poses(tasks[1..]) + [start];
    } else {
      TripIsLength(leg, current, start, tasks[1..]);
    }
  }

  /** The way back from the last task, nothing when that has no pose. */
  function WayBack(d: Distance, start: Pose, tasks: seq<Task>): real {
    if tasks != [] && tasks[|tasks| - 1].pose.Some? then d(tasks[|tasks| - 1].pose.value, start) else 0.0
  }

  /** With a battery model the round trip costs its length over the ground at the cruise rate
      and its ups and downs at the climb rate; without one, its length in space at one rate, and
      the way back counts only from a task that has a pose. */
  function Spent(ruler: Ruler, start: Pose, tasks: seq<Task>, agent: Agent): real {
    match agent.batteryModel
    case Some(m) =>
      m.cruiseDrain * Length(ruler.flat, Tour(start, tasks)) + m.climbDrain * Length(Rise, Tour(start, tasks))
    case None =>
      agent.drainRate * (Length(ruler.space, OneWay(start, tasks)) + WayBack(ruler.space, start, tasks))
  }

  lemma DrainIsSpent(ruler: Ruler, start: Pose, tasks: seq<Task>, agent: Agent)
    ensures BatteryDrain(ruler, start, tasks, agent) == Spent(ruler, start, tasks, agent)
  {
    match agent.batteryModel
    case Some(m) =>
      var leg := Leg(ruler.flat, m);
      TripIsLength(leg, start, start, tasks);
      WeightedLength(leg, ruler.flat, Rise, m.cruiseDrain, m.climbDrain, Tour(start, tasks));
    case None => CostIsLength(ruler.space, start, tasks);
  }

  /** The share of the battery that must be left after the trip. */
  function Reserve(agent: Agent, reserveFraction: real): real {
    match agent.batteryModel
    case Some(m) => m.reserveFraction
    case None => reserveFraction
  }

  /** After the trip at least the reserve is left. */
  predicate Returns(ruler: Ruler, start: Pose, tasks: seq<Task>, agent: Agent, reserveFraction: real) {
    agent.battery - Spent(ruler, start, tasks, agent) >= agent.battery * Reserve(agent, reserveFraction)
  }

  lemma FeasibleReturns(ruler: Ruler, start: Pose, tasks: seq<Task>, agent: Agent, reserveFraction: real)
    ensures Feasible(ruler, start, tasks, agent, reserveFraction) <==>
            tasks == [] || Returns(ruler, start, tasks, agent, reserveFraction)
  {
    DrainIsSpent(ruler, start, tasks, agent);
    LeavesReserve(agent.battery, Spent(ruler, start, tasks, agent), Reserve(agent, reserveFraction));
  }

  lemma LeavesReserve(battery: real, spent: real, reserve: real)
    ensures spent <= battery * (1.0 - reserve) <==> battery - spent >= battery * reserve
  {
    assert battery * (1.0 - reserve) == battery - battery * reserve;
  }

  method ComputeBatteryDrain(ruler: Ruler, start: Pose, tasks: seq<Task>, agent: Agent) returns (drain: real)
    ensures drain == BatteryDrain(ruler, start, tasks, agent) == Spent(ruler, start, tasks, agent)
  {
    DrainIsSpent(ruler, start, tasks, agent);
    if agent.batteryModel.Some? {
      var m := agent.batteryModel.value;
      ghost var leg := Leg(ruler.flat, m);
      var current := start;
      drain := 0.0;
      for k := 0 to |tasks|
        invariant drain + TripDrain(leg, current, start, tasks[k..]) == TripDrain(leg, start, start, tasks)
      {
        assert tasks[k..][0] == tasks[k] && tasks[k..][1..] == tasks[k + 1..];
        if tasks[k].pose.Some? {
          drain := drain + LegDrain(ruler.flat, m, current, tasks[k].pose.value);
          current := tasks[k].pose.value;
        }
      }
      drain := drain + LegDrain(ruler.flat, m, current, start);
    } else {
      var total := ComputeRouteCost(ruler.space, start, tasks);
      if tasks != [] && tasks[|tasks| - 1].pose.Some? {
        total := total + ruler.space(tasks[|tasks| - 1].pose.value, start);
      }
      drain := total * agent.drainRate;
    }
  }

  /** The whole trip, including the way back, leaves the reserve untouched. */
  predicate Feasible(ruler: Ruler, start: Pose, tasks: seq<Task>, agent: Agent, reserveFraction: real) {
    tasks == []
    || (var reserve := if agent.batteryModel.Some? then agent.batteryModel.value.reserveFraction else reserveFraction;
        BatteryDrain(ruler, start, tasks, agent) <= agent.battery * (1.0 - reserve))
  }

  method IsFeasible(ruler: Ruler, start: Pose, tasks: seq<Task>, agent: Agent, reserveFraction: real) returns (r: bool)
    ensures r == Feasible(ruler, start, tasks, agent, reserveFraction)
    ensures r <==> tasks == [] || Returns(ruler, start, tasks, agent, reserveFraction)
  {
    FeasibleReturns(ruler, start, tasks, agent, reserveFraction);
    if tasks == [] {
      return true;
    }
    var reserve := if agent.batteryModel.Some? then agent.batteryModel.value.reserveFraction else reserveFraction;
    var required := ComputeBatteryDrain(ruler, start, tasks, agent);
    r := required <= agent.battery * (1.0 - reserve);
  }

  /** The known tasks among the ids, in order. */
  function ResolveKnown(tasks: seq<Task>, order: seq<string>): (r: seq<Task>)
    ensures |r| <= |order|
    ensures Known(tasks, order) ==> |r| == |order|
  {
    if order == [] then []
    else
      var rest := ResolveKnown(tasks, order[..|order| - 1]);
      match TaskById(tasks, order[|order| - 1])
      case None => rest
      case Some(t) => rest + [t]
  }

  lemma {:induction false} ResolvePrefix(tasks: seq<Task>, order: seq<string>, n: nat)
    requires Known(tasks, order) && n <= |order|
    ensures ResolveKnown(tasks, order[..n]) == ResolveKnown(tasks, order)[..n]
  {
    if n < |order| {
      ResolvePrefix(tasks, order[..|order| - 1], n);
      assert order[..|order| - 1][..n] == order[..n];
    } else {
      assert order[..n] == order;
    }
  }

  predicate PrefixFeasible(ruler: Ruler, start: Pose, route: seq<Task>, agent: Agent, reserve: real, n: nat)
    requires n <= |route|
  {
    Feasible(ruler, start, route[..n], agent, reserve)
  }

  /** `kept` is the length of the longest feasible prefix of the route. */
  ghost predicate LongestFeasible(ruler: Ruler, start: Pose, route: seq<Task>, agent: Agent, reserve: real, kept: nat) {
    && kept <= |route| && PrefixFeasible(ruler, start, route, agent, reserve, kept)
    && NoneLonger(ruler, start, route, agent, reserve, kept)
  }

  /** Nothing longer than `kept` is feasible. */
  ghost predicate NoneLonger(ruler: Ruler, start: Pose, route: seq<Task>, agent: Agent, reserve: real, kept: nat) {
    forall n :: kept < n <= |route| ==> !PrefixFeasible(ruler, start, route, agent, reserve, n)
  }

  lemma DropOne(ruler: Ruler, start: Pose, route: seq<Task>, agent: Agent, reserve: real, kept: nat)
    requires 0 < kept <= |route| && NoneLonger(ruler, start, route, agent, reserve, kept)
    requires !Feasible(ruler, start, route[..kept], agent, reserve)
    ensures NoneLonger(ruler, start, route, agent, reserve, kept - 1)
  {
  }

  lemma KeptReturns(ruler: Ruler, start: Pose, route: seq<Task>, agent: Agent, reserve: real, kept: nat)
    requires LongestFeasible(ruler, start, route, agent, reserve, kept)
    ensures kept > 0 ==> Returns(ruler, start, route[..kept], agent, reserve)
  {
    FeasibleReturns(ruler, start, route[..kept], agent, reserve);
  }

  /** Drop tasks, and as many ids, from the end until the trip is feasible. */
  method DropFromEnd(ruler: Ruler, start: Pose, route: seq<Task>, agent: Agent, reserve: real, inner: seq<string>)
    returns (ordered: seq<string>, ghost kept: nat)
    requires |route| <= |inner|
    ensures LongestFeasible(ruler, start, route, agent, reserve, kept)
    ensures ordered == inner[..|inner| - (|route| - kept)]
  {
    ordered := inner;
    var stops := route;
    kept := |stops|;
    while stops != []
      invariant kept <= |route| && stops == route[..kept]
      invariant ordered == inner[..|inner| - (|route| - kept)]
      invariant NoneLonger(ruler, start, route, agent, reserve, kept)
      decreases kept
    {
      var fits := IsFeasible(ruler, start, stops, agent, reserve);
      if fits {
        break;
      }
      DropOne(ruler, start, route, agent, reserve, kept);
      stops := stops[..|stops| - 1];
      ordered := ordered[..|ordered| - 1];
      kept := kept - 1;
    }
  }

  /** Drop stops from the end of the inner order until the trip is feasible. The tasks that
      remain are the longest feasible prefix of the known tasks in the inner order, and flying
      them leaves the reserve; ids and tasks are dropped in step, so with known ids only the ids
      that remain are those tasks'. */
  method BatteryAware(ruler: Ruler, start: Pose, tasks: seq<Task>, agent: Agent, reserve: real, inner: seq<string>)
    returns (ordered: seq<string>)
    ensures ordered <= inner
    ensures var route, dropped := ResolveKnown(tasks, inner), |inner| - |ordered|;
            && dropped <= |route| && LongestFeasible(ruler, start, route, agent, reserve, |route| - dropped)
            && (dropped < |route| ==> Returns(ruler, start, route[..|route| - dropped], agent, reserve))
    ensures Known(tasks, inner) ==> ResolveKnown(tasks, ordered) == ResolveKnown(tasks, inner)[..|ordered|]
  {
    var route := ResolveKnown(tasks, inner);
    ghost var kept;
    ordered, kept := DropFromEnd(ruler, start, route, agent, reserve, inner);
    KeptReturns(ruler, start, route, agent, reserve, kept);
    if Known(tasks, inner) {
      ResolvePrefix(tasks, inner, kept);
    }
  }

  lemma LegIsMetric(flat: Distance, m: BatteryModel)
    requires IsMetric(flat) && m.cruiseDrain >= 0.0 && m.climbDrain >= 0.0
    ensures IsMetric(Leg(flat, m))
  {
    var leg := Leg(flat, m);
    forall a, b ensures leg(a, b) >= 0.0 && leg(a, a) == 0.0 && leg(a, b) == leg(b, a) {
      LegBasics(flat, m, a, b);
    }
    forall a, b, c ensures leg(a, c) <= leg(a, b) + leg(b, c) {
      LegTriangle(flat, m, a, b, c);
    }
  }

  lemma LegBasics(flat: Distance, m: BatteryModel, a: Pose, b: Pose)
    requires flat(a, b) >= 0.0 && flat(a, a) == 0.0 && flat(a, b) == flat(b, a)
    requires m.cruiseDrain >= 0.0 && m.climbDrain >= 0.0
    ensures LegDrain(flat, m, a, b) >= 0.0 && LegDrain(flat, m, a, a) == 0.0
    ensures LegDrain(flat, m, a, b) == LegDrain(flat, m, b, a)
  {
  }

  lemma LegTriangle(flat: Distance, m: BatteryModel, a: Pose, b: Pose, c: Pose)
    requires flat(a, c) <= flat(a, b) + flat(b, c) && m.cruiseDrain >= 0.0 && m.climbDrain >= 0.0
    ensures LegDrain(flat, m, a, c) <= LegDrain(flat, m, a, b) + LegDrain(flat, m, b, c)
  {
    AbsTriangle(a.z, b.z, c.z);
    WeightedTriangle(flat(a, c), flat(a, b), flat(b, c), m.cruiseDrain,
                     Abs(a.z - c.z), Abs(a.z - b.z), Abs(b.z - c.z), m.climbDrain);
  }

  lemma AbsTriangle(x: real, y: real, z: real)
    ensures Abs(x - z) <= Abs(x - y) + Abs(y - z)
  {
  }

  lemma WeightedTriangle(x: real, y: real, z: real, k: real, x': real, y': real, z': real, k': real)
    requires x <= y + z && k >= 0.0 && x' <= y' + z' && k' >= 0.0
    ensures x * k + x' * k' <= (y * k + y' * k') + (z * k + z' * k')
  {
    ScaledTriangle(x, y, z, k);
    ScaledTriangle(x', y', z', k');
  }

  lemma ScaledTriangle(x: real, y: real, z: real, k: real)
    requires x <= y + z && k >= 0.0
    ensures x * k <= y * k + z * k
  {
    assert (y + z - x) * k >= 0.0;
  }

  /** However many stops are made, the trip drains at least as much as going straight back. */
  lemma {:induction false} TripAtLeastReturn(leg: Distance, current: Pose, start: Pose, tasks: seq<Task>)
    requires IsMetric(leg)
    ensures leg(current, start) <= TripDrain(leg, current, start, tasks)
    decreases tasks
  {
    if tasks != [] {
      match tasks[0].pose
      case None => TripAtLeastReturn(leg, current, start, tasks[1..]);
      case Some(p) => TripAtLeastReturn(leg, p, start, tasks[1..]);
    }
  }

  /** Turning back earlier never drains more. */
  lemma {:induction false} PrefixDrainsLess(leg: Distance, current: Pose, start: Pose, tasks: seq<Task>, n: nat)
    requires IsMetric(leg) && n <= |tasks|
    ensures TripDrain(leg, current, start, tasks[..n]) <= TripDrain(leg, current, start, tasks)
    decreases tasks
  {
    if n == 0 {
      TripAtLeastReturn(leg, current, start, tasks);
    } else {
      assert tasks[..n][1..] == tasks[1..][..n - 1];
      match tasks[0].pose
      case None => PrefixDrainsLess(leg, current, start, tasks[1..], n - 1);
      case Some(p) => PrefixDrainsLess(leg, p, start, tasks[1..], n - 1);
    }
  }

  /** With the battery model and non-negative rates exactly the prefixes up to the kept length
      are feasible, so nothing kept is in vain and the return leg fits the reserve. */
  lemma FeasibleExactlyUpTo(ruler: Ruler, start: Pose, route: seq<Task>, agent: Agent, reserve: real, kept: nat, n: nat)
    requires IsMetric(ruler.flat) && agent.batteryModel.Some?
    requires agent.batteryModel.value.cruiseDrain >= 0.0 && agent.batteryModel.value.climbDrain >= 0.0
    requires LongestFeasible(ruler, start, route, agent, reserve, kept) && n <= |route|
    ensures PrefixFeasible(ruler, start, route, agent, reserve, n) <==> n <= kept
  {
    if n <= kept {
      LegIsMetric(ruler.flat, agent.batteryModel.value);
      assert route[..kept][..n] == route[..n];
      PrefixDrainsLess(Leg(ruler.flat, agent.batteryModel.value), start, start, route[..kept], n);
    }
  }

  // ----- the legacy drain -----

  lemma {:induction false} RouteCostPrefix(d: Distance, start: Pose, tasks: seq<Task>, n: nat)
    requires IsMetric(d) && n <= |tasks|
    ensures RouteCost(d, start, tasks[..n]) <= RouteCost(d, start, tasks)
    decreases tasks
  {
    if n == 0 {
      RouteCostNonNegative(d, start, tasks);
    } else {
      assert tasks[..n][1..] == tasks[1..][..n - 1];
      match tasks[0].pose
      case None => RouteCostPrefix(d, start, tasks[1..], n - 1);
      case Some(p) => RouteCostPrefix(d, p, tasks[1..], n - 1);
    }
  }

  lemma {:induction false} RouteCostNonNegative(d: Distance, start: Pose, tasks: seq<Task>)
    requires IsMetric(d)
    ensures RouteCost(d, start, tasks) >= 0.0
    decreases tasks
  {
    if tasks != [] {
      match tasks[0].pose
      case None => RouteCostNonNegative(d, start, tasks[1..]);
      case Some(p) => RouteCostNonNegative(d, p, tasks[1..]);
    }
  }

  /** With a pose at the end, the legacy distance is the whole round trip; it is never more. */
  lemma {:induction false} LegacyIsTrip(d: Distance, current: Pose, start: Pose, tasks: seq<Task>)
    requires IsMetric(d)
    ensures RouteCost(d, current, tasks) <= TripDrain(d, current, start, tasks)
    ensures tasks != [] && tasks[|tasks| - 1].pose.Some? ==>
              RouteCost(d, current, tasks) + d(tasks[|tasks| - 1].pose.value, start) ==
              TripDrain(d, current, start, tasks)
    decreases tasks
  {
    if tasks != [] {
      var next := if tasks[0].pose.Some? then tasks[0].pose.value else current;
      LegacyIsTrip(d, next, start, tasks[1..]);
      if |tasks| > 1 {
        assert tasks[1..][|tasks| - 2] == tasks[|tasks| - 1];
      }
    }
  }

  /** The way back is counted for the whole route, or not counted for its first `n` stops. */
  predicate ReturnCounted(tasks: seq<Task>, n: nat)
    requires n <= |tasks|
  {
    n == 0 || tasks[n - 1].pose.None? || tasks[|tasks| - 1].pose.Some?
  }

  lemma LegacyPrefixShorter(d: Distance, start: Pose, tasks: seq<Task>, n: nat)
    requires IsMetric(d) && n <= |tasks| && ReturnCounted(tasks, n)
    ensures LegacyDistance(d, start, tasks[..n]) <= LegacyDistance(d, start, tasks)
  {
    LegacyIsTrip(d, start, start, tasks);
    LegacyIsTrip(d, start, start, tasks[..n]);
    PrefixDrainsLess(d, start, start, tasks, n);
    RouteCostPrefix(d, start, tasks, n);
  }

  /** The cost of a route is that of its first `n` stops and then of the rest, from the last of
      them on. */
  lemma {:induction false} RouteCostSplit(d: Distance, start: Pose, tasks: seq<Task>, n: nat)
    requires 0 < n <= |tasks| && tasks[n - 1].pose.Some?
    ensures RouteCost(d, start, tasks) ==
            RouteCost(d, start, tasks[..n]) + RouteCost(d, tasks[n - 1].pose.value, tasks[n..])
    decreases tasks
  {
    assert tasks[..n][1..] == tasks[1..][..n - 1] && tasks[n..] == tasks[1..][n - 1..];
    var next := if tasks[0].pose.Some? then tasks[0].pose.value else start;
    if n > 1 {
      RouteCostSplit(d, next, tasks[1..], n - 1);
    } else {
      assert tasks[..n][1..] == [];
    }
  }

  /** The way back from the last stop of the prefix is no longer than the rest of the route. */
  predicate RestOutweighs(d: Distance, start: Pose, tasks: seq<Task>, n: nat)
    requires n <= |tasks| && !ReturnCounted(tasks, n)
  {
    d(tasks[n - 1].pose.value, start) <= RouteCost(d, tasks[n - 1].pose.value, tasks[n..])
  }

  lemma LegacyDistanceExactly(d: Distance, start: Pose, tasks: seq<Task>, n: nat)
    requires IsMetric(d) && n <= |tasks|
    ensures LegacyDistance(d, start, tasks[..n]) <= LegacyDistance(d, start, tasks) <==>
            ReturnCounted(tasks, n) || RestOutweighs(d, start, tasks, n)
  {
    if ReturnCounted(tasks, n) {
      LegacyPrefixShorter(d, start, tasks, n);
    } else {
      RouteCostSplit(d, start, tasks, n);
    }
  }

  lemma ScaledExactly(x: real, y: real, rate: real, scaledX: real, scaledY: real)
    requires rate >= 0.0 && scaledX == x * rate && scaledY == y * rate
    ensures scaledX <= scaledY <==> rate == 0.0 || x <= y
  {
    if x <= y {
      ScaledTriangle(x, y, 0.0, rate);
    } else if rate > 0.0 {
      assert (x - y) * rate > 0.0;
      assert (x - y) * rate == x * rate - y * rate;
    }
  }

  lemma DrainsCompare(d: Distance, start: Pose, one: seq<Task>, other: seq<Task>, rate: real)
    requires rate >= 0.0
    ensures LegacyDrain(d, start, one, rate) <= LegacyDrain(d, start, other, rate) <==>
            rate == 0.0 || LegacyDistance(d, start, one) <= LegacyDistance(d, start, other)
  {
    ScaledExactly(LegacyDistance(d, start, one), LegacyDistance(d, start, other), rate,
                  LegacyDrain(d, start, one, rate), LegacyDrain(d, start, other, rate));
  }

  /** With the legacy model a prefix drains no more than the whole route exactly when the way
      back is counted for the whole route or not counted for the prefix, or the rest of the
      route is at least as long as the way back that the prefix is charged. */
  lemma LegacyPrefixExactly(d: Distance, start: Pose, tasks: seq<Task>, n: nat, rate: real)
    requires IsMetric(d) && n <= |tasks| && rate >= 0.0
    ensures LegacyDrain(d, start, tasks[..n], rate) <= LegacyDrain(d, start, tasks, rate) <==>
            rate == 0.0 || ReturnCounted(tasks, n) || RestOutweighs(d, start, tasks, n)
  {
    LegacyDistanceExactly(d, start, tasks, n);
    DrainsCompare(d, start, tasks[..n], tasks, rate);
  }

  /** A task away from the start followed by one without a position: the first alone drains more
      than both, for every metric that tells the two places apart. */
  lemma ShorterDrainsMore(d: Distance, start: Pose, away: Task, nowhere: Task, rate: real)
    requires IsMetric(d) && rate > 0.0 && away.pose.Some? && nowhere.pose.None? && d(away.pose.value, start) > 0.0
    ensures LegacyDrain(d, start, [away], rate) > LegacyDrain(d, start, [away, nowhere], rate)
  {
    var tasks := [away, nowhere];
    assert tasks[..1] == [away] && tasks[1..] == [nowhere] && [nowhere][1..] == [];
    LegacyPrefixExactly(d, start, tasks, 1, rate);
  }
}
