/** The route planners' orders in terms of poses and positions. */
module RouteOrder {
  import opened Basics
  import opened Fleet
  import opened Tours
  import opened RoutePlanner

  // ----- which task an id stands for -----

  /** `t` is the first task of that id. */
  ghost predicate FirstWith(tasks: seq<Task>, id: string, t: Task) {
    exists k :: 0 <= k < |tasks| && tasks[k] == t && t.id == id && forall j :: 0 <= j < k ==> tasks[j].id != id
  }

  ghost predicate LastAt(tasks: seq<Task>, id: string, k: nat) {
    k < |tasks| && tasks[k].id == id && forall j :: k < j < |tasks| ==> tasks[j].id != id
  }

  /** `t` is the last task of that id. */
  ghost predicate LastWith(tasks: seq<Task>, id: string, t: Task) {
    exists k: nat :: LastAt(tasks, id, k) && tasks[k] == t
  }

  lemma {:induction false} FoundIsFirst(tasks: seq<Task>, id: string)
    ensures match FindTask(tasks, id)
            case Some(t) => FirstWith(tasks, id, t)
            case None => forall k :: 0 <= k < |tasks| ==> tasks[k].id != id
  {
    if tasks != [] && tasks[0].id != id {
      FoundIsFirst(tasks[1..], id);
      assert forall k :: 0 < k < |tasks| ==> tasks[k] == tasks[1..][k - 1];
      if FindTask(tasks, id).Some? {
        var k :| 0 <= k < |tasks| - 1 && tasks[1..][k] == FindTask(tasks, id).value
                 && forall j :: 0 <= j < k ==> tasks[1..][j].id != id;
        assert tasks[k + 1] == FindTask(tasks, id).value;
      }
    }
  }

  lemma LastStays(tasks: seq<Task>, id: string, t: Task)
    requires tasks != [] && tasks[|tasks| - 1].id != id && LastWith(tasks[..|tasks| - 1], id, t)
    ensures LastWith(tasks, id, t)
  {
    var init := tasks[..|tasks| - 1];
    var k: nat :| LastAt(init, id, k) && init[k] == t;
    assert forall j :: 0 <= j < |init| ==> tasks[j] == init[j];
    assert LastAt(tasks, id, k);
  }

  lemma {:induction false} MappedIsLast(tasks: seq<Task>, id: string)
    ensures TaskById(tasks, id).Some? ==> LastWith(tasks, id, TaskById(tasks, id).value)
  {
    if tasks != [] {
      var init, n := tasks[..|tasks| - 1], |tasks| - 1;
      if tasks[n].id == id {
        assert LastAt(tasks, id, n);
      } else {
        MappedIsLast(init, id);
        if TaskById(init, id).Some? {
          LastStays(tasks, id, TaskById(init, id).value);
        }
      }
    }
  }

  // ----- nearest neighbour -----

  /** The pose of the first task of that id, if there is one and it has one. */
  ghost predicate PlaceOf(tasks: seq<Task>, id: string, place: Option<Pose>) {
    (exists t :: FirstWith(tasks, id, t) && place == t.pose)
    || ((forall k :: 0 <= k < |tasks| ==> tasks[k].id != id) && place == None)
  }

  /** The places of the stops, in order. */
  ghost predicate PlacesOf(tasks: seq<Task>, order: seq<string>, places: seq<Option<Pose>>) {
    |places| == |order| && forall i :: 0 <= i < |order| ==> PlaceOf(tasks, order[i], places[i])
  }

  /** Before stop `i` the agent is at the last place it came to, or at the start. */
  ghost predicate Here(start: Pose, places: seq<Option<Pose>>, i: nat, here: Pose) {
    i <= |places| &&
    ((exists k :: LastPlace(places, i, k) && places[k] == Some(here))
     || (here == start && forall k :: 0 <= k < i ==> places[k] == None))
  }

  ghost predicate LastPlace(places: seq<Option<Pose>>, i: nat, k: int) {
    0 <= k < i <= |places| && places[k].Some? && forall j :: k < j < i ==> places[j] == None
  }

  /** How far it is to a place; a stop without one is no way off. */
  function Off(d: Distance, here: Pose, place: Option<Pose>): real {
    if place.Some? then d(here, place.value) else 0.0
  }

  /** Each stop is, from where the agent is then, no farther than any stop still to come. */
  ghost predicate Greedy(d: Distance, start: Pose, places: seq<Option<Pose>>) {
    forall i, j, here :: 0 <= i < j < |places| && Here(start, places, i, here) ==>
      Off(d, here, places[i]) <= Off(d, here, places[j])
  }

  function FoundPose(tasks: seq<Task>, id: string): Option<Pose> {
    match FindTask(tasks, id)
    case Some(t) => t.pose
    case None => None
  }

  lemma PlaceIsFound(tasks: seq<Task>, id: string, place: Option<Pose>)
    requires PlaceOf(tasks, id, place)
    ensures place == FoundPose(tasks, id)
  {
    FoundIsFirst(tasks, id);
    if t :| FirstWith(tasks, id, t) && place == t.pose {
      var k :| 0 <= k < |tasks| && tasks[k] == t && t.id == id && forall j :: 0 <= j < k ==> tasks[j].id != id;
    }
  }

  lemma PositionStep(tasks: seq<Task>, start: Pose, order: seq<string>, i: nat)
    requires 0 < i <= |order|
    ensures PositionAfter(tasks, start, order[..i]) ==
            match FoundPose(tasks, order[i - 1])
            case Some(p) => p
            case None => PositionAfter(tasks, start, order[..i - 1])
  {
    assert order[..i][..i - 1] == order[..i - 1];
  }

  lemma {:induction false} HereIsPosition(tasks: seq<Task>, start: Pose, order: seq<string>,
                                          places: seq<Option<Pose>>, i: nat, here: Pose)
    requires |places| == |order| && forall k :: 0 <= k < |order| ==> places[k] == FoundPose(tasks, order[k])
    requires i <= |order| && Here(start, places, i, here)
    ensures here == PositionAfter(tasks, start, order[..i])
  {
    if i > 0 {
      PositionStep(tasks, start, order, i);
      assert places[i - 1] == FoundPose(tasks, order[i - 1]);
      if places[i - 1].Some? {
        HereAfter(start, places, i, here);
      } else {
        HereBefore(start, places, i, here);
        HereIsPosition(tasks, start, order, places, i - 1, here);
      }
    }
  }

  lemma HereBefore(start: Pose, places: seq<Option<Pose>>, i: nat, here: Pose)
    requires 0 < i <= |places| && Here(start, places, i, here) && places[i - 1] == None
    ensures Here(start, places, i - 1, here)
  {
    if k :| LastPlace(places, i, k) && places[k] == Some(here) {
      assert LastPlace(places, i - 1, k);
    }
  }

  lemma HereAfter(start: Pose, places: seq<Option<Pose>>, i: nat, here: Pose)
    requires 0 < i <= |places| && Here(start, places, i, here) && places[i - 1].Some?
    ensures places[i - 1] == Some(here)
  {
  }

  /** The greedy order in terms of places and distances. */
  lemma NearestByPlace(d: Distance, start: Pose, tasks: seq<Task>, order: seq<string>, places: seq<Option<Pose>>)
    requires PlacesOf(tasks, order, places)
    ensures NearestFirst(d, start, tasks, order) ==> Greedy(d, start, places)
  {
    forall k | 0 <= k < |order| ensures places[k] == FoundPose(tasks, order[k]) {
      PlaceIsFound(tasks, order[k], places[k]);
    }
    if NearestFirst(d, start, tasks, order) {
      forall i, j, here | 0 <= i < j < |places| && Here(start, places, i, here)
        ensures Off(d, here, places[i]) <= Off(d, here, places[j])
      {
        HereIsPosition(tasks, start, order, places, i, here);
      }
    }
  }

  // ----- 2-opt -----

  lemma {:induction false} BackwardsAt(s: seq<string>, k: nat)
    requires k < |s|
    ensures Backwards(s)[k] == s[|s| - 1 - k]
  {
    if k < |s| - 1 {
      BackwardsAt(s[1..], k);
    }
  }

  /** The stops from `lo` to `hi` come in the opposite order, all others stay. */
  lemma ReversedAt(route: seq<string>, lo: nat, hi: nat, k: nat)
    requires lo <= hi < |route| && k < |route|
    ensures ReverseSegment(route, lo, hi)[k] == if lo <= k <= hi then route[lo + hi - k] else route[k]
  {
    if lo <= k <= hi {
      BackwardsAt(route[lo..hi + 1], k - lo);
    }
  }

  /** The tasks of a route: for each id the last task of that id. */
  ghost predicate StopsOf(tasks: seq<Task>, route: seq<string>, stops: seq<Task>) {
    |stops| == |route| && forall i :: 0 <= i < |route| ==> LastWith(tasks, route[i], stops[i])
  }

  lemma ResolveIsStops(tasks: seq<Task>, route: seq<string>, stops: seq<Task>)
    requires Known(tasks, route) && StopsOf(tasks, route, stops)
    ensures Resolve(tasks, route) == stops
  {
    forall i | 0 <= i < |route| ensures TaskById(tasks, route[i]) == Some(stops[i]) {
      MappedIsLast(tasks, route[i]);
      var k: nat :| LastAt(tasks, route[i], k) && tasks[k] == stops[i];
    }
  }

  /** What 2-opt makes shorter is the length of the walk through the stops, and of the way back
      where the last of them has a pose. */
  lemma CostOfTour(d: Distance, start: Pose, tasks: seq<Task>, route: seq<string>, stops: seq<Task>)
    requires Known(tasks, route) && StopsOf(tasks, route, stops)
    ensures ClosedCost(d, start, tasks, route) == Length(d, OneWay(start, stops)) + WayBack(d, start, stops)
  {
    ResolveIsStops(tasks, route, stops);
    CostIsLength(d, start, stops);
  }
}
