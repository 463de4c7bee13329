/** Lengths of walks from pose to pose. */
module Tours {
  import opened Basics
  import opened Fleet

  /** The poses of the tasks that have one, in order. */
  function Poses(tasks: seq<Task>): seq<Pose> {
    if tasks == [] then []
    else if tasks[0].pose.Some? then [tasks[0].pose.value] + Poses(tasks[1..])
    else Poses(tasks[1..])
  }

  /** The sum of the distances between consecutive poses. */
  function Length(d: Distance, walk: seq<Pose>): real {
    if |walk| < 2 then 0.0 else d(walk[0], walk[1]) + Length(d, walk[1..])
  }

  /** Difference in height. */
  function Rise(a: Pose, b: Pose): real {
    if a.z < b.z then b.z - a.z else a.z - b.z
  }

  /** From `start` through the tasks. */
  function OneWay(start: Pose, tasks: seq<Task>): seq<Pose> {
    [start] + Poses(tasks)
  }

  /** From `start` through the tasks and back. */
  function Tour(start: Pose, tasks: seq<Task>): seq<Pose> {
    [start] + Poses(tasks) + [start]
  }

  /** What a walk over these poses costs at one rate over the ground and another in height. */
  lemma {:induction false} WeightedLength(d: Distance, flat: Distance, rise: Distance, k: real, c: real,
                                          walk: seq<Pose>)
    requires forall a, b :: d(a, b) == flat(a, b) * k + rise(a, b) * c
    ensures Length(d, walk) == k * Length(flat, walk) + c * Length(rise, walk)
  {
    if |walk| >= 2 {
      WeightedLength(d, flat, rise, k, c, walk[1..]);
      var a, b := walk[0], walk[1];
      WeightedStep(flat(a, b), Length(flat, walk[1..]), k, rise(a, b), Length(rise, walk[1..]), c);
    }
  }

  lemma WeightedStep(x: real, y: real, k: real, x': real, y': real, c: real)
    ensures (x * k + x' * c) + (k * y + c * y') == k * (x + y) + c * (x' + y')
  {
    assert k * (x + y) == x * k + k * y;
    assert c * (x' + y') == x' * c + c * y';
  }
}
