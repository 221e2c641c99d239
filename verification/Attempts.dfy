/** What one attempt means, in the fields of the simulator's answer (generator.py). */
module Attempts {
  import opened Plane
  import opened Boxes
  import opened Motifs
  import opened Suite
  import opened Scoring
  import opened Individuals

  /** The run raised, or came back without distances. */
  ghost predicate Failed(r: Reply) { r.crashed || r.distances == [] }

  /** The flight has no end, or one farther from the goal than the tolerance. */
  ghost predicate EndsAway(cfg: Config, r: Reply, goal: Vec) {
    r.path == [] || cfg.goalTol < 0.0 ||
    var end := r.path[|r.path| - 1];
    (end.x - goal.x) * (end.x - goal.x) + (end.y - goal.y) * (end.y - goal.y) > cfg.goalTol * cfg.goalTol
  }

  ghost predicate StaysClear(cfg: Config, r: Reply) {
    forall i :: 0 <= i < |r.distances| ==> r.distances[i] > cfg.flakeObstacleDistanceM
  }

  /** The attempt reaches the simulator. */
  ghost predicate Flies(ctx: Context, op: Operation, boxes: seq<Box>) {
    op == Operation.Rerun || LegalLayout(ctx.cfg.bounds, boxes)
  }

  lemma EndMeans(cfg: Config, r: Reply, goal: Vec)
    ensures ReachedGoal(cfg, r, goal) <==> !EndsAway(cfg, r, goal)
  {
    if r.path != [] { SquareMirror(r.path[|r.path| - 1], goal); }
  }

  lemma SquareMirror(p: Vec, q: Vec)
    ensures DistSq(p, q) == (p.x - q.x) * (p.x - q.x) + (p.y - q.y) * (p.y - q.y)
  {}

  lemma NearestMeans(xs: seq<real>, bound: real)
    requires xs != []
    ensures MinOf(xs) > bound <==> forall i :: 0 <= i < |xs| ==> xs[i] > bound
  {}

  /** A flight is a flake exactly if it misses the goal without ever coming near an obstacle. */
  lemma FlakeMeans(ctx: Context, op: Operation, boxes: seq<Box>, r: Reply)
    requires Flies(ctx, op, boxes) && !Failed(r)
    ensures OutcomeOf(ctx, op, boxes, r) == Flake <==> EndsAway(ctx.cfg, r, ctx.goal) && StaysClear(ctx.cfg, r)
    ensures OutcomeOf(ctx, op, boxes, r) == Flake || OutcomeOf(ctx, op, boxes, r) == Consumed
  {
    hide LegalLayout, ReachedGoal, EndsAway, MinOf;
    EndMeans(ctx.cfg, r, ctx.goal);
    NearestMeans(r.distances, ctx.cfg.flakeObstacleDistanceM);
  }

  /** A flake leaves no trace but the counted attempt and the wall-clock time. */
  lemma FlakeLeavesNothing(ctx: Context, op: Operation, boxes: seq<Box>, v: Vitals, r: Reply)
    requires Measured(boxes, v) && OutcomeOf(ctx, op, boxes, r) == Flake
    ensures AttemptStep(ctx, op, boxes, v, r) ==
            v.(duration := r.wall, attempts := v.attempts + if op == Operation.Evaluate then 1 else 0)
  {
    hide LegalLayout, IsFlakeRun;
  }

  /**
   A failed run is consumed. A first evaluation records nothing; a rerun records the sentinel, with the watchdog limit
   as its time. Either way a run the watchdog killed makes the layout stuck.
   */
  lemma FailureMeans(ctx: Context, op: Operation, boxes: seq<Box>, v: Vitals, r: Reply)
    requires Measured(boxes, v) && Flies(ctx, op, boxes) && Failed(r)
    ensures OutcomeOf(ctx, op, boxes, r) == Consumed
    ensures var w := AttemptStep(ctx, op, boxes, v, r);
            && w.stuck == (v.stuck || r.killed) && w.trajectories == v.trajectories && w.testCase == v.testCase
            && if op == Operation.Evaluate then
                 && !w.valid && w.fitness == Infinite && w.attempts == v.attempts + 1
                 && w.distances == v.distances && w.flightDurations == v.flightDurations
               else
                 && w.valid == v.valid && w.fitness == v.fitness && w.attempts == v.attempts
                 && w.distances == v.distances + [ctx.cfg.failSentinel]
                 && exists s :: AtLeastMinimum(s, ctx.killAfter) && w.flightDurations == v.flightDurations + [s]
  {
    hide LegalLayout, IsFlakeRun, Seconds;
    SecondsMeans(ctx.killAfter);
  }

  /** The measured seconds, but never less than the smallest duration. */
  ghost predicate AtLeastMinimum(s: real, seconds: real) {
    s >= seconds && s >= 0.000000001 && (s == seconds || s == 0.000000001)
  }

  lemma SecondsMeans(seconds: real)
    ensures AtLeastMinimum(Seconds(seconds), seconds)
  {}

  /** A distance of the answer that none of the others undercuts. */
  ghost predicate IsNearest(d: real, distances: seq<real>) {
    d in distances && forall i :: 0 <= i < |distances| ==> d <= distances[i]
  }

  /** Any other run appends exactly one measurement, its nearest distance; missing the goal makes the layout stuck. */
  lemma MeasurementMeans(ctx: Context, op: Operation, boxes: seq<Box>, v: Vitals, r: Reply)
    requires Measured(boxes, v) && Flies(ctx, op, boxes) && !Failed(r)
    requires !(EndsAway(ctx.cfg, r, ctx.goal) && StaysClear(ctx.cfg, r))
    ensures OutcomeOf(ctx, op, boxes, r) == Consumed
    ensures var w := AttemptStep(ctx, op, boxes, v, r);
            && (exists d :: IsNearest(d, r.distances) && w.distances == v.distances + [d])
            && (exists s :: AtLeastMinimum(s, r.seconds) && w.flightDurations == v.flightDurations + [s])
            && w.trajectories == v.trajectories + [r.path] && w.testCase == Some(r)
            && w.stuck == (v.stuck || EndsAway(ctx.cfg, r, ctx.goal))
            && if op == Operation.Evaluate then w.valid && w.attempts == v.attempts + 1
               else w.valid == v.valid && w.attempts == v.attempts && w.fitness == v.fitness
                    && w.officialScore == v.officialScore
  {
    hide LegalLayout, ReachedGoal, EndsAway, StaysClear, Seconds, MinOf, OfficialTestScore, SearchTestScore;
    FlakeMeans(ctx, op, boxes, r);
    EndMeans(ctx.cfg, r, ctx.goal);
    SecondsMeans(r.seconds);
    assert IsNearest(MinOf(r.distances), r.distances);
  }

  /** A run that comes near an obstacle is never a flake, wherever it ends. */
  lemma NearRunIsRecorded(ctx: Context, op: Operation, boxes: seq<Box>, v: Vitals, r: Reply, i: nat)
    requires Measured(boxes, v) && Flies(ctx, op, boxes) && !r.crashed
    requires i < |r.distances| && r.distances[i] <= ctx.cfg.flakeObstacleDistanceM
    ensures var w := AttemptStep(ctx, op, boxes, v, r);
            && OutcomeOf(ctx, op, boxes, r) == Consumed && |w.distances| == |v.distances| + 1
            && w.distances[..|v.distances|] == v.distances && IsNearest(w.distances[|v.distances|], r.distances)
  {
    hide LegalLayout, EndsAway, AttemptStep, OutcomeOf, Measured;
    MeasurementMeans(ctx, op, boxes, v, r);
    var w := AttemptStep(ctx, op, boxes, v, r);
    var d :| IsNearest(d, r.distances) && w.distances == v.distances + [d];
  }

  /** A layout that is not legal is never flown; its evaluation only flags it. */
  lemma IllegalIsSkipped(ctx: Context, boxes: seq<Box>, v: Vitals, r: Reply)
    requires Measured(boxes, v) && !LegalLayout(ctx.cfg.bounds, boxes)
    ensures OutcomeOf(ctx, Operation.Evaluate, boxes, r) == Skipped
    ensures AttemptStep(ctx, Operation.Evaluate, boxes, v, r) ==
              v.(fitness := Infinite, valid := false, illegal := true)
  {
    hide LegalLayout;
  }

  // ---- legal layouts ----------------------------------------------------------------------------

  /** On the normal of some edge the two shadows share less than the tolerance. */
  ghost predicate KeptApart(a: Box, b: Box) {
    exists n :: (EdgeNormal(a, n) || EdgeNormal(b, n)) && Separates(a, b, n)
  }

  /** Footprints of a legal layout lie in the area, and the shadows of any two share less than the tolerance. */
  lemma LegalMeans(bounds: Bounds, boxes: seq<Box>)
    requires LegalLayout(bounds, boxes) && forall i :: 0 <= i < |boxes| ==> IsBox(boxes[i])
    ensures forall i, p :: 0 <= i < |boxes| && InFootprint(boxes[i], p) ==> InBounds(bounds, p)
    ensures forall i, j :: 0 <= i < j < |boxes| ==> KeptApart(boxes[i], boxes[j])
  {
    hide BoxFits, Overlaps, InFootprint, InBounds, EdgeNormal, Separates, IsBox;
    forall i, p | 0 <= i < |boxes| && InFootprint(boxes[i], p) ensures InBounds(bounds, p) {
      FitsExactlyWhenInside(bounds, boxes[i]);
    }
    forall i, j | 0 <= i < j < |boxes| ensures KeptApart(boxes[i], boxes[j]) {
      var n := ApartHasSeparatingNormal(boxes[i], boxes[j]);
    }
  }

  /** A layout that is not legal has a footprint that leaves the area, or two with a common point. */
  lemma IllegalMeans(bounds: Bounds, boxes: seq<Box>)
    requires !LegalLayout(bounds, boxes) && forall i :: 0 <= i < |boxes| ==> IsBox(boxes[i])
    ensures || (exists i, p :: 0 <= i < |boxes| && InFootprint(boxes[i], p) && !InBounds(bounds, p))
            || (exists i, j, p :: 0 <= i < j < |boxes| && InFootprint(boxes[i], p) && InFootprint(boxes[j], p))
  {
    hide BoxFits, Overlaps, InFootprint, InBounds, IsBox;
    if i :| 0 <= i < |boxes| && !BoxFits(bounds, boxes[i]) {
      FitsExactlyWhenInside(bounds, boxes[i]);
    } else {
      var i, j :| 0 <= i < j < |boxes| && Overlaps(boxes[i], boxes[j]);
      var p := OverlapMeets(boxes[i], boxes[j]);
    }
  }
}
