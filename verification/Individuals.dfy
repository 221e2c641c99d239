/** One candidate layout, its recorded runs, and what one simulator attempt does to it (generator.py). */
module Individuals {
  import opened Plane
  import opened Boxes
  import opened Genes
  import opened Motifs
  import opened Scoring
  import opened Suite

  /** The parameters the campaign reads; decay stands for e to the power -x. */
  datatype Config = Config(
    popSize: nat, maxRetries: nat, seedDraws: nat, tournamentK: nat, elitePerNiche: nat, gateShare: real,
    seedSides: seq<int>, immigrantShare: real, rerunElites: bool, evolve: bool, rules: Rules,
    shapeGain: real, incompleteFactor: real, decay: real -> real, parallelWorkers: nat, bounds: Bounds,
    refineFraction: real, refineThreshold: real, nReruns: nat, failSentinel: real, goalTol: real,
    flakeObstacleDistanceM: real, maxFlakeRetries: nat, timeoutMul: real, minTimeout: real, maxRunFailures: nat)

  /** What the source needs of its configuration to run at all. */
  ghost predicate Usable(cfg: Config) {
    && cfg.popSize >= 1 && cfg.parallelWorkers >= 1 && cfg.maxRunFailures >= 1 && cfg.seedDraws >= 1
    && cfg.tournamentK >= 1
    && 0.0 <= cfg.gateShare <= 1.0
    && cfg.seedSides != [] && forall i :: 0 <= i < |cfg.seedSides| ==> cfg.seedSides[i] == 1 || cfg.seedSides[i] == -1
  }

  /**
   The simulator's answer to one attempt: whether it raised, whether the watchdog fired, the obstacle distances, the
   flown path, the flight seconds and the wall-clock seconds.
   */
  datatype Reply = Reply(crashed: bool, killed: bool, distances: seq<real>, path: seq<Vec>, seconds: real, wall: real)

  datatype Outcome = Skipped | Consumed | Flake

  datatype Operation = Evaluate | Rerun

  datatype Context = Context(cfg: Config, goal: Vec, killAfter: real)

  /** The mutable part of an individual. */
  datatype Vitals = Vitals(fitness: Extended, officialScore: real, valid: bool, distances: seq<real>,
                           flightDurations: seq<real>, trajectories: seq<seq<Vec>>, stuck: bool, illegal: bool,
                           duration: real, generation: nat, attempts: nat, testCase: Option<Reply>)

  const NEWBORN := Vitals(Infinite, 0.0, false, [], [], [], false, false, 0.0, 0, 0, None)

  predicate Raises(r: Reply) { r.crashed || r.distances == [] }

  predicate ReachedGoal(cfg: Config, r: Reply, goal: Vec) {
    r.path != [] && cfg.goalTol >= 0.0 && DistSq(r.path[|r.path| - 1], goal) <= cfg.goalTol * cfg.goalTol
  }

  /** The goal was missed although no obstacle was ever near. */
  predicate IsFlakeRun(cfg: Config, r: Reply, goal: Vec)
    requires r.distances != []
  {
    !ReachedGoal(cfg, r, goal) && MinOf(r.distances) > cfg.flakeObstacleDistanceM
  }

  predicate LegalLayout(bounds: Bounds, boxes: seq<Box>) { FitsInBounds(bounds, boxes) && !HasOverlap(boxes) }

  /** The scores can be computed from the recorded runs. */
  predicate Measured(boxes: seq<Box>, v: Vitals) { Scorable(v.distances, |boxes|, v.flightDurations) }

  function Seconds(s: real): (r: real)
    ensures r > 0.0
  {
    Max(s, MIN_SECONDS)
  }

  function Rescored(cfg: Config, boxes: seq<Box>, v: Vitals): Vitals
    requires Measured(boxes, v)
  {
    v.(officialScore := OfficialTestScore(v.distances, |boxes|, v.flightDurations),
       fitness := Finite(-SearchTestScore(v.distances, |boxes|, v.flightDurations, cfg.shapeGain, cfg.decay, v.stuck,
                                          cfg.incompleteFactor)))
  }

  /** The outcome of an attempt depends on the layout and the simulator's answer alone. */
  function OutcomeOf(ctx: Context, op: Operation, boxes: seq<Box>, r: Reply): Outcome {
    if op == Evaluate && !LegalLayout(ctx.cfg.bounds, boxes) then Skipped
    else if !Raises(r) && IsFlakeRun(ctx.cfg, r, ctx.goal) then Flake
    else Consumed
  }

  /** The answer for a flight that neither met an obstacle nor arrived. */
  function Stray(cfg: Config): Reply { Reply(false, false, [cfg.flakeObstacleDistanceM + 1.0], [], 0.0, 0.0) }

  lemma StrayIsFlake(ctx: Context, op: Operation, boxes: seq<Box>)
    requires op == Operation.Rerun || LegalLayout(ctx.cfg.bounds, boxes)
    ensures OutcomeOf(ctx, op, boxes, Stray(ctx.cfg)) == Flake
  {}

  /** One more recorded measurement. */
  function WithRun(ctx: Context, v: Vitals, r: Reply): Vitals
    requires !Raises(r)
  {
    v.(distances := v.distances + [MinOf(r.distances)],
       flightDurations := v.flightDurations + [Seconds(r.seconds)],
       trajectories := v.trajectories + [r.path],
       stuck := v.stuck || !ReachedGoal(ctx.cfg, r, ctx.goal),
       testCase := Some(r))
  }

  function EvaluateStep(ctx: Context, boxes: seq<Box>, v: Vitals, r: Reply): (w: Vitals)
    requires Measured(boxes, v)
    ensures Measured(boxes, w)
  {
    if OutcomeOf(ctx, Evaluate, boxes, r) == Skipped then v.(fitness := Infinite, valid := false, illegal := true)
    else
      var flown := v.(attempts := v.attempts + 1, duration := r.wall);
      if Raises(r) then flown.(stuck := v.stuck || r.killed, fitness := Infinite, valid := false)
      else if OutcomeOf(ctx, Evaluate, boxes, r) == Flake then flown
      else Rescored(ctx.cfg, boxes, WithRun(ctx, flown, r)).(valid := true)
  }

  function RerunStep(ctx: Context, boxes: seq<Box>, v: Vitals, r: Reply): (w: Vitals)
    requires Measured(boxes, v)
    ensures Measured(boxes, w)
  {
    var flown := v.(duration := r.wall);
    if Raises(r) then
      flown.(stuck := v.stuck || r.killed, distances := v.distances + [ctx.cfg.failSentinel],
             flightDurations := v.flightDurations + [Seconds(ctx.killAfter)])
    else if OutcomeOf(ctx, Rerun, boxes, r) == Flake then flown
    else WithRun(ctx, flown, r)
  }

  function AttemptStep(ctx: Context, op: Operation, boxes: seq<Box>, v: Vitals, r: Reply): (w: Vitals)
    requires Measured(boxes, v)
    ensures Measured(boxes, w)
  {
    if op == Evaluate then EvaluateStep(ctx, boxes, v, r) else RerunStep(ctx, boxes, v, r)
  }

  /** Individuals are compared by identity; obstacles and genes never change. */
  class Individual {
    const obstacles: seq<Box>
    const genes: Genome
    var fitness: Extended
    var officialScore: real
    var testCase: Option<Reply>
    var valid: bool
    var distances: seq<real>
    var flightDurations: seq<real>
    var trajectories: seq<seq<Vec>>
    var stuck: bool
    var illegal: bool
    var duration: real
    var generation: nat
    var attempts: nat

    constructor (obstacles: seq<Box>, genes: Genome, illegal: bool)
      ensures this.obstacles == obstacles && this.genes == genes && View() == NEWBORN.(illegal := illegal)
    {
      this.obstacles, this.genes, this.illegal := obstacles, genes, illegal;
      fitness, officialScore, testCase, valid := Infinite, 0.0, None, false;
      distances, flightDurations, trajectories := [], [], [];
      stuck, duration, generation, attempts := false, 0.0, 0, 0;
    }

    ghost function View(): Vitals
      reads this
    {
      Vitals(fitness, officialScore, valid, distances, flightDurations, trajectories, stuck, illegal, duration,
        generation, attempts, testCase)
    }

    method Rescore(cfg: Config)
      requires Measured(obstacles, View())
      modifies this
      ensures View() == Rescored(cfg, obstacles, old(View()))
    {
      officialScore := OfficialTestScore(distances, |obstacles|, flightDurations);
      fitness := Finite(-SearchTestScore(distances, |obstacles|, flightDurations, cfg.shapeGain, cfg.decay, stuck,
                                         cfg.incompleteFactor));
    }

    method AppendRun(ctx: Context, r: Reply)
      requires !Raises(r) && Measured(obstacles, View())
      modifies this
      ensures View() == WithRun(ctx, old(View()), r) && Measured(obstacles, View())
    {
      hide OfficialTestScore, SearchTestScore, ReachedGoal;
      testCase := Some(r);
      distances := distances + [MinOf(r.distances)];
      flightDurations := flightDurations + [Seconds(r.seconds)];
      trajectories := trajectories + [r.path];
      if !ReachedGoal(ctx.cfg, r, ctx.goal) {
        stuck := true;
      }
    }

    /** Notes the generation the layout was first flown in. */
    method Enter(gen: nat)
      modifies this
      ensures View() == old(View()).(generation := gen)
    {
      generation := gen;
    }

    /** Runs one simulation and stores its distance and fitness. */
    method Evaluate(ctx: Context, r: Reply) returns (outcome: Outcome)
      requires Measured(obstacles, View())
      modifies this
      ensures View() == EvaluateStep(ctx, obstacles, old(View()), r)
      ensures outcome == OutcomeOf(ctx, Operation.Evaluate, obstacles, r)
    {
      hide FitsInBounds, HasOverlap, OfficialTestScore, SearchTestScore, ReachedGoal, IsFlakeRun;
      if LayoutProblem(ctx.cfg.bounds, obstacles, [], -1, false).Some? {
        fitness, valid, illegal := Infinite, false, true;
        return Skipped;
      }
      attempts := attempts + 1;
      duration := r.wall;
      if Raises(r) {
        if r.killed {
          stuck := true;
        }
        fitness, valid := Infinite, false;
        return Consumed;
      }
      if IsFlakeRun(ctx.cfg, r, ctx.goal) {
        return Flake;
      }
      AppendRun(ctx, r);
      Rescore(ctx.cfg);
      valid := true;
      return Consumed;
    }

    /** Runs an already evaluated layout again and appends the measurement; the scores are left for later. */
    method Rerun(ctx: Context, r: Reply) returns (outcome: Outcome)
      requires Measured(obstacles, View())
      modifies this
      ensures View() == RerunStep(ctx, obstacles, old(View()), r)
      ensures outcome == OutcomeOf(ctx, Operation.Rerun, obstacles, r)
    {
      duration := r.wall;
      if Raises(r) {
        if r.killed {
          stuck := true;
        }
        distances := distances + [ctx.cfg.failSentinel];
        flightDurations := flightDurations + [Seconds(ctx.killAfter)];
        return Consumed;
      }
      if IsFlakeRun(ctx.cfg, r, ctx.goal) {
        return Flake;
      }
      AppendRun(ctx, r);
      return Consumed;
    }
  }
}
