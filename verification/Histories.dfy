/** What always holds of one individual, given every attempt ever made on it. */
module Histories {
  import opened Plane
  import opened Boxes
  import opened Motifs
  import opened Scoring
  import opened Suite
  import opened Individuals
  import opened Attempts
  import opened Scheduler
  import opened Ledger

  /** The attempts a layout can take before it is flown or given up. */
  function AttemptLimit(cfg: Config): nat { cfg.maxRunFailures + cfg.maxFlakeRetries }

  /** The record agrees with the attempts: one distance per recorded one, no more evaluations than the limit,
      and flagged illegal exactly if it is. */
  ghost predicate Booked(cfg: Config, boxes: seq<Box>, v: Vitals, runs: seq<Attempt>) {
    && |boxes| > 0 && |v.distances| == RecordedIn(runs) && v.attempts == EvaluationsIn(runs) <= AttemptLimit(cfg)
    && (v.illegal <==> !LegalLayout(cfg.bounds, boxes))
  }

  /** Valid individuals have scores that agree with their runs; all others have no run at all. */
  ghost predicate Sane(cfg: Config, boxes: seq<Box>, v: Vitals, runs: seq<Attempt>) {
    Booked(cfg, boxes, v, runs) && if v.valid then Coherent(cfg, boxes, v) else Unflown(v)
  }

  /**
   Between a batch of reruns and the rescoring after it, the cached scores may be out of date, but only after a second
   run.
   */
  ghost predicate Stale(cfg: Config, boxes: seq<Box>, v: Vitals, runs: seq<Attempt>) {
    && Booked(cfg, boxes, v, runs) && v.valid && !v.illegal && v.testCase.Some? && v.distances != []
    && Measured(boxes, v)
    && (|v.distances| == 1 ==> Coherent(cfg, boxes, v))
  }

  lemma NewbornIsSane(cfg: Config, boxes: seq<Box>, illegal: bool)
    requires |boxes| > 0 && (illegal <==> !LegalLayout(cfg.bounds, boxes))
    ensures Sane(cfg, boxes, NEWBORN.(illegal := illegal), [])
  {}

  lemma SaneIsMeasured(cfg: Config, boxes: seq<Box>, v: Vitals, runs: seq<Attempt>)
    requires Sane(cfg, boxes, v, runs)
    ensures Measured(boxes, v) && (v.valid ==> !v.illegal && v.distances != [] && v.testCase.Some?)
    ensures !v.valid ==> v.fitness == Infinite
  {}

  lemma EnteringIsSane(cfg: Config, boxes: seq<Box>, v: Vitals, runs: seq<Attempt>, generation: nat)
    requires Sane(cfg, boxes, v, runs)
    ensures Sane(cfg, boxes, v.(generation := generation), runs)
  {}

  /** A free layout that is not yet given up stays within the attempt limit whatever the simulator answers. */
  lemma EvaluatingIsSane(ctx: Context, boxes: seq<Box>, v: Vitals, runs: seq<Attempt>, more: seq<Attempt>)
    requires Sane(ctx.cfg, boxes, v, runs) && !v.valid && !v.illegal && v.attempts < ctx.cfg.maxRunFailures
    requires Answered(ctx, Operation.Evaluate, boxes, more) && Retried(more, ctx.cfg.maxFlakeRetries)
    requires Measured(boxes, v)
    ensures var w := Replay(ctx, Operation.Evaluate, boxes, v, more); Sane(ctx.cfg, boxes, w, runs + more) && !w.illegal
  {
    hide LegalLayout, Rescored, Replay, RecordedIn, EvaluationsIn, Answered;
    EvaluationSummary(ctx, boxes, v, more);
    CountsOfJoin(runs, more);
  }

  lemma RerunningIsStale(ctx: Context, boxes: seq<Box>, v: Vitals, runs: seq<Attempt>, more: seq<Attempt>)
    requires Sane(ctx.cfg, boxes, v, runs) && v.valid && Answered(ctx, Operation.Rerun, boxes, more)
    requires Measured(boxes, v)
    ensures Stale(ctx.cfg, boxes, Replay(ctx, Operation.Rerun, boxes, v, more), runs + more)
  {
    hide LegalLayout, Rescored, Replay, RecordedIn, EvaluationsIn, Answered;
    RerunSummary(ctx, boxes, v, more);
    CountsOfJoin(runs, more);
  }

  lemma RescoringIsSane(cfg: Config, boxes: seq<Box>, v: Vitals, runs: seq<Attempt>)
    requires Stale(cfg, boxes, v, runs)
    ensures Sane(cfg, boxes, Rescored(cfg, boxes, v), runs)
  {}

  lemma StaleIsSane(cfg: Config, boxes: seq<Box>, v: Vitals, runs: seq<Attempt>)
    requires Stale(cfg, boxes, v, runs) && |v.distances| <= 1
    ensures Sane(cfg, boxes, v, runs)
  {}

  // ---- the record as the simulator told it ------------------------------------------------------

  /** What a list of attempts leaves on record; the duration of a failed run is not the simulator's to tell. */
  datatype Record = Record(distances: seq<real>, durations: seq<Option<real>>, trajectories: seq<seq<Vec>>, stuck: bool,
                           testCase: Option<Reply>)

  const BLANK := Record([], [], [], false, None)

  function Join(r: Record, s: Record): Record {
    Record(r.distances + s.distances, r.durations + s.durations, r.trajectories + s.trajectories, r.stuck || s.stuck,
           if s.testCase.Some? then s.testCase else r.testCase)
  }

  ghost function RecordOf(cfg: Config, goal: Vec, a: Attempt): Record {
    if a.outcome != Consumed then BLANK
    else if !Raises(a.reply) then
      Record([MinOf(a.reply.distances)], [Some(Seconds(a.reply.seconds))], [a.reply.path],
        !ReachedGoal(cfg, a.reply, goal), Some(a.reply))
    else if a.op == Operation.Rerun then Record([cfg.failSentinel], [None], [], a.reply.killed, None)
    else BLANK.(stuck := a.reply.killed)
  }

  ghost function RecordIn(cfg: Config, goal: Vec, runs: seq<Attempt>): Record {
    if runs == [] then BLANK
    else Join(RecordIn(cfg, goal, runs[..|runs| - 1]), RecordOf(cfg, goal, runs[|runs| - 1]))
  }

  /** The individual holds exactly this record. */
  ghost predicate Tells(v: Vitals, r: Record) {
    && v.distances == r.distances && v.trajectories == r.trajectories && v.stuck == r.stuck && v.testCase == r.testCase
    && |v.flightDurations| == |r.durations|
    && forall i :: 0 <= i < |r.durations| && r.durations[i].Some? ==> v.flightDurations[i] == r.durations[i].value
  }

  lemma StepTells(ctx: Context, op: Operation, boxes: seq<Box>, v: Vitals, r: Record, a: Attempt)
    requires Measured(boxes, v) && Tells(v, r) && a.op == op && a.outcome == OutcomeOf(ctx, op, boxes, a.reply)
    requires LegalLayout(ctx.cfg.bounds, boxes)
    ensures Tells(AttemptStep(ctx, op, boxes, v, a.reply), Join(r, RecordOf(ctx.cfg, ctx.goal, a)))
  {
    hide LegalLayout, IsFlakeRun, OfficialTestScore, SearchTestScore, ReachedGoal;
  }

  /** Whatever a batch does, the record of an individual stays the one its attempts tell. */
  lemma {:induction false} ReplayTells(ctx: Context, op: Operation, boxes: seq<Box>, v: Vitals, runs: seq<Attempt>,
                                       more: seq<Attempt>)
    requires Measured(boxes, v) && Tells(v, RecordIn(ctx.cfg, ctx.goal, runs)) && Answered(ctx, op, boxes, more)
    requires LegalLayout(ctx.cfg.bounds, boxes)
    ensures Tells(Replay(ctx, op, boxes, v, more), RecordIn(ctx.cfg, ctx.goal, runs + more))
  {
    hide LegalLayout, OutcomeOf, AttemptStep, Measured, Tells, RecordOf;
    if more == [] {
      assert runs + more == runs;
    } else {
      var n := |more| - 1;
      ReplayTells(ctx, op, boxes, v, runs, more[..n]);
      assert (runs + more)[..|runs| + n] == runs + more[..n];
      StepTells(ctx, op, boxes, Replay(ctx, op, boxes, v, more[..n]), RecordIn(ctx.cfg, ctx.goal, runs + more[..n]),
        more[n]);
    }
  }

  /** The attempt was measured but did not end at the goal, or it failed and the watchdog had killed it. */
  ghost predicate Sticks(cfg: Config, goal: Vec, a: Attempt) {
    a.outcome == Consumed && if Failed(a.reply) then a.reply.killed else EndsAway(cfg, a.reply, goal)
  }

  lemma SticksMeans(cfg: Config, goal: Vec, a: Attempt)
    ensures RecordOf(cfg, goal, a).stuck <==> Sticks(cfg, goal, a)
  {
    hide ReachedGoal, EndsAway;
    EndMeans(cfg, a.reply, goal);
  }

  /** A layout is stuck exactly if one of its attempts was: it missed the goal, or failed and was killed. */
  lemma {:induction false} StuckMeans(cfg: Config, goal: Vec, runs: seq<Attempt>)
    ensures RecordIn(cfg, goal, runs).stuck <==> exists i :: 0 <= i < |runs| && Sticks(cfg, goal, runs[i])
  {
    hide RecordOf, Sticks;
    if runs != [] {
      var n := |runs| - 1;
      StuckMeans(cfg, goal, runs[..n]);
      SticksMeans(cfg, goal, runs[n]);
      assert forall i :: 0 <= i < n ==> runs[..n][i] == runs[i];
    }
  }

  // ---- the discovery of one layout --------------------------------------------------------------

  /** The attempts of several batches, in order. */
  ghost function Flat(batches: seq<seq<Attempt>>): seq<Attempt> {
    if batches == [] then [] else Flat(batches[..|batches| - 1]) + batches[|batches| - 1]
  }

  ghost function Afterwards(ctx: Context, boxes: seq<Box>, v: Vitals, batches: seq<seq<Attempt>>): (w: Vitals)
    requires Measured(boxes, v)
    ensures Measured(boxes, w)
  {
    if batches == [] then v
    else
      var n := |batches| - 1;
      Replay(ctx, Operation.Evaluate, boxes, Afterwards(ctx, boxes, v, batches[..n]), batches[n])
  }

  /** Batches of evaluations as discovery makes them: only while the layout is free and has attempts left. */
  ghost predicate Discovery(ctx: Context, boxes: seq<Box>, v: Vitals, batches: seq<seq<Attempt>>)
    requires Measured(boxes, v)
  {
    batches == [] ||
    var n := |batches| - 1;
    var w := Afterwards(ctx, boxes, v, batches[..n]);
    && Discovery(ctx, boxes, v, batches[..n]) && !w.valid && !w.illegal && w.attempts < ctx.cfg.maxRunFailures
    && Answered(ctx, Operation.Evaluate, boxes, batches[n]) && Retried(batches[n], ctx.cfg.maxFlakeRetries)
  }

  lemma {:induction false} DiscoveryIsSane(ctx: Context, boxes: seq<Box>, v: Vitals, batches: seq<seq<Attempt>>)
    requires Sane(ctx.cfg, boxes, v, []) && Measured(boxes, v) && Discovery(ctx, boxes, v, batches)
    ensures Sane(ctx.cfg, boxes, Afterwards(ctx, boxes, v, batches), Flat(batches))
  {
    hide Sane, Replay, Answered, Retried, Measured;
    if batches != [] {
      var n := |batches| - 1;
      DiscoveryIsSane(ctx, boxes, v, batches[..n]);
      EvaluatingIsSane(ctx, boxes, Afterwards(ctx, boxes, v, batches[..n]), Flat(batches[..n]), batches[n]);
    }
  }

  ghost function Crash(ind: Individual): Attempt {
    Attempt(Operation.Evaluate, 0, ind, Reply(true, false, [], [], 0.0, 0.0), Consumed)
  }

  ghost function Drift(cfg: Config, ind: Individual): Attempt {
    Attempt(Operation.Evaluate, 0, ind, Stray(cfg), Flake)
  }

  /** Crashes one batch at a time, as many as leave one attempt; then flakes as often as allowed, and one more crash. */
  ghost function WorstCase(cfg: Config, ind: Individual): seq<seq<Attempt>>
    requires cfg.maxRunFailures >= 1
  {
    seq(cfg.maxRunFailures - 1, i => [Crash(ind)]) + [seq(cfg.maxFlakeRetries, i => Drift(cfg, ind)) + [Crash(ind)]]
  }

  lemma {:induction false} OnlyEvaluations(runs: seq<Attempt>)
    requires forall i :: 0 <= i < |runs| ==> runs[i].op == Operation.Evaluate
    ensures EvaluationsIn(runs) == |runs|
  {
    if runs != [] { OnlyEvaluations(runs[..|runs| - 1]); }
  }

  lemma DiscoveryMore(ctx: Context, boxes: seq<Box>, v: Vitals, batches: seq<seq<Attempt>>, more: seq<Attempt>)
    requires Measured(boxes, v) && Discovery(ctx, boxes, v, batches)
    requires var w := Afterwards(ctx, boxes, v, batches); !w.valid && !w.illegal && w.attempts < ctx.cfg.maxRunFailures
    requires Answered(ctx, Operation.Evaluate, boxes, more) && Retried(more, ctx.cfg.maxFlakeRetries)
    ensures Discovery(ctx, boxes, v, batches + [more]) && Flat(batches + [more]) == Flat(batches) + more
    ensures Afterwards(ctx, boxes, v, batches + [more]) ==
            Replay(ctx, Operation.Evaluate, boxes, Afterwards(ctx, boxes, v, batches), more)
  {
    hide Replay, Answered, Retried, Measured;
    assert (batches + [more])[..|batches|] == batches;
  }

  lemma ReplayOne(ctx: Context, op: Operation, boxes: seq<Box>, v: Vitals, a: Attempt)
    requires Measured(boxes, v)
    ensures Replay(ctx, op, boxes, v, [a]) == AttemptStep(ctx, op, boxes, v, a.reply)
  {
    hide AttemptStep;
    assert [a][..0] == [];
  }

  lemma CrashStep(ctx: Context, v: Vitals, ind: Individual)
    requires LegalLayout(ctx.cfg.bounds, ind.obstacles) && Measured(ind.obstacles, v) && !v.illegal
    ensures var w := Replay(ctx, Operation.Evaluate, ind.obstacles, v, [Crash(ind)]);
            !w.valid && !w.illegal && w.attempts == v.attempts + 1
    ensures Answered(ctx, Operation.Evaluate, ind.obstacles, [Crash(ind)])
    ensures Retried([Crash(ind)], ctx.cfg.maxFlakeRetries)
  {
    hide LegalLayout, Replay;
    ReplayOne(ctx, Operation.Evaluate, ind.obstacles, v, Crash(ind));
    assert Closed([Crash(ind)], ctx.cfg.maxFlakeRetries);
  }

  lemma {:induction false} CrashesOnly(ctx: Context, ind: Individual, n: nat)
    requires LegalLayout(ctx.cfg.bounds, ind.obstacles) && |ind.obstacles| > 0 && n <= ctx.cfg.maxRunFailures
    ensures var batches := seq(n, i => [Crash(ind)]);
            var w := Afterwards(ctx, ind.obstacles, NEWBORN, batches);
            && Discovery(ctx, ind.obstacles, NEWBORN, batches) && !w.valid && !w.illegal && w.attempts == n
            && EvaluationsIn(Flat(batches)) == n
  {
    hide LegalLayout, Replay, Answered, Retried, Discovery, Afterwards, Flat, EvaluationsIn;
    if n == 0 {
      NothingYet(ctx, ind.obstacles);
    } else {
      var before := seq(n - 1, i => [Crash(ind)]);
      CrashesOnly(ctx, ind, n - 1);
      assert seq(n, i => [Crash(ind)]) == before + [[Crash(ind)]];
      CrashStep(ctx, Afterwards(ctx, ind.obstacles, NEWBORN, before), ind);
      DiscoveryMore(ctx, ind.obstacles, NEWBORN, before, [Crash(ind)]);
      CountsOfJoin(Flat(before), [Crash(ind)]);
      OnlyEvaluations([Crash(ind)]);
    }
  }

  /** The limit is reached: some replies make a layout take every one of the attempts the limit allows. */
  lemma LimitIsReached(ctx: Context, ind: Individual)
    requires LegalLayout(ctx.cfg.bounds, ind.obstacles) && |ind.obstacles| > 0 && ctx.cfg.maxRunFailures >= 1
    ensures Discovery(ctx, ind.obstacles, NEWBORN, WorstCase(ctx.cfg, ind))
    ensures EvaluationsIn(Flat(WorstCase(ctx.cfg, ind))) == AttemptLimit(ctx.cfg)
  {
    hide LegalLayout, Replay, Discovery, Afterwards, Flat;
    var m := ctx.cfg.maxRunFailures - 1;
    var crashes, last := seq(m, i => [Crash(ind)]),
      seq(ctx.cfg.maxFlakeRetries, i => Drift(ctx.cfg, ind)) + [Crash(ind)];
    CrashesOnly(ctx, ind, m);
    OnlyEvaluations(last);
    assert Closed(last, ctx.cfg.maxFlakeRetries);
    DiscoveryMore(ctx, ind.obstacles, NEWBORN, crashes, last);
    CountsOfJoin(Flat(crashes), last);
  }

  /**
   A legal layout stays within maxRunFailures attempts, whatever the simulator answers, exactly when flakes are not
   retried.
   */
  lemma AttemptsStayWithinFailuresExactly(ctx: Context, ind: Individual)
    requires LegalLayout(ctx.cfg.bounds, ind.obstacles) && |ind.obstacles| > 0 && ctx.cfg.maxRunFailures >= 1
    ensures ctx.cfg.maxFlakeRetries == 0 <==>
            forall batches :: Discovery(ctx, ind.obstacles, NEWBORN, batches) ==>
                EvaluationsIn(Flat(batches)) <= ctx.cfg.maxRunFailures
  {
    hide LegalLayout, Discovery, EvaluationsIn, Flat, WorstCase;
    if ctx.cfg.maxFlakeRetries == 0 {
      forall batches | Discovery(ctx, ind.obstacles, NEWBORN, batches)
        ensures EvaluationsIn(Flat(batches)) <= ctx.cfg.maxRunFailures
      {
        NewbornIsSane(ctx.cfg, ind.obstacles, false);
        DiscoveryIsSane(ctx, ind.obstacles, NEWBORN, batches);
      }
    } else {
      LimitIsReached(ctx, ind);
    }
  }

  /**
   The stuck flag outlives the attempt that set it: a layout killed in its first attempt and then measured, reaching the
   goal, is valid and has a score, but stays stuck, and no suite takes a test that is.
   */
  lemma KilledStaysStuck(ctx: Context, boxes: seq<Box>, killed: Attempt, measured: Attempt, t: Test)
    requires LegalLayout(ctx.cfg.bounds, boxes) && |boxes| > 0 && ctx.cfg.maxRunFailures >= 2
    requires Answered(ctx, Operation.Evaluate, boxes, [killed, measured])
    requires Raises(killed.reply) && killed.reply.killed
    requires !Raises(measured.reply) && ReachedGoal(ctx.cfg, measured.reply, ctx.goal)
    ensures Discovery(ctx, boxes, NEWBORN, [[killed], [measured]])
    ensures var w := Afterwards(ctx, boxes, NEWBORN, [[killed], [measured]]);
            && Coherent(ctx.cfg, boxes, w) && |w.distances| == 1 && w.stuck
            && (t.stuck == w.stuck ==> !Eligible(t))
  {
    hide LegalLayout, OfficialTestScore, SearchTestScore, ReachedGoal, Replay, Discovery, Afterwards;
    assert [killed, measured][0] == killed && [killed, measured][1] == measured;
    assert Closed([killed], ctx.cfg.maxFlakeRetries) && Closed([measured], ctx.cfg.maxFlakeRetries);
    NothingYet(ctx, boxes);
    DiscoveryMore(ctx, boxes, NEWBORN, [], [killed]);
    ReplayOne(ctx, Operation.Evaluate, boxes, NEWBORN, killed);
    assert [] + [[killed]] == [[killed]];
    DiscoveryMore(ctx, boxes, NEWBORN, [[killed]], [measured]);
    ReplayOne(ctx, Operation.Evaluate, boxes, Afterwards(ctx, boxes, NEWBORN, [[killed]]), measured);
    assert [[killed]] + [[measured]] == [[killed], [measured]];
  }

  lemma NothingYet(ctx: Context, boxes: seq<Box>)
    requires |boxes| > 0
    ensures Discovery(ctx, boxes, NEWBORN, []) && Afterwards(ctx, boxes, NEWBORN, []) == NEWBORN
    ensures EvaluationsIn(Flat([])) == 0
  {}
}
