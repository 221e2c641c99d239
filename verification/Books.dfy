/**
 The books of a campaign as values: population, roll of evaluated layouts, log, and what every step keeps
 (generator.py).
 */
module Books {
  import opened Boxes
  import opened Scoring
  import opened Suite
  import opened Sorting
  import opened Individuals
  import opened Attempts
  import opened Scheduler
  import opened Ledger
  import opened Breeding
  import opened Histories

  /** What stays fixed during a campaign. */
  datatype Plan = Plan(cfg: Config, world: World, counts: seq<nat>)

  /** The population, the evaluated layouts, every attempt so far, and the state of every individual ever made. */
  datatype Books = Books(pop: seq<Individual>, evaluated: seq<Individual>, log: seq<Attempt>,
                         lives: map<Individual, Vitals>)

  ghost predicate Workable(plan: Plan) {
    && Usable(plan.cfg) && Sound(plan.world) && |plan.counts| == plan.cfg.popSize
    && forall k :: 0 <= k < |plan.counts| ==> plan.counts[k] == 1 || plan.counts[k] == 2
  }

  /** One slot per entry of the schedule, holding exactly that many obstacles. */
  ghost predicate Shape(plan: Plan, b: Books) {
    && |b.pop| == |plan.counts| && Distinct(b.pop)
    && forall k :: 0 <= k < |b.pop| ==> b.pop[k] in b.lives && |b.pop[k].obstacles| == plan.counts[k]
  }

  ghost predicate IsSane(plan: Plan, b: Books, x: Individual)
    requires x in b.lives
  {
    Made(plan.world, x.genes, x.obstacles) && Sane(plan.cfg, x.obstacles, b.lives[x], Of(b.log, x))
  }

  ghost predicate AllSane(plan: Plan, b: Books) { forall x :: x in b.lives ==> IsSane(plan, b, x) }

  /**
   The roll of evaluated layouts: everyone valid is on it once and nobody else, except those waiting to be entered.
   */
  ghost predicate Roll(b: Books, waiting: seq<Individual>) {
    && Distinct(b.evaluated)
    && (forall i :: 0 <= i < |b.evaluated| ==> b.evaluated[i] in b.lives && b.lives[b.evaluated[i]].valid)
    && forall x :: x in b.lives && b.lives[x].valid ==> x in b.evaluated || x in waiting
  }

  ghost predicate Free(b: Books, x: Individual)
    requires x in b.lives
  {
    !b.lives[x].valid && !b.lives[x].illegal
  }

  /** A slot that is still to be flown has attempts left, except those waiting to be reseeded. */
  ghost predicate Patient(plan: Plan, b: Books, waiting: seq<Individual>)
    requires Shape(plan, b)
  {
    forall k :: 0 <= k < |b.pop| && Free(b, b.pop[k]) ==>
        b.lives[b.pop[k]].attempts < plan.cfg.maxRunFailures || b.pop[k] in waiting
  }

  /** Only legal layouts ever reach the simulator. */
  ghost predicate LegalLog(plan: Plan, b: Books) {
    forall k :: 0 <= k < |b.log| ==>
      b.log[k].ind in b.lives && b.log[k].outcome != Skipped && LegalLayout(plan.cfg.bounds, b.log[k].ind.obstacles)
  }

  /**
   Every individual holds the record its attempts tell: distances, durations, paths, stuck flag and last test case.
   */
  ghost predicate Told(plan: Plan, b: Books) {
    forall x :: x in b.lives ==> Tells(b.lives[x], RecordIn(plan.cfg, plan.world.goal, Of(b.log, x)))
  }

  ghost predicate KeptBut(plan: Plan, b: Books, waiting: seq<Individual>) {
    && Workable(plan) && Shape(plan, b) && AllSane(plan, b) && Told(plan, b) && Roll(b, waiting)
    && Patient(plan, b, waiting)
    && LegalLog(plan, b)
  }

  /** Holds before and after every step of a campaign. */
  ghost predicate Kept(plan: Plan, b: Books) { KeptBut(plan, b, []) }

  // ---- batches as seen from one individual ------------------------------------------------------

  /** Whatever a batch did to an individual is what its own attempts say, in order. */
  lemma BatchOf(ctx: Context, op: Operation, jobs: seq<Individual>, log: seq<Attempt>, trace: seq<Attempt>,
                x: Individual)
    requires forall k :: 0 <= k < |trace| ==> Faithful(ctx, op, jobs, trace[k])
    ensures Of(log + trace, x) == Of(log, x) + Of(trace, x)
    ensures Answered(ctx, op, x.obstacles, Of(trace, x))
    ensures x !in jobs ==> Of(trace, x) == [] && Of(log + trace, x) == Of(log, x)
  {
    hide Of, OutcomeOf;
    OfJoin(log, trace, x);
    OfMembers(trace, x);
    var runs := Of(trace, x);
    forall i | 0 <= i < |runs|
      ensures runs[i].op == op && runs[i].outcome == OutcomeOf(ctx, op, x.obstacles, runs[i].reply)
    {
      assert Of(trace, x)[i].ind == x;
      var k :| 0 <= k < |trace| && trace[k] == runs[i];
      assert Faithful(ctx, op, jobs, trace[k]);
    }
    if x !in jobs { OfStranger(trace, x); }
  }

  /** Legal layouts are never skipped. */
  lemma LegalIsFlown(ctx: Context, op: Operation, jobs: seq<Individual>, a: Attempt)
    requires Faithful(ctx, op, jobs, a)
    requires forall j :: 0 <= j < |jobs| ==> LegalLayout(ctx.cfg.bounds, jobs[j].obstacles)
    ensures a.outcome != Skipped && LegalLayout(ctx.cfg.bounds, a.ind.obstacles) && a.ind in jobs
  {}

  lemma SaneIsLegal(cfg: Config, boxes: seq<Box>, v: Vitals, runs: seq<Attempt>)
    requires Sane(cfg, boxes, v, runs) && !v.illegal
    ensures LegalLayout(cfg.bounds, boxes)
  {}

  /** The batch runs with the campaign's configuration and goal. */
  ghost predicate Under(plan: Plan, ctx: Context) { ctx.cfg == plan.cfg && ctx.goal == plan.world.goal }

  lemma BatchIsTold(plan: Plan, ctx: Context, op: Operation, jobs: seq<Individual>, trace: seq<Attempt>, b: Books,
                    c: Books)
    requires Told(plan, b) && Under(plan, ctx) && BatchDone(ctx, op, jobs, trace, b, c)
    requires forall j :: 0 <= j < |jobs| ==> LegalLayout(plan.cfg.bounds, jobs[j].obstacles)
    ensures Told(plan, c)
  {
    hide LegalLayout, Of, Measured, Replay, Faithful, Answered, Tells, RecordIn;
    forall x | x in c.lives ensures Tells(c.lives[x], RecordIn(plan.cfg, plan.world.goal, Of(c.log, x))) {
      BatchOf(ctx, op, jobs, b.log, trace, x);
      if j :| 0 <= j < |jobs| && jobs[j] == x {
        ReplayTells(ctx, op, x.obstacles, b.lives[x], Of(b.log, x), Of(trace, x));
      }
    }
  }

  lemma SameIsTold(plan: Plan, b: Books, c: Books, x: Individual)
    requires Told(plan, b) && x in b.lives && c.log == b.log && x in c.lives && c.lives == b.lives[x := c.lives[x]]
    requires var v, w := b.lives[x], c.lives[x];
             && w.distances == v.distances && w.flightDurations == v.flightDurations && w.trajectories == v.trajectories
             && w.stuck == v.stuck && w.testCase == v.testCase
    ensures Told(plan, c)
  {
    hide RecordIn, Of;
  }

  /** The books after a batch: the log grows by its attempts, and each of its individuals is where its attempts lead. */
  ghost predicate BatchDone(ctx: Context, op: Operation, jobs: seq<Individual>, trace: seq<Attempt>, b: Books,
                            c: Books) {
    && (forall k :: 0 <= k < |trace| ==> Faithful(ctx, op, jobs, trace[k]))
    && (forall j :: 0 <= j < |jobs| ==> jobs[j] in b.lives && Measured(jobs[j].obstacles, b.lives[jobs[j]]))
    && c.lives.Keys == b.lives.Keys && c == b.(log := b.log + trace, lives := c.lives)
    && (forall j :: 0 <= j < |jobs| ==>
          c.lives[jobs[j]] == Replay(ctx, op, jobs[j].obstacles, b.lives[jobs[j]], Of(trace, jobs[j])))
    && forall x :: x in b.lives && x !in jobs ==> c.lives[x] == b.lives[x]
  }

  // ---- first evaluations ------------------------------------------------------------------------

  ghost predicate FreeMembers(b: Books, xs: seq<Individual>) {
    Distinct(xs) && forall i :: 0 <= i < |xs| ==> xs[i] in b.pop && xs[i] in b.lives && Free(b, xs[i])
  }

  lemma FreeMember(plan: Plan, b: Books, x: Individual)
    requires Kept(plan, b) && x in b.pop && x in b.lives && Free(b, x)
    ensures b.lives[x].attempts < plan.cfg.maxRunFailures && Measured(x.obstacles, b.lives[x])
    ensures LegalLayout(plan.cfg.bounds, x.obstacles)
  {}

  lemma EvaluatedOne(plan: Plan, ctx: Context, jobs: seq<Individual>, trace: seq<Attempt>, b: Books, c: Books, j: nat)
    requires Kept(plan, b) && FreeMembers(b, jobs) && Under(plan, ctx)
    requires BatchDone(ctx, Operation.Evaluate, jobs, trace, b, c)
    requires j < |jobs| && Retried(Runs(trace, j), plan.cfg.maxFlakeRetries)
    ensures jobs[j] in c.lives && IsSane(plan, c, jobs[j]) && !c.lives[jobs[j]].illegal
  {
    hide LegalLayout, Made, Sound, Usable, Sane, Of, Measured, Replay, Faithful, Retried, Runs, Answered;
    var x := jobs[j];
    FreeMember(plan, b, x);
    assert IsSane(plan, b, x);
    forall k | 0 <= k < |trace|
      ensures trace[k].job < |jobs| && trace[k].ind == jobs[trace[k].job]
    {
      FaithfulIsOwn(ctx, Operation.Evaluate, jobs, trace[k]);
    }
    RunsAreOf(jobs, trace, j);
    BatchOf(ctx, Operation.Evaluate, jobs, b.log, trace, x);
    EvaluatingIsSane(ctx, x.obstacles, b.lives[x], Of(b.log, x), Of(trace, x));
  }

  lemma FaithfulIsOwn(ctx: Context, op: Operation, jobs: seq<Individual>, a: Attempt)
    requires Faithful(ctx, op, jobs, a)
    ensures a.job < |jobs| && a.ind == jobs[a.job]
  {}

  lemma FlightIsSane(plan: Plan, ctx: Context, jobs: seq<Individual>, trace: seq<Attempt>, b: Books, c: Books)
    requires Kept(plan, b) && FreeMembers(b, jobs) && Under(plan, ctx)
    requires BatchDone(ctx, Operation.Evaluate, jobs, trace, b, c)
    requires forall j :: 0 <= j < |jobs| ==> Retried(Runs(trace, j), plan.cfg.maxFlakeRetries)
    ensures AllSane(plan, c)
    ensures forall j :: 0 <= j < |jobs| ==> !c.lives[jobs[j]].illegal && LegalLayout(plan.cfg.bounds, jobs[j].obstacles)
  {
    hide LegalLayout, Workable, IsSane, Of, Replay, Faithful, Retried, Runs, Measured, Patient, Roll, LegalLog, Shape,
         Told;
    forall j | 0 <= j < |jobs|
      ensures IsSane(plan, c, jobs[j]) && !c.lives[jobs[j]].illegal && LegalLayout(plan.cfg.bounds, jobs[j].obstacles)
    {
      FreeMember(plan, b, jobs[j]);
      EvaluatedOne(plan, ctx, jobs, trace, b, c, j);
    }
    forall x | x in c.lives ensures IsSane(plan, c, x) {
      if x !in jobs { StrangerIsSane(plan, ctx, Operation.Evaluate, jobs, trace, b, c, x); }
    }
  }

  /** After first evaluations everything holds, except that the flown layouts wait to be entered or reseeded. */
  lemma FlightKeeps(plan: Plan, ctx: Context, jobs: seq<Individual>, trace: seq<Attempt>, b: Books, c: Books)
    requires Kept(plan, b) && FreeMembers(b, jobs) && Under(plan, ctx)
    requires BatchDone(ctx, Operation.Evaluate, jobs, trace, b, c)
    requires forall j :: 0 <= j < |jobs| ==> Retried(Runs(trace, j), plan.cfg.maxFlakeRetries)
    ensures KeptBut(plan, c, jobs) && (forall j :: 0 <= j < |jobs| ==> !c.lives[jobs[j]].illegal)
    ensures Launched(trace) == |trace|
    ensures forall k :: 0 <= k < |trace| ==> trace[k].ind in jobs
  {
    hide LegalLayout, Workable, AllSane, Told, Of, Replay, Faithful, Retried, Runs, Launched, Measured, LegalLog,
         Distinct;
    FlightIsSane(plan, ctx, jobs, trace, b, c);
    BatchIsTold(plan, ctx, Operation.Evaluate, jobs, trace, b, c);
    SkipsNobody(plan, ctx, Operation.Evaluate, jobs, trace, b, c);
  }

  lemma StrangerIsSane(plan: Plan, ctx: Context, op: Operation, jobs: seq<Individual>, trace: seq<Attempt>, b: Books,
                       c: Books, x: Individual)
    requires Kept(plan, b) && BatchDone(ctx, op, jobs, trace, b, c) && x in c.lives && x !in jobs
    ensures IsSane(plan, c, x)
  {
    hide LegalLayout, Made, Sound, Usable, Sane, Of, Measured, Replay, Faithful;
    assert IsSane(plan, b, x);
    BatchOf(ctx, op, jobs, b.log, trace, x);
  }

  lemma SkipsNobody(plan: Plan, ctx: Context, op: Operation, jobs: seq<Individual>, trace: seq<Attempt>, b: Books,
                    c: Books)
    requires Kept(plan, b) && Under(plan, ctx) && BatchDone(ctx, op, jobs, trace, b, c)
    requires forall j :: 0 <= j < |jobs| ==> LegalLayout(plan.cfg.bounds, jobs[j].obstacles)
    ensures LegalLog(plan, c) && Launched(trace) == |trace| && forall k :: 0 <= k < |trace| ==> trace[k].ind in jobs
  {
    hide LegalLayout, Made, Sound, Usable, Sane, Of, Measured, Replay, Faithful, Launched;
    forall k | 0 <= k < |trace|
      ensures trace[k].outcome != Skipped && LegalLayout(plan.cfg.bounds, trace[k].ind.obstacles)
      ensures trace[k].ind in jobs
    {
      LegalIsFlown(ctx, op, jobs, trace[k]);
    }
    AllLaunched(trace);
  }

  // ---- reruns and rescoring ---------------------------------------------------------------------

  ghost predicate IsStale(plan: Plan, b: Books, x: Individual)
    requires x in b.lives
  {
    Made(plan.world, x.genes, x.obstacles) && Stale(plan.cfg, x.obstacles, b.lives[x], Of(b.log, x))
  }

  ghost predicate SaneBut(plan: Plan, b: Books, todo: seq<Individual>) {
    forall x :: x in b.lives ==> IsSane(plan, b, x) || (x in todo && IsStale(plan, b, x))
  }

  /** Everything holds, except that the scores of the layouts still to be rescored may be out of date. */
  ghost predicate NearlyKept(plan: Plan, b: Books, todo: seq<Individual>) {
    && Workable(plan) && Shape(plan, b) && SaneBut(plan, b, todo) && Told(plan, b) && Roll(b, [])
    && Patient(plan, b, [])
    && LegalLog(plan, b)
  }

  lemma NearlyKeptIsKept(plan: Plan, b: Books)
    ensures NearlyKept(plan, b, []) <==> Kept(plan, b)
  {}

  lemma RerunOne(plan: Plan, ctx: Context, jobs: seq<Individual>, trace: seq<Attempt>, b: Books, c: Books, j: nat)
    requires AllSane(plan, b) && Under(plan, ctx) && BatchDone(ctx, Operation.Rerun, jobs, trace, b, c)
    requires j < |jobs| && b.lives[jobs[j]].valid
    ensures jobs[j] in c.lives && IsStale(plan, c, jobs[j]) && c.lives[jobs[j]].valid && !c.lives[jobs[j]].illegal
    ensures LegalLayout(plan.cfg.bounds, jobs[j].obstacles) && !b.lives[jobs[j]].illegal
  {
    hide LegalLayout, Made, Sane, Of, Measured, Replay, Faithful, Answered;
    var x := jobs[j];
    assert IsSane(plan, b, x);
    SaneIsMeasured(plan.cfg, x.obstacles, b.lives[x], Of(b.log, x));
    SaneIsLegal(plan.cfg, x.obstacles, b.lives[x], Of(b.log, x));
    BatchOf(ctx, Operation.Rerun, jobs, b.log, trace, x);
    RerunningIsStale(ctx, x.obstacles, b.lives[x], Of(b.log, x), Of(trace, x));
    StaleIsValid(plan.cfg, x.obstacles, c.lives[x], Of(c.log, x));
  }

  lemma StaleIsValid(cfg: Config, boxes: seq<Box>, v: Vitals, runs: seq<Attempt>)
    requires Stale(cfg, boxes, v, runs)
    ensures v.valid && !v.illegal && v.distances != [] && Measured(boxes, v)
  {}

  lemma RerunIsStale(plan: Plan, ctx: Context, jobs: seq<Individual>, trace: seq<Attempt>, b: Books, c: Books)
    requires Kept(plan, b) && Under(plan, ctx) && BatchDone(ctx, Operation.Rerun, jobs, trace, b, c)
    requires forall j :: 0 <= j < |jobs| ==> jobs[j] in b.evaluated
    ensures SaneBut(plan, c, jobs)
    ensures forall j :: 0 <= j < |jobs| ==>
              && LegalLayout(plan.cfg.bounds, jobs[j].obstacles) && b.lives[jobs[j]].valid && !b.lives[jobs[j]].illegal
              && c.lives[jobs[j]].valid && !c.lives[jobs[j]].illegal
  {
    hide LegalLayout, Workable, IsSane, IsStale, Of, Replay, Faithful, Measured, Patient, LegalLog, Shape, Distinct,
         Told;
    forall j | 0 <= j < |jobs|
      ensures b.lives[jobs[j]].valid && !b.lives[jobs[j]].illegal && LegalLayout(plan.cfg.bounds, jobs[j].obstacles)
      ensures IsStale(plan, c, jobs[j]) && c.lives[jobs[j]].valid && !c.lives[jobs[j]].illegal
    {
      var i :| 0 <= i < |b.evaluated| && b.evaluated[i] == jobs[j];
      RerunOne(plan, ctx, jobs, trace, b, c, j);
    }
    forall x | x in c.lives ensures IsSane(plan, c, x) || (x in jobs && IsStale(plan, c, x)) {
      if x !in jobs { StrangerIsSane(plan, ctx, Operation.Rerun, jobs, trace, b, c, x); }
    }
  }

  /** Validity and legality of every individual are as before. */
  ghost predicate SameStanding(b: Books, c: Books) {
    && c.lives.Keys == b.lives.Keys
    && forall x :: x in b.lives ==>
         c.lives[x].valid == b.lives[x].valid && c.lives[x].illegal == b.lives[x].illegal
  }

  /** After reruns of evaluated layouts everything holds, except that their scores may be out of date. */
  lemma RerunKeeps(plan: Plan, ctx: Context, jobs: seq<Individual>, trace: seq<Attempt>, b: Books, c: Books)
    requires Kept(plan, b) && Under(plan, ctx) && BatchDone(ctx, Operation.Rerun, jobs, trace, b, c)
    requires forall j :: 0 <= j < |jobs| ==> jobs[j] in b.evaluated
    ensures NearlyKept(plan, c, jobs) && SameStanding(b, c) && Launched(trace) == |trace|
  {
    hide LegalLayout, Workable, AllSane, SaneBut, Told, Of, Replay, Faithful, Launched, Measured, LegalLog, Distinct;
    RerunIsStale(plan, ctx, jobs, trace, b, c);
    BatchIsTold(plan, ctx, Operation.Rerun, jobs, trace, b, c);
    SkipsNobody(plan, ctx, Operation.Rerun, jobs, trace, b, c);
  }

  lemma MoreToDo(plan: Plan, b: Books, todo: seq<Individual>, more: seq<Individual>)
    requires NearlyKept(plan, b, todo) && forall j :: 0 <= j < |todo| ==> todo[j] in more
    ensures NearlyKept(plan, b, more)
  {}

  lemma TodoIsStale(plan: Plan, b: Books, todo: seq<Individual>, x: Individual)
    requires NearlyKept(plan, b, todo) && x in b.evaluated && x in b.lives
    ensures IsStale(plan, b, x) && Measured(x.obstacles, b.lives[x])
  {}

  /** Rescoring settles one layout for good, whether or not its scores were out of date. */
  lemma RescoreKeeps(plan: Plan, b: Books, c: Books, x: Individual, rest: seq<Individual>)
    requires NearlyKept(plan, b, [x] + rest) && x in b.evaluated && x in b.lives && Measured(x.obstacles, b.lives[x])
    requires c == b.(lives := b.lives[x := Rescored(plan.cfg, x.obstacles, b.lives[x])])
    ensures NearlyKept(plan, c, rest) && SameStanding(b, c)
  {
    hide LegalLayout, Workable, LegalLog, Sane, Of, Measured, Distinct, Stale, Made, OfficialTestScore, SearchTestScore,
         Told;
    TodoIsStale(plan, b, [x] + rest, x);
    RescoringIsSane(plan.cfg, x.obstacles, b.lives[x], Of(b.log, x));
    assert IsSane(plan, c, x);
    forall y | y in c.lives ensures IsSane(plan, c, y) || (y in rest && IsStale(plan, c, y)) {
      if y != x { assert IsSane(plan, b, y) || (y in [x] + rest && IsStale(plan, b, y)); }
    }
    LogUntouched(plan, b, c);
    SameIsTold(plan, b, c, x);
  }

  lemma LogUntouched(plan: Plan, b: Books, c: Books)
    requires LegalLog(plan, b) && c.log == b.log && b.lives.Keys <= c.lives.Keys
    ensures LegalLog(plan, c)
  {}

  /** A layout with one run only needs no rescoring. */
  lemma OneRunKeeps(plan: Plan, b: Books, x: Individual, rest: seq<Individual>)
    requires NearlyKept(plan, b, [x] + rest) && x in b.evaluated && x in b.lives && |b.lives[x].distances| <= 1
    ensures NearlyKept(plan, b, rest)
  {
    hide LegalLayout, Workable, LegalLog, Sane, Of, Measured, Distinct, Stale, Made, Shape, Roll, Patient, Told;
    TodoIsStale(plan, b, [x] + rest, x);
    StaleIsSane(plan.cfg, x.obstacles, b.lives[x], Of(b.log, x));
    forall y | y in b.lives ensures IsSane(plan, b, y) || (y in rest && IsStale(plan, b, y)) {
      if y != x { assert IsSane(plan, b, y) || (y in [x] + rest && IsStale(plan, b, y)); }
    }
  }

  // ---- entering, reseeding and breeding ---------------------------------------------------------

  ghost predicate NewbornLife(plan: Plan, x: Individual, v: Vitals) {
    && Made(plan.world, x.genes, x.obstacles) && v == NEWBORN.(illegal := v.illegal) && |x.obstacles| > 0
    && (v.illegal <==> !LegalLayout(plan.cfg.bounds, x.obstacles))
  }

  /** Newborn individuals were added; nobody else changed. */
  ghost predicate Grown(plan: Plan, b: Books, c: Books) {
    && c.log == b.log && c.evaluated == b.evaluated && b.lives.Keys <= c.lives.Keys
    && forall x :: x in c.lives ==> if x in b.lives then c.lives[x] == b.lives[x] else NewbornLife(plan, x, c.lives[x])
  }

  lemma GrownIsSane(plan: Plan, b: Books, c: Books)
    requires AllSane(plan, b) && LegalLog(plan, b) && Grown(plan, b, c)
    ensures AllSane(plan, c) && LegalLog(plan, c)
  {
    hide LegalLayout, Made, Sane, Of;
    LogUntouched(plan, b, c);
    forall x | x in c.lives ensures IsSane(plan, c, x) {
      if x in b.lives {
        assert IsSane(plan, b, x);
      } else {
        OfStranger(b.log, x);
        NewbornIsSane(plan.cfg, x.obstacles, c.lives[x].illegal);
      }
    }
  }

  lemma GrownIsTold(plan: Plan, b: Books, c: Books)
    requires Told(plan, b) && LegalLog(plan, b) && Grown(plan, b, c)
    ensures Told(plan, c)
  {
    hide LegalLayout, Of, Made;
    forall x | x in c.lives && x !in b.lives ensures Of(c.log, x) == [] { OfStranger(b.log, x); }
  }

  /** A flown candidate that became valid goes on the roll. */
  lemma EnterKeeps(plan: Plan, b: Books, c: Books, x: Individual, rest: seq<Individual>, generation: nat)
    requires KeptBut(plan, b, [x] + rest) && x in b.lives && b.lives[x].valid && x !in b.evaluated
    requires c == b.(evaluated := b.evaluated + [x], lives := b.lives[x := b.lives[x].(generation := generation)])
    ensures KeptBut(plan, c, rest)
  {
    hide LegalLayout, Workable, LegalLog, Sane, Of, Made, Told;
    assert IsSane(plan, b, x);
    EnteringIsSane(plan.cfg, x.obstacles, b.lives[x], Of(b.log, x), generation);
    forall y | y in c.lives ensures IsSane(plan, c, y) { assert IsSane(plan, b, y); }
    LogUntouched(plan, b, c);
    SameIsTold(plan, b, c, x);
  }

  /** A candidate that failed too often gives its slot to a newborn of the same niche. */
  lemma ReseedKeeps(plan: Plan, b: Books, c: Books, slot: nat, rest: seq<Individual>, y: Individual)
    requires slot < |b.pop| && KeptBut(plan, b, [b.pop[slot]] + rest) && b.pop[slot] in b.lives
    requires !b.lives[b.pop[slot]].valid
    requires y !in b.lives && y in c.lives && NewbornLife(plan, y, c.lives[y])
    requires |y.obstacles| == |b.pop[slot].obstacles|
    requires c == b.(pop := b.pop[slot := y], lives := b.lives[y := c.lives[y]])
    ensures KeptBut(plan, c, rest)
  {
    hide LegalLayout, Sound, LegalLog, AllSane, Made, Told;
    GrownIsSane(plan, b, c);
    GrownIsTold(plan, b, c);
    forall x | x in c.lives && c.lives[x].valid ensures x in c.evaluated || x in rest {
      assert x in b.evaluated || x in [b.pop[slot]] + rest;
    }
  }

  /** A candidate that may be tried again, or that is already on the roll, no longer waits. */
  lemma RetryKeeps(plan: Plan, b: Books, x: Individual, rest: seq<Individual>)
    requires KeptBut(plan, b, [x] + rest) && x in b.lives
    requires if b.lives[x].valid then x in b.evaluated
             else b.lives[x].illegal || b.lives[x].attempts < plan.cfg.maxRunFailures
    ensures KeptBut(plan, b, rest)
  {
    hide LegalLayout, Workable, LegalLog, AllSane, Distinct, Told;
    forall y | y in b.lives && b.lives[y].valid ensures y in b.evaluated || y in rest {
      assert y in b.evaluated || y in [x] + rest;
    }
  }

  /** A new generation: old members that are not free any more, and newborns, in the slots of the schedule. */
  lemma BreedKeeps(plan: Plan, b: Books, c: Books)
    requires Kept(plan, b) && Grown(plan, b, c) && |c.pop| == |plan.counts| && Distinct(c.pop)
    requires forall k :: 0 <= k < |b.pop| ==> !Free(b, b.pop[k])
    requires forall k :: 0 <= k < |c.pop| ==>
               c.pop[k] in c.lives && |c.pop[k].obstacles| == plan.counts[k]
                 && (c.pop[k] in b.pop || c.pop[k] !in b.lives)
    ensures Kept(plan, c)
  {
    hide LegalLayout, Sound, LegalLog, AllSane, Distinct, Made, Told;
    GrownIsSane(plan, b, c);
    GrownIsTold(plan, b, c);
  }

  /** The books of a campaign that has only seeded its population. */
  lemma StartKeeps(plan: Plan, b: Books)
    requires Workable(plan) && b.evaluated == [] && b.log == [] && |b.pop| == |plan.counts| && Distinct(b.pop)
    requires forall x :: x in b.lives <==> x in b.pop
    requires forall k :: 0 <= k < |b.pop| ==>
              |b.pop[k].obstacles| == plan.counts[k] && NewbornLife(plan, b.pop[k], b.lives[b.pop[k]])
    ensures Kept(plan, b)
  {
    hide LegalLayout, Sound, Made, Sane;
    forall x | x in b.lives ensures IsSane(plan, b, x) {
      var k :| 0 <= k < |b.pop| && b.pop[k] == x;
      NewbornIsSane(plan.cfg, x.obstacles, b.lives[x].illegal);
    }
  }

  // ---- what the books say -----------------------------------------------------------------------

  /** The distances recorded over the listed individuals. */
  ghost function DistancesOver(b: Books, inds: seq<Individual>): nat
    requires forall i :: 0 <= i < |inds| ==> inds[i] in b.lives
  {
    if inds == [] then 0 else DistancesOver(b, inds[..|inds| - 1]) + |b.lives[inds[|inds| - 1]].distances|
  }

  lemma {:induction false} DistancesAreRecorded(plan: Plan, b: Books, inds: seq<Individual>)
    requires AllSane(plan, b) && forall i :: 0 <= i < |inds| ==> inds[i] in b.lives
    ensures DistancesOver(b, inds) == RecordedOn(b.log, inds)
  {
    hide LegalLayout, Made, Of, Coherent, Unflown, RecordedIn, EvaluationsIn;
    if inds != [] {
      DistancesAreRecorded(plan, b, inds[..|inds| - 1]);
      assert IsSane(plan, b, inds[|inds| - 1]);
    }
  }

  /** Whoever had a run recorded is on the roll. */
  lemma RecordedIsOnRoll(plan: Plan, b: Books, k: nat)
    requires Kept(plan, b) && k < |b.log| && Recorded(b.log[k])
    ensures b.log[k].ind in b.evaluated
  {
    hide LegalLayout, Made, Of, RecordedIn, EvaluationsIn, Distinct, Workable, Patient, Shape, Coherent;
    var x := b.log[k].ind;
    assert IsSane(plan, b, x);
    RecordedOfOne(b.log, k);
  }

  lemma {:induction false} RecordedOfOne(log: seq<Attempt>, k: nat)
    requires k < |log| && Recorded(log[k])
    ensures RecordedIn(Of(log, log[k].ind)) > 0
  {
    var n := |log| - 1;
    assert log == log[..n] + [log[n]];
    RecordedOfMore(log[..n], log[n], log[k].ind);
    if k < n { RecordedOfOne(log[..n], k); }
  }

  /**
   Conservation: every attempt of the campaign is a distance recorded on an evaluated layout, a flake, or a failed first
   evaluation.
   */
  lemma LedgerBalances(plan: Plan, b: Books)
    requires Kept(plan, b)
    ensures (forall i :: 0 <= i < |b.evaluated| ==> b.evaluated[i] in b.lives)
         && |b.log| == DistancesOver(b, b.evaluated) + FlakesIn(b.log) + FailedIn(b.log)
  {
    hide LegalLayout, Launched, IsSane, RecordedIn, RecordedOn, FlakesIn, FailedIn, Recorded, DistancesOver, Workable,
         Patient, Shape;
    AllLaunched(b.log);
    AttemptsAddUp(b.log);
    DistancesAreRecorded(plan, b, b.evaluated);
    forall k | 0 <= k < |b.log| && Recorded(b.log[k])
      ensures b.log[k].ind in b.evaluated
    {
      RecordedIsOnRoll(plan, b, k);
    }
    RecordedSomewhere(b.log, b.evaluated);
  }

  /** No layout, flown or given up, takes more evaluations than the limit. */
  lemma EvaluationsAreLimited(plan: Plan, b: Books, k: nat)
    requires Kept(plan, b) && k < |b.log|
    ensures EvaluationsIn(Of(b.log, b.log[k].ind)) <= AttemptLimit(plan.cfg)
  {}

  /** The scores of every evaluated layout are those of all its runs, with a positive duration for each distance. */
  lemma ScoresAgree(plan: Plan, b: Books, x: Individual)
    requires Kept(plan, b) && x in b.evaluated
    ensures x in b.lives
    ensures var v := b.lives[x];
            && v.distances != [] && |v.flightDurations| == |v.distances| == RecordedIn(Of(b.log, x))
            && (forall i :: 0 <= i < |v.flightDurations| ==> v.flightDurations[i] > 0.0) && |x.obstacles| > 0
            && v.officialScore == OfficialTestScore(v.distances, |x.obstacles|, v.flightDurations)
            && v.fitness == Finite(-SearchTestScore(v.distances, |x.obstacles|, v.flightDurations, plan.cfg.shapeGain,
                                                    plan.cfg.decay, v.stuck, plan.cfg.incompleteFactor))
            && v.testCase.Some? && LegalLayout(plan.cfg.bounds, x.obstacles)
    ensures Tells(b.lives[x], RecordIn(plan.cfg, plan.world.goal, Of(b.log, x)))
    ensures var v := b.lives[x]; FollowsFormula(v.officialScore, v.distances, |x.obstacles|, v.flightDurations)
  {
    hide LegalLayout, Made, Of, RecordedIn, EvaluationsIn, Distinct, Workable, Patient, Shape, OfficialTestScore,
         SearchTestScore, FollowsFormula;
    var i :| 0 <= i < |b.evaluated| && b.evaluated[i] == x;
    assert IsSane(plan, b, x);
    OfficialFormula(b.lives[x].distances, |x.obstacles|, b.lives[x].flightDurations);
  }

  /** A layout that is not stuck reached the goal in every measured flight and was never killed by the watchdog. */
  lemma UnstuckReachedGoal(plan: Plan, b: Books, k: nat)
    requires Kept(plan, b) && k < |b.log| && b.log[k].ind in b.lives && !b.lives[b.log[k].ind].stuck
    requires b.log[k].outcome == Consumed
    ensures if Failed(b.log[k].reply) then !b.log[k].reply.killed
            else !EndsAway(plan.cfg, b.log[k].reply, plan.world.goal)
  {
    hide LegalLayout, AllSane, Of, Workable, Patient, Shape, Roll, RecordIn, LegalLog, EndsAway;
    var runs := Of(b.log, b.log[k].ind);
    StuckMeans(plan.cfg, plan.world.goal, runs);
    var i := OwnAttempt(b.log, k);
    assert !Sticks(plan.cfg, plan.world.goal, runs[i]);
  }

  lemma {:induction false} OwnAttempt(log: seq<Attempt>, k: nat) returns (i: nat)
    requires k < |log|
    ensures i < |Of(log, log[k].ind)| && Of(log, log[k].ind)[i] == log[k]
  {
    var n := |log| - 1;
    if k == n { i := |Of(log[..n], log[k].ind)|; } else { i := OwnAttempt(log[..n], k); }
  }
}
