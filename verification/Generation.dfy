/**
 The two-phase generator (generator.py): discover layouts, rerun the promising ones, return what is left to discovery.
 */
module Generation {
  import opened Plane
  import opened Mission
  import opened Scoring
  import opened Suite
  import opened Relaxing
  import opened Sorting
  import opened Schedule
  import opened Individuals
  import opened Scheduler
  import opened BatchLaws
  import opened Ledger
  import opened Tournaments
  import opened Breeding
  import opened Refinement
  import opened Layouts
  import opened Flights
  import opened Histories
  import opened Books
  import opened Motifs
  import opened Campaign

  // ---- the budget split -------------------------------------------------------------------------

  /** The whole number nearest to the square root of b. */
  function NearestRoot(b: nat): (r: nat)
    ensures r * r - r <= b <= r * r + r && (b > 0 ==> r * r - r < b)
  {
    if b == 0 then 0
    else
      var r := NearestRoot(b - 1);
      if b <= r * r + r then r else r + 1
  }

  /** A number as int() truncates it. */
  function Truncated(r: real): int { if r >= 0.0 then r.Floor else -((-r).Floor) }

  /** Parallel workers need isolation, and a budget below the population size shrinks the population. */
  function Effective(cfg: Config, budget: nat, isolated: bool): Config {
    var workers := if cfg.parallelWorkers > 1 && !isolated then 1 else cfg.parallelWorkers;
    var root := NearestRoot(budget);
    var popSize := if budget < cfg.popSize then (if root >= 2 then root else 2) else cfg.popSize;
    cfg.(parallelWorkers := workers, popSize := popSize)
  }

  /** Workers and population size are all that changes, and the population becomes the nearest root, at least two. */
  lemma EffectiveMeans(cfg: Config, budget: nat, isolated: bool)
    ensures var e := Effective(cfg, budget, isolated);
            && e == cfg.(parallelWorkers := e.parallelWorkers, popSize := e.popSize)
            && e.parallelWorkers == (if isolated || cfg.parallelWorkers == 0 then cfg.parallelWorkers else 1)
            && (budget >= cfg.popSize ==> e.popSize == cfg.popSize)
            && (budget < cfg.popSize ==>
                  || (e.popSize == 2 && budget <= 6)
                  || (e.popSize > 2
                      && e.popSize * e.popSize - e.popSize < budget <= e.popSize * e.popSize + e.popSize))
  {
    var r := NearestRoot(budget);
    if r <= 1 { assert r * r + r <= 2; }
  }

  /**
   What discovery gets first: everything, or at least one full population; beyond that its part of the budget, rounded
   down.
   */
  ghost predicate IsShare(cfg: Config, budget: nat, share: nat) {
    var part := (1.0 - cfg.refineFraction) * budget as real;
    && share <= budget && (share < budget ==> share >= cfg.popSize && share as real > part - 1.0)
    && (share > cfg.popSize ==> share as real <= part)
  }

  function DiscoveryShare(cfg: Config, budget: nat): (share: nat)
    ensures IsShare(cfg, budget, share)
  {
    var wanted := Truncated((1.0 - cfg.refineFraction) * budget as real);
    var floor := if wanted >= cfg.popSize then wanted else cfg.popSize;
    if floor <= budget then floor else budget
  }

  function PlanFor(cfg: Config, world: World): Plan
    requires 0.0 <= cfg.gateShare <= 1.0
  {
    Plan(cfg, world, ObstacleCountSchedule(cfg.popSize, cfg.gateShare))
  }

  lemma PlanIsWorkable(cfg: Config, world: World, budget: nat, isolated: bool)
    requires Usable(cfg) && Sound(world)
    ensures Usable(Effective(cfg, budget, isolated)) && Workable(PlanFor(Effective(cfg, budget, isolated), world))
  {}

  // ---- the run ----------------------------------------------------------------------------------

  /** The reruns everybody already has. */
  ghost function RerunsOf(members: seq<Member>): (counts: seq<nat>)
    ensures |counts| == |members|
    ensures forall i :: 0 <= i < |members| ==> counts[i] == HasReruns(members[i])
  {
    seq(|members|, i requires 0 <= i < |members| => HasReruns(members[i]))
  }

  ghost function HasReruns(m: Member): nat {
    if m.life.distances == [] then 0 else |m.life.distances| - 1
  }

  /** Each attempt is a rerun of the layout its job was scheduled for. */
  ghost predicate Ran(promising: seq<Member>, order: seq<nat>, trace: seq<Attempt>) {
    forall k :: 0 <= k < |trace| ==>
      && trace[k].op == Operation.Rerun && trace[k].job < |order| && order[trace[k].job] < |promising|
      && trace[k].ind == promising[order[trace[k].job]].who
  }

  /** The schedule is fair, gives nobody more than nReruns, and gives everybody as many unless the reserve is short. */
  ghost predicate Due(cfg: Config, existing: seq<nat>, reserve: nat, order: seq<nat>) {
    && |order| <= reserve && Fair(existing, order)
    && (forall k :: 0 <= k < |order| ==>
          order[k] < |existing| && Reruns(existing, order[..k], order[k]) < cfg.nReruns)
    && (|order| < reserve ==> forall i :: 0 <= i < |existing| ==> Reruns(existing, order, i) >= cfg.nReruns)
  }

  /** The attempts are the reruns that are due; below the reserve every job is settled. */
  ghost predicate Refined(cfg: Config, promising: seq<Member>, reserve: nat, order: seq<nat>, trace: seq<Attempt>) {
    && Due(cfg, RerunsOf(promising), reserve, order) && Ran(promising, order, trace) && |order| <= |trace| <= reserve
    && (forall j :: 0 <= j < |order| ==> Retried(Runs(trace, j), cfg.maxFlakeRetries))
    && (|trace| < reserve ==> forall j :: 0 <= j < |order| ==> Closed(Runs(trace, j), cfg.maxFlakeRetries))
    && (cfg.parallelWorkers == 1 ==> Orderly(trace))
  }

  /**
   Reruns the promising layouts in the order of the schedule, by which nobody is due a third run before everyone is due
   a second. With a single worker the runs are made in that order; with more they may overtake each other. Retried
   flakes come first, so with the budget used up the last jobs may never have been tried.
   */
  method Refine(c: Campaign, promising: seq<Individual>, budget: nat)
      returns (used: nat, ghost order: seq<nat>, ghost trace: seq<Attempt>)
    requires Kept(c.plan, c.Now()) && forall i :: 0 <= i < |promising| ==> promising[i] in c.evaluated
    modifies c`clock, c`log, promising
    ensures Kept(c.plan, c.Now()) && c.log == old(c.log) + trace && used == |trace| <= budget
    ensures Refined(c.plan.cfg, old(Census(promising)), budget, order, trace)
  {
    hide Kept, Campaign.Now, Fair, Reruns, Retried, Closed, Runs, SameStanding, Batch, Orderly, Campaign.InForce, Due,
         Individual.View;
    ghost var members := Census(promising);
    var jobs := DueReruns(c.plan.cfg, promising, budget);
    order := jobs;
    var rerunJobs := seq(|jobs|, i requires 0 <= i < |jobs| && jobs[i] < |promising| => promising[jobs[i]]);
    ghost var ctx;
    used, ctx, trace := c.RerunAndRescore(rerunJobs, promising, budget, false);
    if c.plan.cfg.parallelWorkers == 1 {
      OneWorkerBatch(ctx, Operation.Rerun, rerunJobs, budget, c.plan.world.sim, old(c.clock));
    }
    forall k | 0 <= k < |trace|
      ensures && trace[k].op == Operation.Rerun && trace[k].job < |order|
              && trace[k].ind == members[order[trace[k].job]].who
    {
      assert IsRun(Operation.Rerun, rerunJobs, trace[k]);
    }
  }

  /** The schedule for the reruns the layouts do not have yet. */
  method DueReruns(cfg: Config, promising: seq<Individual>, budget: nat) returns (jobs: seq<nat>)
    ensures Due(cfg, RerunsOf(Census(promising)), budget, jobs) && |jobs| <= budget
    ensures forall k :: 0 <= k < |jobs| ==> jobs[k] < |promising|
  {
    hide Fair, Reruns, Individual.View;
    var existing: seq<nat> := [];
    for i := 0 to |promising|
      invariant |existing| == i
      invariant forall k :: 0 <= k < i ==> existing[k] == HasReruns(Census(promising)[k])
    {
      ShowsDistances(promising[i]);
      existing := existing + [if promising[i].distances == [] then 0 else |promising[i].distances| - 1];
    }
    assert existing == RerunsOf(Census(promising));
    jobs := RoundRobin(existing, cfg.nReruns, budget);
  }

  /**
   How a campaign ends: its books are in order, every generation was bred by the rules, the budget is kept, and it falls
   short of it only when discovery, after whatever was left for it, stalled with every slot flown or holding a layout
   that is not legal.
   */
  ghost predicate Finished(c: Campaign, plan: Plan, budget: nat, r: Course)
    reads c, c.everyone, c.pop
  {
    && c.plan == plan && Kept(c.plan, c.Now()) && Lineage(plan, c.gen, c.history, c.rounds)
    && |c.log| <= budget && Took(plan, budget, r, c.log)
    && (|c.log| < budget ==>
          && |c.rounds| >= |r.rounds| + NoProgressLimit(plan.cfg) && Stalled(c.rounds, NoProgressLimit(plan.cfg))
          && NothingLegalLeft(plan, c.pop))
  }

  lemma IsFinished(c: Campaign, budget: nat, r: Course)
    requires Kept(c.plan, c.Now()) && Lineage(c.plan, c.gen, c.history, c.rounds)
    requires |c.log| <= budget && Took(c.plan, budget, r, c.log)
    requires |c.log| < budget ==>
              && |c.rounds| >= |r.rounds| + NoProgressLimit(c.plan.cfg)
              && Stalled(c.rounds, NoProgressLimit(c.plan.cfg)) && NothingLegalLeft(c.plan, c.pop)
    ensures Finished(c, c.plan, budget, r)
  {}

  ghost predicate NothingLegalLeft(plan: Plan, pop: seq<Individual>)
    reads pop
  {
    forall k :: 0 <= k < |pop| ==> pop[k].valid || !LegalLayout(plan.cfg.bounds, pop[k].obstacles)
  }

  /** Slots are flagged illegal only if they are. */
  lemma FlagsAreRight(c: Campaign)
    requires Kept(c.plan, c.Now()) && c.NothingToFly()
    ensures NothingLegalLeft(c.plan, c.pop)
  {
    hide LegalLayout, Made, Of, Campaign.Now, Workable, Patient, LegalLog, Roll, Told, Coherent, Unflown, RecordedIn,
         EvaluationsIn, Distinct;
    forall k | 0 <= k < |c.pop| ensures c.pop[k].valid || !LegalLayout(c.plan.cfg.bounds, c.pop[k].obstacles) {
      assert IsSane(c.plan, c.Now(), c.pop[k]);
    }
  }

  lemma KeptRoll(plan: Plan, b: Books)
    requires Kept(plan, b)
    ensures Distinct(b.evaluated) && forall i :: 0 <= i < |b.evaluated| ==> b.evaluated[i] in b.lives
  {}

  /** Everybody on the roll, as the books have them. */
  ghost function Roster(b: Books): (roster: seq<Member>)
    ensures |roster| == |b.evaluated|
  {
    seq(|b.evaluated|, i requires 0 <= i < |b.evaluated| =>
      Member(b.evaluated[i], if b.evaluated[i] in b.lives then b.lives[b.evaluated[i]] else NEWBORN))
  }

  lemma RosterNow(c: Campaign)
    requires Kept(c.plan, c.Now())
    ensures Roster(c.Now()) == Census(c.evaluated)
  {
    hide Individual.View, Kept;
    KeptRoll(c.plan, c.Now());
  }

  /**
   A campaign as it went: the books and rounds when discovery first ended, the suite and the layouts provisionally
   selected then, the places of the promising ones among them, the schedule of their reruns, and the attempts made on
   reruns and after them.
   */
  datatype Course = Course(share: nat, mid: Books, rounds: seq<Round>, provisional: Selection, chosen: seq<Member>,
                           at: seq<nat>, order: seq<nat>, refinement: seq<Attempt>, rest: seq<Attempt>)

  /** The suite selected when discovery first ended, and exactly its layouts that came close. */
  ghost predicate Provisional(plan: Plan, mid: Books, s: Selection, chosen: seq<Member>, at: seq<nat>) {
    && Selected(s, Roster(mid), plan.cfg.rules) && Submitted(chosen, Roster(mid), s.suite, plan.cfg.rules)
    && ArePromising(at, chosen, plan.cfg.refineThreshold)
  }

  /**
   The log is discovery within its share, the reruns due to the promising layouts within the reserve, and discovery
   again; discovery makes reruns only to confirm elites.
   */
  ghost predicate Took(plan: Plan, budget: nat, r: Course, log: seq<Attempt>) {
    && Kept(plan, r.mid) && r.share <= budget && IsShare(plan.cfg, budget, r.share)
    && |r.mid.log| <= r.share && (|r.mid.log| < r.share ==> Stalled(r.rounds, NoProgressLimit(plan.cfg)))
    && Provisional(plan, r.mid, r.provisional, r.chosen, r.at)
    && Refined(plan.cfg, Picked(r.chosen, r.at), budget - r.share, r.order, r.refinement)
    && log == r.mid.log + r.refinement + r.rest
    && (!plan.cfg.rerunElites ==> FirstFlights(r.mid.log) && FirstFlights(r.rest))
  }

  /** The promising layouts of the suite as it stands after discovery. */
  method ProvisionalLayouts(c: Campaign)
      returns (promising: seq<Individual>, ghost s: Selection, ghost chosen: seq<Member>, ghost at: seq<nat>)
    requires Kept(c.plan, c.Now()) && Euclidean(c.plan.cfg.rules.dist)
    ensures Provisional(c.plan, c.Now(), s, chosen, at) && Census(promising) == Picked(chosen, at)
    ensures forall i :: 0 <= i < |promising| ==> promising[i] in c.evaluated && promising[i] in c.everyone
  {
    hide Kept, Campaign.Now, Euclidean, Submitted, Selected, Individual.View;
    KeptRoll(c.plan, c.Now());
    RosterNow(c);
    var start: real := *;
    var provisional;
    provisional, s := SelectLayouts(c.evaluated, c.plan.cfg.rules, start);
    promising, at := PromisingOf(provisional, c.plan.cfg.refineThreshold);
    chosen := Census(provisional);
    forall i | 0 <= i < |promising| ensures promising[i] in c.evaluated && promising[i] in c.everyone {
      assert provisional[at[i]] in c.evaluated;
    }
  }

  /** Discovery within its share, and the reruns of the promising layouts. */
  method DiscoverAndRefine(c: Campaign, budget: nat) returns (total: nat, ghost r: Course)
    requires Kept(c.plan, c.Now()) && c.log == [] && Lineage(c.plan, c.gen, c.history, c.rounds)
    requires Euclidean(c.plan.cfg.rules.dist)
    modifies c, c.everyone
    ensures Kept(c.plan, c.Now()) && Lineage(c.plan, c.gen, c.history, c.rounds)
    ensures old(c.everyone) <= c.everyone && fresh(c.everyone - old(c.everyone))
    ensures total == |c.log| <= budget && Took(c.plan, budget, r, c.log) && r.rest == [] && r.rounds == c.rounds
  {
    hide *;
    ShareFits(c.plan.cfg, budget);
    NoFlights();
    var share := DiscoveryShare(c.plan.cfg, budget);
    var discovery := c.RunDiscovery(share);
    ghost var mid := c.Now();
    var promising, s, chosen, at := ProvisionalLayouts(c);
    var refinement, order, trace := Refine(c, promising, budget - share);
    total := discovery + refinement;
    r := Course(share, mid, c.rounds, s, chosen, at, order, trace, []);
    HasTaken(c.plan, budget, r, c.log);
  }

  /** Discovery, refinement, and discovery again with whatever refinement could not use. */
  method RunCampaign(c: Campaign, budget: nat) returns (total: nat, ghost r: Course)
    requires Kept(c.plan, c.Now()) && c.log == [] && Lineage(c.plan, c.gen, c.history, c.rounds)
    requires Euclidean(c.plan.cfg.rules.dist)
    modifies c, c.everyone
    ensures total == |c.log| && Finished(c, c.plan, budget, r) && fresh(c.everyone - old(c.everyone))
  {
    hide *;
    total, r := DiscoverAndRefine(c, budget);
    if total < budget {
      ghost var before := c.log;
      var more := c.RunDiscovery(budget - total);
      total := total + more;
      r := AndThen(c.plan, budget, r, before, c.log);
      if total < budget { FlagsAreRight(c); }
    }
    IsFinished(c, budget, r);
  }

  lemma AndThen(plan: Plan, budget: nat, r: Course, before: seq<Attempt>, log: seq<Attempt>) returns (more: Course)
    requires Took(plan, budget, r, before) && r.rest == [] && before <= log
    requires !plan.cfg.rerunElites ==> FirstFlights(log[|before|..])
    ensures Took(plan, budget, more, log) && more.rounds == r.rounds
  {
    hide Kept, Provisional, Refined, IsShare, Stalled, FirstFlights;
    more := r.(rest := log[|before|..]);
    assert log == before + more.rest;
  }

  lemma ShareFits(cfg: Config, budget: nat)
    ensures DiscoveryShare(cfg, budget) <= budget && IsShare(cfg, budget, DiscoveryShare(cfg, budget))
  {
    hide DiscoveryShare;
  }

  lemma HasTaken(plan: Plan, budget: nat, r: Course, log: seq<Attempt>)
    requires Kept(plan, r.mid) && r.share <= budget && IsShare(plan.cfg, budget, r.share) && |r.mid.log| <= r.share
    requires |r.mid.log| < r.share ==> Stalled(r.rounds, NoProgressLimit(plan.cfg))
    requires Provisional(plan, r.mid, r.provisional, r.chosen, r.at) && log == r.mid.log + r.refinement + r.rest
    requires Refined(plan.cfg, Picked(r.chosen, r.at), budget - r.share, r.order, r.refinement)
    requires !plan.cfg.rerunElites ==> FirstFlights(r.mid.log) && FirstFlights(r.rest)
    ensures Took(plan, budget, r, log)
  {
    hide Kept, Provisional, Refined, IsShare, Stalled, FirstFlights;
  }

  /** The test cases to submit, from the layouts evaluated so far. */
  method Submission(c: Campaign) returns (result: seq<Reply>, chosen: seq<Individual>, s: Selection)
    requires Kept(c.plan, c.Now()) && Euclidean(c.plan.cfg.rules.dist)
    ensures Selected(s, Census(c.evaluated), c.plan.cfg.rules)
    ensures Submitted(Census(chosen), Census(c.evaluated), s.suite, c.plan.cfg.rules) && Cases(chosen, result)
  {
    hide Kept, Campaign.Now, Euclidean, Submitted, Selected;
    KeptRoll(c.plan, c.Now());
    var start: real := *;
    chosen, s := SelectLayouts(c.evaluated, c.plan.cfg.rules, start);
    result := TestCasesOf(c, chosen);
  }

  /** What selection is given satisfies the premises of the law on relaxing. */
  lemma TestsAreFlown(plan: Plan, b: Books, tests: seq<Test>, dist: (Vec, Vec) -> real)
    requires Kept(plan, b) && StandFor(tests, Roster(b), dist)
    ensures AsFlown(plan.cfg.bounds, tests)
  {
    hide Kept, Made, LegalLayout, Of, OfficialTestScore, SearchTestScore, IsMeanTrajectory, RecordIn,
         RecordedIn, FollowsFormula;
    forall i | 0 <= i < |tests| ensures FlownTest(plan.cfg.bounds, tests[i], i) {
      var x := b.evaluated[i];
      assert StandsFor(tests[i], Roster(b)[i], i, dist);
      ScoresAgree(plan, b, x);
      EvaluatedIsMade(plan, b, x);
      KindOfCount(plan.world, x);
      assert Scored(tests[i], b.lives[x].flightDurations);
    }
  }

  lemma EvaluatedIsMade(plan: Plan, b: Books, x: Individual)
    requires Kept(plan, b) && x in b.evaluated
    ensures x in b.lives && Made(plan.world, x.genes, x.obstacles) && b.lives[x].valid
  {
    hide Sane, Made, Of, Workable, Patient, LegalLog, Shape, Told, Distinct;
    var i :| 0 <= i < |b.evaluated| && b.evaluated[i] == x;
    assert IsSane(plan, b, x);
  }

  /** The test case of each layout, in order. */
  ghost predicate Cases(chosen: seq<Individual>, result: seq<Reply>)
    reads chosen
  {
    |result| == |chosen| && forall i :: 0 <= i < |chosen| ==> chosen[i].testCase == Some(result[i])
  }

  /** The best tests found within a budget of simulator runs. */
  method Generate(config: Config, world: World, budget: int, isolated: bool)
      returns (result: seq<Reply>, c: Campaign?, chosen: seq<Individual>, s: Selection, ghost r: Course)
    requires Usable(config) && Sound(world) && Euclidean(config.rules.dist)
    ensures budget <= 0 ==> result == [] && c == null
    ensures budget > 0 ==> c != null && fresh(c) && fresh(c.everyone)
    ensures budget > 0 ==> Finished(c, PlanFor(Effective(config, budget, isolated), world), budget, r)
    ensures budget > 0 ==> Selected(s, Census(c.evaluated), config.rules)
    ensures budget > 0 ==>
              Submitted(Census(chosen), Census(c.evaluated), s.suite, config.rules) && Cases(chosen, result)
  {
    hide Kept, Campaign.Now, Euclidean, Finished, Usable, Sound, Workable, Selected, Submitted, Cases, Lineage,
         ObstacleCountSchedule, NearestRoot;
    r := Course(0, Books([], [], [], map[]), [], Selection([], 0.0, 0.0, []), [], [], [], [], []);
    result, c, chosen, s := [], null, [], Selection([], 0.0, 0.0, []);
    if budget <= 0 { return; }
    UsableShare(config);
    PlanIsWorkable(config, world, budget, isolated);
    var cfg := Effective(config, budget, isolated);
    var campaign := new Campaign(PlanFor(cfg, world));
    var total;
    total, r := RunCampaign(campaign, budget);
    c := campaign;
    FinishedIsKept(c, PlanFor(cfg, world), budget, r);
    result, chosen, s := Submission(c);
  }

  lemma FinishedIsKept(c: Campaign, plan: Plan, budget: nat, r: Course)
    requires Finished(c, plan, budget, r)
    ensures c.plan == plan && Kept(plan, c.Now())
  {
    hide Kept, Took;
  }

  method TestCasesOf(c: Campaign, chosen: seq<Individual>) returns (result: seq<Reply>)
    requires Kept(c.plan, c.Now()) && forall i :: 0 <= i < |chosen| ==> chosen[i] in c.evaluated
    ensures Cases(chosen, result)
  {
    hide Kept, Campaign.Now, OfficialTestScore, SearchTestScore, Individual.View, FollowsFormula;
    result := [];
    for i := 0 to |chosen|
      invariant |result| == i && forall k :: 0 <= k < i ==> chosen[k].testCase == Some(result[k])
    {
      ScoresAgree(c.plan, c.Now(), chosen[i]);
      Shows(chosen[i]);
      result := result + [chosen[i].testCase.value];
    }
  }

  lemma UsableShare(cfg: Config)
    requires Usable(cfg)
    ensures 0.0 <= cfg.gateShare <= 1.0
  {}
}
