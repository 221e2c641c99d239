/** The discovery loop and its ledger (generator.py): what every step of a campaign keeps. */
module Campaign {
  import opened Plane
  import opened Suite
  import opened Sorting
  import opened Schedule
  import opened Individuals
  import opened Scheduler
  import opened BatchLaws
  import opened Tournaments
  import opened Breeding
  import opened Books

  /**
   One round of discovery: whether it bred first, how many slots were free to fly, and what it used on evaluations and
   on confirming elites.
   */
  datatype Round = Round(bred: bool, free: nat, used: nat, confirming: nat)

  /** One breeding: the population and its state before, and the population after. */
  datatype Generation = Generation(census: seq<Member>, next: seq<Individual>, walls: Shares, gates: Shares)

  /** Bred from a population without free slots, by the rules or, without evolution, all over again. */
  ghost predicate ByTheRules(plan: Plan, g: Generation) {
    && (forall i :: 0 <= i < |g.census| ==> g.census[i].life.valid || g.census[i].life.illegal)
    && if plan.cfg.evolve then Succeeds(plan.world, plan.cfg, g.census, plan.counts, g.next, g.walls, g.gates)
       else
         && |g.next| == |plan.counts|
         && forall k :: 0 <= k < |g.next| ==>
              && |g.next[k].obstacles| == plan.counts[k] && !IsCarried(g.census, g.next[k])
              && Seeded(plan.cfg, plan.world, g.next[k].genes)
  }

  ghost predicate AllByTheRules(plan: Plan, history: seq<Generation>) {
    forall i :: 0 <= i < |history| ==> ByTheRules(plan, history[i])
  }

  ghost function BredIn(rounds: seq<Round>): nat {
    if rounds == [] then 0 else BredIn(rounds[..|rounds| - 1]) + if rounds[|rounds| - 1].bred then 1 else 0
  }

  lemma NeverStalled(rounds: seq<Round>)
    ensures Stalled(rounds, 0)
  {}

  lemma StallGrows(rounds: seq<Round>, n: nat)
    requires rounds != []
    ensures Stalled(rounds, 0)
    ensures var last := |rounds| - 1;
            Stalled(rounds[..last], n) && rounds[last].bred && rounds[last].free == rounds[last].used == 0 ==>
              Stalled(rounds, n + 1)
  {}

  /** One more generation was bred, from a population as it was then. */
  ghost predicate HasBred(plan: Plan, past: seq<Generation>, census: seq<Member>, next: seq<Individual>,
                          history: seq<Generation>) {
    && |history| == |past| + 1 && history == past + [history[|past|]]
    && history[|past|].census == census && history[|past|].next == next && ByTheRules(plan, history[|past|])
  }

  /** Every generation so far was bred by the rules, each in a round of its own. */
  ghost predicate Lineage(plan: Plan, gen: nat, history: seq<Generation>, rounds: seq<Round>) {
    gen == |history| == BredIn(rounds) && AllByTheRules(plan, history)
  }

  lemma OneMoreBred(plan: Plan, past: seq<Generation>, g: Generation)
    requires ByTheRules(plan, g)
    ensures HasBred(plan, past, g.census, g.next, past + [g])
  {}

  lemma LineageGrows(plan: Plan, gen: nat, past: seq<Generation>, before: seq<Round>, newGen: nat,
                     history: seq<Generation>, r: Round, census: seq<Member>, next: seq<Individual>)
    requires if r.bred then newGen == gen + 1 && HasBred(plan, past, census, next, history)
             else newGen == gen && history == past
    ensures Lineage(plan, gen, past, before) ==> Lineage(plan, newGen, history, before + [r])
  {
    hide ByTheRules;
    assert (before + [r])[..|before|] == before;
  }

  /** Never measured although the simulator got its chances. */
  ghost predicate GaveUp(cfg: Config, v: Vitals) { !v.valid && !v.illegal && v.attempts >= cfg.maxRunFailures }

  /** The same but for the generation noted on entering. */
  ghost predicate UpToGeneration(v: Vitals, w: Vitals) { w == v.(generation := w.generation) }

  /** The candidate became valid and was not on the roll yet. */
  ghost predicate Enters(candidates: seq<Individual>, lives: seq<Vitals>, roll: seq<Individual>, i: int) {
    0 <= i < |candidates| && i < |lives| && lives[i].valid && candidates[i] !in roll
  }

  /** Those among the first n candidates, in order. */
  ghost function Entrants(candidates: seq<Individual>, lives: seq<Vitals>, roll: seq<Individual>, n: nat)
    : seq<Individual>
    requires n <= |candidates|
  {
    if n == 0 then []
    else
      Entrants(candidates, lives, roll, n - 1)
        + if Enters(candidates, lives, roll, n - 1) then [candidates[n - 1]] else []
  }

  /** The longest flight that reached its goal, over an earlier record and the entrants among the first n. */
  ghost predicate IsLongest(before: real, candidates: seq<Individual>, lives: seq<Vitals>, roll: seq<Individual>,
                            n: nat, after: real) {
    && after >= before
    && (forall i :: Enters(candidates, lives, roll, i) && i < n && !lives[i].stuck ==> after >= lives[i].duration)
    && (after == before
        || exists i :: Enters(candidates, lives, roll, i) && i < n && !lives[i].stuck && after == lives[i].duration)
  }

  ghost function LongerGood(longest: real, v: Vitals): real {
    if !v.stuck && v.duration > longest then v.duration else longest
  }

  /** What settling writes: the population, the roll, and the longest good flight. */
  datatype Desk = Desk(pop: seq<Individual>, roll: seq<Individual>, longest: real)

  /** One candidate, whose state is v, was entered if it became valid, and its slot reseeded if it is given up. */
  ghost predicate SettledOne(cfg: Config, everyone: set<Individual>, slot: nat, x: Individual, v: Vitals, before: Desk,
                             after: Desk) {
    && slot < |before.pop| == |after.pop| && after.pop == before.pop[slot := after.pop[slot]]
    && |after.pop[slot].obstacles| == |x.obstacles|
    && (if GaveUp(cfg, v) then after.pop[slot] !in everyone else after.pop[slot] == x)
    && if v.valid && x !in before.roll then
         after.roll == before.roll + [x] && after.longest == LongerGood(before.longest, v)
       else after.roll == before.roll && after.longest == before.longest
  }

  /** The first n candidates were: exactly the given up made room, and the new ones are on the roll in order. */
  ghost predicate SettledFirst(cfg: Config, everyone: set<Individual>, slots: seq<nat>, candidates: seq<Individual>,
                          lives: seq<Vitals>, before: Desk, n: nat, after: Desk)
    requires n <= |slots| == |candidates| == |lives|
  {
    && |after.pop| == |before.pop|
    && (forall k :: 0 <= k < |after.pop| && k !in slots[..n] ==> after.pop[k] == before.pop[k])
    && (forall i :: 0 <= i < n && slots[i] < |after.pop| ==>
          |after.pop[slots[i]].obstacles| == |candidates[i].obstacles|
          && if GaveUp(cfg, lives[i]) then after.pop[slots[i]] !in everyone else after.pop[slots[i]] == candidates[i])
    && after.roll == before.roll + Entrants(candidates, lives, before.roll, n)
    && IsLongest(before.longest, candidates, lives, before.roll, n, after.longest)
  }

  lemma NothingSettled(cfg: Config, everyone: set<Individual>, slots: seq<nat>, candidates: seq<Individual>,
                       lives: seq<Vitals>, desk: Desk)
    requires |slots| == |candidates| == |lives|
    ensures SettledFirst(cfg, everyone, slots, candidates, lives, desk, 0, desk)
  {}

  lemma OneMoreSettled(cfg: Config, everyone: set<Individual>, known: set<Individual>, slots: seq<nat>,
                       candidates: seq<Individual>, lives: seq<Vitals>, start: Desk, n: nat, before: Desk, after: Desk)
    requires n < |slots| == |candidates| == |lives| && Distinct(candidates)
    requires forall i :: 0 <= i < |slots| ==> slots[i] < |start.pop|
    requires forall i, j :: 0 <= i < j < |slots| ==> slots[i] < slots[j]
    requires SettledFirst(cfg, everyone, slots, candidates, lives, start, n, before)
    requires SettledOne(cfg, known, slots[n], candidates[n], lives[n], before, after) && everyone <= known
    ensures SettledFirst(cfg, everyone, slots, candidates, lives, start, n + 1, after)
  {
    hide GaveUp, Entrants, IsLongest, LongerGood;
    OneMoreEntered(candidates, lives, start, n, before.roll, before.longest, after.roll, after.longest);
    assert slots[..n + 1] == slots[..n] + [slots[n]];
    forall i | 0 <= i < n ensures after.pop[slots[i]] == before.pop[slots[i]] { assert slots[i] < slots[n]; }
  }

  lemma NobodyWaits(plan: Plan, b: Books)
    requires KeptBut(plan, b, [])
    ensures Kept(plan, b)
  {}

  lemma DistinctFrom(candidates: seq<Individual>, i: nat)
    requires Distinct(candidates) && i < |candidates|
    ensures forall j :: 0 <= j < |candidates| && j != i ==> candidates[j] != candidates[i]
  {}

  lemma OneMoreEntered(candidates: seq<Individual>, lives: seq<Vitals>, start: Desk, n: nat, roll: seq<Individual>,
                       longest: real, newRoll: seq<Individual>, newLongest: real)
    requires n < |candidates| == |lives| && Distinct(candidates)
    requires roll == start.roll + Entrants(candidates, lives, start.roll, n)
    requires IsLongest(start.longest, candidates, lives, start.roll, n, longest)
    requires if lives[n].valid && candidates[n] !in roll then
               newRoll == roll + [candidates[n]] && newLongest == LongerGood(longest, lives[n])
             else newRoll == roll && newLongest == longest
    ensures newRoll == start.roll + Entrants(candidates, lives, start.roll, n + 1)
    ensures IsLongest(start.longest, candidates, lives, start.roll, n + 1, newLongest)
  {
    EntrantsAreCandidates(candidates, lives, start.roll, n);
    assert Enters(candidates, lives, start.roll, n) <==> lives[n].valid && candidates[n] !in roll;
  }

  lemma {:induction false} EntrantsAreCandidates(candidates: seq<Individual>, lives: seq<Vitals>, roll: seq<Individual>,
                                                 n: nat)
    requires n <= |candidates|
    ensures forall x :: x in Entrants(candidates, lives, roll, n) ==> x in candidates[..n]
  {
    if n > 0 {
      EntrantsAreCandidates(candidates, lives, roll, n - 1);
      assert candidates[..n] == candidates[..n - 1] + [candidates[n - 1]];
    }
  }

  /** Exactly the members that were given up made room for somebody else. */
  ghost predicate Replaced(cfg: Config, flock: seq<Individual>, pop: seq<Individual>)
    reads flock
  {
    && |pop| == |flock|
    && forall k :: 0 <= k < |flock| ==>
         |pop[k].obstacles| == |flock[k].obstacles|
         && if GaveUp(cfg, flock[k].View()) then pop[k] !in flock else pop[k] == flock[k]
  }

  /** Obstacle count and fitness of one slot. */
  datatype Slot = Slot(niche: nat, fitness: Extended)

  /** Every niche with two or more slots has, for each old member, a new member that is no worse. */
  ghost predicate NichesKept(before: seq<Slot>, after: seq<Slot>, counts: seq<nat>) {
    forall i :: 0 <= i < |before| && Count(before[i].niche, counts) >= 2 ==> Matched(before[i], after)
  }

  ghost predicate Matched(a: Slot, after: seq<Slot>) {
    exists k :: 0 <= k < |after| && after[k].niche == a.niche && ExtendedLe(after[k].fitness, a.fitness)
  }

  lemma MatchedAt(a: Slot, after: seq<Slot>, k: nat)
    requires k < |after| && after[k].niche == a.niche && ExtendedLe(after[k].fitness, a.fitness)
    ensures Matched(a, after)
  {}

  lemma KeptTwice(before: seq<Slot>, mid: seq<Slot>, after: seq<Slot>, counts: seq<nat>)
    requires NichesKept(before, mid, counts) && NichesKept(mid, after, counts)
    ensures NichesKept(before, after, counts)
  {}

  lemma SlotwiseKept(before: seq<Slot>, after: seq<Slot>, counts: seq<nat>)
    requires |after| == |before|
    requires forall i :: 0 <= i < |before| ==>
              after[i].niche == before[i].niche && ExtendedLe(after[i].fitness, before[i].fitness)
    ensures NichesKept(before, after, counts)
  {}

  lemma NoneLost(slots: seq<Slot>, counts: seq<nat>)
    ensures NichesKept(slots, slots, counts)
  {
    SlotwiseKept(slots, slots, counts);
  }

  /** Which members are already flown. */
  ghost function Standing(xs: seq<Individual>): (flags: seq<bool>)
    reads xs
    ensures |flags| == |xs| && forall i :: 0 <= i < |xs| ==> flags[i] == xs[i].valid
  {
    seq(|xs|, i requires 0 <= i < |xs| reads xs => xs[i].valid)
  }

  /** Which members of the flock were flown before it was put together. */
  ghost function FlownIn(census: seq<Member>, flock: seq<Individual>): (flags: seq<bool>)
    ensures |flags| == |flock| && forall k :: 0 <= k < |flock| ==> flags[k] == WasFlown(census, flock[k])
  {
    seq(|flock|, k requires 0 <= k < |flock| => WasFlown(census, flock[k]))
  }

  ghost predicate WasFlown(census: seq<Member>, x: Individual) {
    exists m :: 0 <= m < |census| && census[m].who == x && census[m].life.valid
  }

  /** Members carried over are as flown as they were, and the others are not. */
  lemma StillFlown(census: seq<Member>, pop: seq<Individual>, next: seq<Individual>)
    requires Distinct(pop) && census == Census(pop)
    requires forall k :: 0 <= k < |next| && next[k] !in pop ==> !next[k].valid
    ensures Standing(next) == FlownIn(census, next)
  {
    hide Individual.View;
    forall k | 0 <= k < |next| ensures next[k].valid <==> WasFlown(census, next[k]) {
      if m :| 0 <= m < |pop| && pop[m] == next[k] {
        assert census[m].who == next[k];
        Shows(pop[m]);
      }
    }
  }

  ghost function CountTrue(flags: seq<bool>): nat {
    if flags == [] then 0 else CountTrue(flags[..|flags| - 1]) + if flags[|flags| - 1] then 1 else 0
  }

  /** The attempts a round spends on confirming its elites: as many as it has elites, if more than that many remain. */
  ghost function Confirmations(cfg: Config, elites: nat, remaining: nat): nat {
    if cfg.rerunElites && elites < remaining then elites else 0
  }

  ghost function Profile(xs: seq<Individual>): (slots: seq<Slot>)
    reads xs
    ensures |slots| == |xs| && forall i :: 0 <= i < |xs| ==> slots[i] == Slot(|xs[i].obstacles|, xs[i].fitness)
  {
    seq(|xs|, i requires 0 <= i < |xs| reads xs => Slot(|xs[i].obstacles|, xs[i].fitness))
  }

  /** The state of a running campaign. The log lists every attempt that reached the simulator. */
  class Campaign {
    const plan: Plan
    var clock: nat
    var pop: seq<Individual>
    var evaluated: seq<Individual>
    var gen: nat
    var maxGoodDuration: real
    ghost var log: seq<Attempt>
    ghost var rounds: seq<Round>
    ghost var history: seq<Generation>
    ghost var everyone: set<Individual>

    /** The books as they stand. */
    ghost function Now(): (b: Books)
      reads this`pop, this`evaluated, this`log, this`everyone, everyone
      ensures b.pop == pop && b.evaluated == evaluated && b.log == log && b.lives.Keys == everyone
      ensures forall x :: x in everyone ==> b.lives[x] == x.View()
    {
      Books(pop, evaluated, log, map x | x in everyone :: x.View())
    }

    /** Seeds the first generation. */
    constructor (plan: Plan)
      requires Workable(plan)
      ensures this.plan == plan && Kept(plan, Now()) && fresh(everyone) && log == [] && rounds == [] && evaluated == []
      ensures Lineage(plan, gen, history, rounds)
    {
      hide Individual.View, Newborn, NewbornLife, Sound, Usable, KeptBut, Now;
      var seeds := Seeds(plan);
      this.plan, clock, pop, evaluated, gen, maxGoodDuration := plan, 0, seeds, [], 0, 0.0;
      log, rounds, history, everyone := [], [], [], set x | x in seeds;
      new;
      forall k | 0 <= k < |seeds|
        ensures |seeds[k].obstacles| == plan.counts[k] && NewbornLife(plan, seeds[k], seeds[k].View())
      {
        NewbornStarts(plan, seeds[k], plan.counts[k]);
      }
      StartKeeps(plan, Now());
    }

    /** The batch runs under the plan, and the watchdog waits for a multiple of the longest good flight. */
    ghost predicate InForce(ctx: Context)
      reads this`maxGoodDuration
    {
      && Under(plan, ctx) && ctx.killAfter >= plan.cfg.minTimeout
      && ctx.killAfter >= plan.cfg.timeoutMul * maxGoodDuration
      && (ctx.killAfter == plan.cfg.minTimeout || ctx.killAfter == plan.cfg.timeoutMul * maxGoodDuration)
    }

    method ContextNow() returns (ctx: Context)
      ensures InForce(ctx)
    {
      ctx := Context(plan.cfg, plan.world.goal, Max(plan.cfg.minTimeout, plan.cfg.timeoutMul * maxGoodDuration));
    }

    /** Runs one batch and writes it into the log. */
    method RunBatch(op: Operation, jobs: seq<Individual>, budget: nat)
        returns (used: nat, ghost ctx: Context, ghost trace: seq<Attempt>)
      requires plan.cfg.parallelWorkers >= 1
      requires forall j :: 0 <= j < |jobs| ==> jobs[j] in everyone && Measured(jobs[j].obstacles, jobs[j].View())
      modifies this`clock, this`log, jobs
      ensures InForce(ctx)
      ensures BatchDone(ctx, op, jobs, trace, old(Now()), Now())
      ensures trace == Batch(ctx, op, jobs, budget, plan.world.sim, old(clock))
      ensures used == Launched(trace) && used <= budget
      ensures forall j :: 0 <= j < |jobs| ==> Retried(Runs(trace, j), plan.cfg.maxFlakeRetries)
      ensures used < budget ==> forall j :: 0 <= j < |jobs| ==> Closed(Runs(trace, j), plan.cfg.maxFlakeRetries)
    {
      hide Individual.View, Of, Measured, Replay, Faithful, Retried, Closed, Launched, Runs, Views, Now, BatchDone,
           Replayed, InForce, Batch;
      ghost var before, states := Now(), Views(jobs);
      var c := ContextNow();
      ctx := c;
      InForceIsUnder(ctx);
      used, clock, trace := RunRetryingBatch(c, op, jobs, budget, plan.world.sim, clock);
      log := log + trace;
      BatchIsDone(ctx, op, jobs, trace, before, Now(), states, Views(jobs));
    }

    /** Flies free members of the population for the first time. */
    method FlyCandidates(candidates: seq<Individual>, budget: nat)
        returns (used: nat, ghost ctx: Context, ghost trace: seq<Attempt>)
      requires Kept(plan, Now()) && FreeMembers(Now(), candidates)
      modifies this`clock, this`log, candidates
      ensures KeptBut(plan, Now(), candidates) && InForce(ctx)
      ensures forall i :: 0 <= i < |candidates| ==> !candidates[i].illegal
      ensures trace == Batch(ctx, Operation.Evaluate, candidates, budget, plan.world.sim, old(clock))
      ensures log == old(log) + trace && used == |trace| && Least(|candidates|, budget) <= used <= budget
      ensures forall k :: 0 <= k < used ==> IsRun(Operation.Evaluate, candidates, trace[k])
      ensures forall j :: 0 <= j < |candidates| ==> Retried(Runs(trace, j), plan.cfg.maxFlakeRetries)
      ensures used < budget ==>
                forall j :: 0 <= j < |candidates| ==> Closed(Runs(trace, j), plan.cfg.maxFlakeRetries)
    {
      hide Measured, Retried, Closed, Launched, Runs, Now, KeptBut, BatchDone, LegalLayout, Batch, InForce;
      ghost var before := Now();
      forall j | 0 <= j < |candidates|
        ensures Measured(candidates[j].obstacles, candidates[j].View())
      {
        FreeMember(plan, before, candidates[j]);
      }
      KeptIsWorkable(plan, before);
      used, ctx, trace := RunBatch(Operation.Evaluate, candidates, budget);
      InForceIsUnder(ctx);
      FlightKeeps(plan, ctx, candidates, trace, before, Now());
      BatchLog(ctx, Operation.Evaluate, candidates, trace, before, Now());
      AreRuns(ctx, Operation.Evaluate, candidates, trace, before, Now());
      if used < budget { OneAttemptEach(trace, |candidates|, plan.cfg.maxFlakeRetries); }
    }

    lemma InForceIsUnder(ctx: Context)
      requires InForce(ctx)
      ensures Under(plan, ctx)
    {}

    /** Reruns evaluated layouts, then rescores the targets: all of them, or those with more than one run. */
    method RerunAndRescore(jobs: seq<Individual>, targets: seq<Individual>, budget: nat, all: bool)
        returns (used: nat, ghost ctx: Context, ghost trace: seq<Attempt>)
      requires Kept(plan, Now())
      requires forall j :: 0 <= j < |jobs| ==> jobs[j] in targets
      requires forall j :: 0 <= j < |targets| ==> targets[j] in evaluated
      modifies this`clock, this`log, targets
      ensures Kept(plan, Now()) && SameStanding(old(Now()), Now())
      ensures InForce(ctx) && Under(plan, ctx) && ctx.cfg.parallelWorkers >= 1
      ensures trace == Batch(ctx, Operation.Rerun, jobs, budget, plan.world.sim, old(clock))
      ensures log == old(log) + trace && used == |trace| && Least(|jobs|, budget) <= used <= budget
      ensures forall k :: 0 <= k < |trace| ==> IsRun(Operation.Rerun, jobs, trace[k])
      ensures forall j :: 0 <= j < |jobs| ==> Retried(Runs(trace, j), plan.cfg.maxFlakeRetries)
      ensures used < budget ==> forall j :: 0 <= j < |jobs| ==> Closed(Runs(trace, j), plan.cfg.maxFlakeRetries)
    {
      hide Measured, Retried, Closed, Launched, Runs, Now, Kept, BatchDone, NearlyKept, Individual.View, Rescored,
           SameStanding, InForce;
      ghost var before := Now();
      forall j | 0 <= j < |targets|
        ensures targets[j] in everyone && Measured(targets[j].obstacles, targets[j].View())
      {
        EvaluatedIsMeasured(plan, before, targets[j]);
      }
      KeptIsWorkable(plan, before);
      used, ctx, trace := RunBatch(Operation.Rerun, jobs, budget);
      InForceIsUnder(ctx);
      RerunKeeps(plan, ctx, jobs, trace, before, Now());
      AreRuns(ctx, Operation.Rerun, jobs, trace, before, Now());
      if used < budget { OneAttemptEach(trace, |jobs|, plan.cfg.maxFlakeRetries); }
      BatchLog(ctx, Operation.Rerun, jobs, trace, before, Now());
      MoreToDo(plan, Now(), jobs, targets);
      ghost var mid := Now();
      RescoreAll(targets, all);
      StandingTwice(before, mid, Now());
    }

    method RescoreAll(targets: seq<Individual>, all: bool)
      requires NearlyKept(plan, Now(), targets)
      requires forall j :: 0 <= j < |targets| ==> targets[j] in evaluated && targets[j] in everyone
      modifies targets
      ensures Kept(plan, Now()) && SameStanding(old(Now()), Now())
    {
      hide Now, Kept, NearlyKept, Individual.View, Rescored;
      assert targets[0..] == targets;
      for k := 0 to |targets|
        invariant NearlyKept(plan, Now(), targets[k..]) && SameStanding(old(Now()), Now())
      {
        RescoreOne(targets, k, all);
      }
      assert targets[|targets|..] == [];
      NearlyKeptIsKept(plan, Now());
    }

    method RescoreOne(targets: seq<Individual>, k: nat, all: bool)
      requires k < |targets| && targets[k] in evaluated && targets[k] in everyone
      requires NearlyKept(plan, Now(), targets[k..])
      modifies targets[k]
      ensures NearlyKept(plan, Now(), targets[k + 1..]) && SameStanding(old(Now()), Now())
    {
      hide Measured, Now, NearlyKept, Individual.View, Rescored;
      ghost var b := Now();
      var cand := targets[k];
      assert targets[k..] == [cand] + targets[k + 1..];
      Shows(cand);
      if all || |cand.distances| > 1 {
        TodoIsStale(plan, b, targets[k..], cand);
        cand.Rescore(plan.cfg);
        assert Now().lives == b.lives[cand := Rescored(plan.cfg, cand.obstacles, b.lives[cand])];
        RescoreKeeps(plan, b, Now(), cand, targets[k + 1..]);
      } else {
        OneRunKeeps(plan, b, cand, targets[k + 1..]);
      }
    }

    /** Every slot is flown or has no legal layout. */
    ghost predicate NothingToFly()
      reads this`pop, pop
    {
      forall k :: 0 <= k < |pop| ==> pop[k].valid || pop[k].illegal
    }

    /** The slots that still have to be flown. */
    method FreeSlots() returns (slots: seq<nat>)
      ensures forall i :: 0 <= i < |slots| ==> slots[i] < |pop| && !pop[slots[i]].valid && !pop[slots[i]].illegal
      ensures forall i, j :: 0 <= i < j < |slots| ==> slots[i] < slots[j]
      ensures forall k :: 0 <= k < |pop| && !pop[k].valid && !pop[k].illegal ==> k in slots
    {
      slots := [];
      for k := 0 to |pop|
        invariant forall i :: 0 <= i < |slots| ==> slots[i] < k && !pop[slots[i]].valid && !pop[slots[i]].illegal
        invariant forall i, j :: 0 <= i < j < |slots| ==> slots[i] < slots[j]
        invariant forall i :: 0 <= i < k && !pop[i].valid && !pop[i].illegal ==> i in slots
      {
        if !pop[k].valid && !pop[k].illegal {
          slots := slots + [k];
        }
      }
    }

    ghost function DeskNow(): (desk: Desk)
      reads this`pop, this`evaluated, this`maxGoodDuration
      ensures desk.pop == pop && desk.roll == evaluated && desk.longest == maxGoodDuration
    {
      Desk(pop, evaluated, maxGoodDuration)
    }

    /** Enters a candidate that became valid, or reseeds its slot if it is given up. */
    method SettleOne(slot: nat, ghost rest: seq<Individual>)
      requires slot < |pop| && KeptBut(plan, Now(), [pop[slot]] + rest)
      modifies this`pop, this`evaluated, this`maxGoodDuration, this`everyone, pop[slot]
      ensures KeptBut(plan, Now(), rest)
      ensures old(everyone) <= everyone && fresh(everyone - old(everyone))
      ensures SettledOne(plan.cfg, old(everyone), slot, old(pop[slot]), old(pop[slot].View()), old(DeskNow()),
                         DeskNow())
      ensures pop == old(pop)[slot := pop[slot]] && UpToGeneration(old(pop[slot].View()), old(pop[slot]).View())
      ensures old(pop[slot].valid && pop[slot] !in evaluated) ==> old(pop[slot]).generation == gen
    {
      hide Now, KeptBut, Individual.View, Sound, Usable, Made, Distinct;
      ghost var b := Now();
      var ind := pop[slot];
      MemberFacts(plan, b, [ind] + rest, slot);
      Shows(ind);
      if ind.valid && ind !in evaluated {
        EnterRoll(ind, rest);
      } else if !ind.valid && !ind.illegal && ind.attempts >= plan.cfg.maxRunFailures {
        Reseed(slot, rest);
      } else {
        RetryKeeps(plan, b, ind, rest);
      }
    }

    method EnterRoll(ind: Individual, ghost rest: seq<Individual>)
      requires KeptBut(plan, Now(), [ind] + rest) && ind in everyone && ind.View().valid && ind !in evaluated
      modifies this`evaluated, this`maxGoodDuration, ind
      ensures KeptBut(plan, Now(), rest) && ind.View() == old(ind.View()).(generation := gen)
      ensures evaluated == old(evaluated) + [ind] && ind.generation == gen && ind.fitness == old(ind.fitness)
      ensures ind.valid && maxGoodDuration == LongerGood(old(maxGoodDuration), old(ind.View()))
    {
      hide Now, KeptBut, Individual.View;
      ghost var b := Now();
      Shows(ind);
      ind.Enter(gen);
      Shows(ind);
      evaluated := evaluated + [ind];
      assert Now().lives == b.lives[ind := b.lives[ind].(generation := gen)];
      EnterKeeps(plan, b, Now(), ind, rest, gen);
      if !ind.stuck && ind.duration > maxGoodDuration {
        maxGoodDuration := ind.duration;
      }
    }

    method Reseed(slot: nat, ghost rest: seq<Individual>)
      requires slot < |pop| && KeptBut(plan, Now(), [pop[slot]] + rest) && pop[slot] in everyone
      requires !pop[slot].View().valid
      modifies this`pop, this`everyone
      ensures KeptBut(plan, Now(), rest)
      ensures |pop| == |old(pop)| && fresh(pop[slot]) && pop == old(pop)[slot := pop[slot]]
      ensures everyone == old(everyone) + {pop[slot]}
      ensures |pop[slot].obstacles| == |old(pop)[slot].obstacles|
    {
      hide Now, KeptBut, Individual.View, Newborn, NewbornLife, Sound, Usable, Seeded, Made;
      ghost var b := Now();
      MemberFacts(plan, b, [pop[slot]] + rest, slot);
      var n := |pop[slot].obstacles|;
      var y, _ := FreshIndividual(plan.cfg, plan.world, n);
      NewbornStarts(plan, y, n);
      pop := pop[slot := y];
      everyone := everyone + {y};
      assert Now().lives == b.lives[y := y.View()];
      ReseedKeeps(plan, b, Now(), slot, rest, y);
    }

    /** Enters the candidates that became valid and reseeds the slots of those that are given up. */
    method Settle(slots: seq<nat>, candidates: seq<Individual>)
      requires KeptBut(plan, Now(), candidates) && Distinct(candidates) && |slots| == |candidates|
      requires forall i :: 0 <= i < |slots| ==> slots[i] < |pop| && pop[slots[i]] == candidates[i]
      requires forall i, j :: 0 <= i < j < |slots| ==> slots[i] < slots[j]
      modifies this`pop, this`evaluated, this`maxGoodDuration, this`everyone, candidates
      ensures Kept(plan, Now())
      ensures old(everyone) <= everyone && fresh(everyone - old(everyone))
      ensures SettledFirst(plan.cfg, old(everyone), slots, candidates, old(Views(candidates)), old(DeskNow()), |slots|,
                           DeskNow())
      ensures forall i :: 0 <= i < |slots| ==> UpToGeneration(old(candidates[i].View()), candidates[i].View())
    {
      hide *;
      ghost var lives, start, all := Views(candidates), DeskNow(), everyone;
      NothingSettled(plan.cfg, all, slots, candidates, lives, start);
      assert candidates[0..] == candidates;
      for i := 0 to |slots|
        invariant KeptBut(plan, Now(), candidates[i..]) && all <= everyone && fresh(everyone - all)
        invariant forall j :: i <= j < |slots| ==> slots[j] < |pop| && pop[slots[j]] == candidates[j]
        invariant forall j :: i <= j < |slots| ==> candidates[j].View() == lives[j]
        invariant forall j :: 0 <= j < i ==> UpToGeneration(lives[j], candidates[j].View())
        invariant SettledFirst(plan.cfg, all, slots, candidates, lives, start, i, DeskNow())
      {
        assert candidates[i..] == [candidates[i]] + candidates[i + 1..];
        ghost var before, known := DeskNow(), everyone;
        DistinctFrom(candidates, i);
        SettleOne(slots[i], candidates[i + 1..]);
        OneMoreSettled(plan.cfg, all, known, slots, candidates, lives, start, i, before, DeskNow());
      }
      assert candidates[|slots|..] == [];
      NobodyWaits(plan, Now());
    }

    /** What settling means for the population. */
    method SettleFlight(slots: seq<nat>, candidates: seq<Individual>)
      requires KeptBut(plan, Now(), candidates) && Distinct(candidates) && |slots| == |candidates|
      requires forall i :: 0 <= i < |slots| ==> slots[i] < |pop| && pop[slots[i]] == candidates[i]
      requires forall i, j :: 0 <= i < j < |slots| ==> slots[i] < slots[j]
      modifies this`pop, this`evaluated, this`maxGoodDuration, this`everyone, candidates
      ensures Kept(plan, Now())
      ensures old(everyone) <= everyone && fresh(everyone - old(everyone))
      ensures Replaced(plan.cfg, old(pop), pop)
      ensures |pop| == |old(pop)| && forall k :: 0 <= k < |pop| ==> |pop[k].obstacles| == |old(pop)[k].obstacles|
      ensures forall k :: 0 <= k < |pop| && old(pop)[k] !in candidates ==> pop[k] == old(pop)[k]
    {
      hide *;
      ghost var lives, desk, all := Views(candidates), DeskNow(), everyone;
      forall k | 0 <= k < |pop| && pop[k] !in candidates ensures !GaveUp(plan.cfg, pop[k].View()) {
        OthersArePatient(plan, Now(), candidates, k);
      }
      forall k | 0 <= k < |pop| ensures pop[k] in everyone { MemberFacts(plan, Now(), candidates, k); }
      PopIsDistinct(plan, Now(), candidates);
      Settle(slots, candidates);
      SettledReplaces(plan.cfg, all, slots, candidates, lives, desk, DeskNow());
    }

    lemma NothingMeans()
      requires NothingToFly()
      ensures forall k :: 0 <= k < |pop| ==> pop[k].valid || pop[k].illegal
    {}

    /** A new generation for a population without free slots. */
    method Breed()
      requires Kept(plan, Now()) && NothingToFly()
      modifies this`pop, this`gen, this`everyone, this`history
      ensures Kept(plan, Now())
      ensures old(everyone) <= everyone && fresh(everyone - old(everyone))
      ensures plan.cfg.evolve && plan.cfg.elitePerNiche >= 1 ==>
                NichesKept(old(Profile(pop)), Profile(pop), plan.counts)
      ensures gen == old(gen) + 1 && HasBred(plan, old(history), old(Census(pop)), pop, history)
      ensures Standing(pop) == FlownIn(old(Census(pop)), pop)
    {
      hide *;
      NothingMeans();
      KeptIsWorkable(plan, Now());
      KeptIsReady(plan, Now());
      var next, g := Successors(plan, pop);
      forall k | 0 <= k < |next| && next[k] !in pop
        ensures NewbornLife(plan, next[k], next[k].View())
      {
        NewbornStarts(plan, next[k], plan.counts[k]);
      }
      OneMoreBred(plan, history, g);
      Install(next, g);
    }

    /** The new generation takes the slots. */
    method Install(next: seq<Individual>, ghost g: Generation)
      requires Kept(plan, Now()) && NothingToFly()
      requires |next| == |plan.counts| && Distinct(next)
      requires forall k :: 0 <= k < |next| ==>
                 && |next[k].obstacles| == plan.counts[k]
                 && (next[k] in pop || (next[k] !in everyone && NewbornLife(plan, next[k], next[k].View())))
      modifies this`pop, this`gen, this`everyone, this`history
      ensures Kept(plan, Now()) && pop == next && everyone == old(everyone) + (set x | x in next)
      ensures gen == old(gen) + 1 && history == old(history) + [g]
      ensures Profile(next) == old(Profile(next)) && Standing(next) == old(Standing(next))
    {
      hide *;
      ghost var b := Now();
      NothingMeans();
      KeptIsReady(plan, b);
      NothingIsFree(b);
      gen, pop := gen + 1, next;
      everyone, history := everyone + (set x | x in next), history + [g];
      GrownNow(plan, b, Now());
      BreedKeeps(plan, b, Now());
    }

    lemma NothingIsFree(b: Books)
      requires NothingToFly() && b == Now() && forall k :: 0 <= k < |pop| ==> pop[k] in everyone
      ensures forall k :: 0 <= k < |pop| ==> !Free(b, pop[k])
    {
      hide Individual.View, Now;
      forall k | 0 <= k < |pop| ensures !Free(b, pop[k]) { Shows(pop[k]); }
    }

    /** Flies the given free slots and settles what came of it. */
    method FlySlots(slots: seq<nat>, budget: nat) returns (used: nat, ghost flights: seq<Attempt>)
      requires Kept(plan, Now()) && forall i, j :: 0 <= i < j < |slots| ==> slots[i] < slots[j]
      requires forall i :: 0 <= i < |slots| ==> slots[i] < |pop| && !pop[slots[i]].valid && !pop[slots[i]].illegal
      modifies this`clock, this`log, this`pop, this`evaluated, this`maxGoodDuration, this`everyone, everyone
      ensures Kept(plan, Now()) && old(everyone) <= everyone && fresh(everyone - old(everyone))
      ensures log == old(log) + flights && used == |flights| && Least(|slots|, budget) <= used <= budget
      ensures AreOn(Operation.Evaluate, old(pop), flights)
      ensures Replaced(plan.cfg, old(pop), pop)
      ensures slots == [] ==> used == 0 && pop == old(pop) && Standing(pop) == old(Standing(pop))
      ensures NichesKept(old(Profile(pop)), Profile(pop), plan.counts)
      ensures slots == [] && old(NothingToFly()) ==> NothingToFly()
    {
      hide *;
      ghost var b := Now();
      var candidates := seq(|slots|, i requires 0 <= i < |slots| && slots[i] < |pop| reads this => pop[slots[i]]);
      ChosenAreFree(plan, b, slots, candidates);
      forall k | 0 <= k < |pop| ensures pop[k] in candidates ==> pop[k].fitness == Infinite {
        FreeIsUnscored(plan, b, k);
        Shows(pop[k]);
      }
      forall i | 0 <= i < |slots| ensures candidates[i] in everyone && candidates[i] in pop {
        FreeIsUnscored(plan, b, slots[i]);
      }
      ghost var ctx;
      used, ctx, flights := FlyCandidates(candidates, budget);
      RunsAreOn(Operation.Evaluate, pop, candidates, flights);
      SettleFlight(slots, candidates);
      forall k | 0 <= k < |pop|
        ensures ExtendedLe(pop[k].fitness, old(pop[k].fitness))
      {
        NoWorse(pop[k].fitness, old(pop[k].fitness));
      }
      SlotwiseKept(old(Profile(pop)), Profile(pop), plan.counts);
    }

    /** The members already flown. */
    method Elites() returns (elites: seq<Individual>)
      ensures forall i :: 0 <= i < |elites| ==> elites[i] in pop && elites[i].valid
      ensures |elites| == CountTrue(Standing(pop)) && (Distinct(pop) ==> Distinct(elites))
      ensures forall k :: 0 <= k < |pop| && pop[k].valid ==> pop[k] in elites
    {
      elites := [];
      for k := 0 to |pop|
        invariant forall i :: 0 <= i < |elites| ==> elites[i] in pop && elites[i].valid
        invariant |elites| == CountTrue(Standing(pop)[..k]) && (Distinct(pop) ==> Distinct(elites))
        invariant forall i :: 0 <= i < |elites| ==> elites[i] in pop[..k]
        invariant forall i :: 0 <= i < k && pop[i].valid ==> pop[i] in elites
      {
        assert pop[..k + 1] == pop[..k] + [pop[k]] && (Distinct(pop) ==> pop[k] !in pop[..k]);
        assert Standing(pop)[..k + 1][..k] == Standing(pop)[..k];
        if pop[k].valid {
          elites := elites + [pop[k]];
        }
      }
      assert Standing(pop)[..|pop|] == Standing(pop);
    }

    /**
     If wanted, runs the carried-over elites again with as many attempts as there are of them, when the budget leaves
     room for more than that. A retried flake may take the attempt meant for another elite.
     */
    method ConfirmElites(remaining: nat)
        returns (used: nat, ghost elites: seq<Individual>, ghost trace: seq<Attempt>)
      requires Kept(plan, Now())
      modifies this`clock, this`log, everyone
      ensures Kept(plan, Now())
      ensures forall k :: 0 <= k < |pop| ==> pop[k].valid == old(pop[k].valid) && pop[k].illegal == old(pop[k].illegal)
      ensures used == Confirmations(plan.cfg, CountTrue(Standing(pop)), remaining)
      ensures log == old(log) + trace && |trace| == used
      ensures forall k :: 0 <= k < used ==> IsRun(Operation.Rerun, elites, trace[k])
      ensures |elites| == CountTrue(Standing(pop)) && Distinct(elites)
      ensures forall i :: 0 <= i < |elites| ==> elites[i] in pop && elites[i].valid
      ensures used > 0 && (plan.cfg.maxFlakeRetries == 0 || used <= plan.cfg.parallelWorkers) ==> EachOnce(trace, used)
      ensures Standing(pop) == old(Standing(pop))
      ensures !plan.cfg.rerunElites ==> used == 0 && Profile(pop) == old(Profile(pop))
    {
      hide Now, Kept, CountTrue, Individual.View, EachOnce;
      var flown := Elites();
      elites, trace, used := flown, [], 0;
      KeptPopIsDistinct(plan, Now());
      if !plan.cfg.rerunElites || flown == [] || remaining <= |flown| { return; }
      ghost var flags := Standing(pop);
      used, trace := Confirm(flown);
      assert Standing(pop) == flags;
    }

    /** As many more runs of the given flown members as there are of them. */
    method Confirm(elites: seq<Individual>) returns (used: nat, ghost trace: seq<Attempt>)
      requires Kept(plan, Now()) && Distinct(elites)
      requires forall i :: 0 <= i < |elites| ==> elites[i] in pop && elites[i].valid
      modifies this`clock, this`log, everyone
      ensures Kept(plan, Now()) && log == old(log) + trace && used == |trace| == |elites|
      ensures forall k :: 0 <= k < used ==> IsRun(Operation.Rerun, elites, trace[k])
      ensures plan.cfg.maxFlakeRetries == 0 || used <= plan.cfg.parallelWorkers ==> EachOnce(trace, used)
      ensures forall k :: 0 <= k < |pop| ==> pop[k].valid == old(pop[k].valid) && pop[k].illegal == old(pop[k].illegal)
    {
      hide Now, KeptBut, Individual.View, Closed, Retried, Runs, Made, Sound, Usable, Batch, EachOnce;
      ghost var b := Now();
      forall i | 0 <= i < |elites| ensures elites[i] in evaluated && elites[i] in everyone {
        Shows(elites[i]);
        ValidIsEvaluated(plan, b, elites[i]);
      }
      forall k | 0 <= k < |pop|
        ensures pop[k] in everyone && b.lives[pop[k]].valid == pop[k].valid && b.lives[pop[k]].illegal == pop[k].illegal
      {
        MemberFacts(plan, b, [], k);
        Shows(pop[k]);
      }
      ghost var ctx;
      used, ctx, trace := RerunAndRescore(elites, elites, |elites|, true);
      forall k | 0 <= k < |pop| ensures pop[k].valid == old(pop[k].valid) && pop[k].illegal == old(pop[k].illegal) {
        Shows(pop[k]);
        assert Now().lives[pop[k]].valid == b.lives[pop[k]].valid;
      }
      OneAttemptForEachExactly(ctx, elites);
    }

    lemma Offers(free: seq<nat>)
      requires forall i :: 0 <= i < |free| ==> free[i] < |pop| && !pop[free[i]].valid && !pop[free[i]].illegal
      requires forall k :: 0 <= k < |pop| && !pop[k].valid && !pop[k].illegal ==> k in free
      ensures free == [] <==> NothingToFly()
    {
      assert free != [] ==> !pop[free[0]].valid && !pop[free[0]].illegal;
    }

    /** The free slots, after breeding a new generation if there were none. */
    method SlotsToFly() returns (free: seq<nat>)
      requires Kept(plan, Now())
      modifies this`pop, this`gen, this`everyone, this`history
      ensures Kept(plan, Now()) && old(everyone) <= everyone && fresh(everyone - old(everyone))
      ensures if old(NothingToFly()) then
                gen == old(gen) + 1 && HasBred(plan, old(history), old(Census(pop)), pop, history)
              else gen == old(gen) && pop == old(pop) && history == old(history) && free != []
      ensures forall i :: 0 <= i < |free| ==> free[i] < |pop| && !pop[free[i]].valid && !pop[free[i]].illegal
      ensures forall i, j :: 0 <= i < j < |free| ==> free[i] < free[j]
      ensures forall k :: 0 <= k < |pop| && !pop[k].valid && !pop[k].illegal ==> k in free
      ensures free == [] ==> NothingToFly()
      ensures Standing(pop) == FlownIn(old(Census(pop)), pop)
      ensures plan.cfg.evolve && plan.cfg.elitePerNiche >= 1 ==>
                NichesKept(old(Profile(pop)), Profile(pop), plan.counts)
    {
      hide *;
      free := FreeSlots();
      KeptPopIsDistinct(plan, Now());
      StillFlown(Census(pop), pop, pop);
      NoneLost(Profile(pop), plan.counts);
      Offers(free);
      if free == [] {
        Breed();
        free := FreeSlots();
        Offers(free);
      }
    }

    /** Confirms the elites if wanted, then flies as many of the free slots as the budget allows. */
    method ConfirmAndFly(free: seq<nat>, remaining: nat)
        returns (confirming: nat, used: nat, ghost confirms: seq<Attempt>, ghost flights: seq<Attempt>)
      requires Kept(plan, Now()) && remaining > 0
      requires forall i :: 0 <= i < |free| ==> free[i] < |pop| && !pop[free[i]].valid && !pop[free[i]].illegal
      requires forall i, j :: 0 <= i < j < |free| ==> free[i] < free[j]
      requires free == [] ==> NothingToFly()
      modifies this`clock, this`log, this`pop, this`evaluated, this`maxGoodDuration, this`everyone, everyone
      ensures Kept(plan, Now()) && old(everyone) <= everyone && fresh(everyone - old(everyone))
      ensures log == old(log) + confirms + flights && confirming == |confirms| && used == |flights|
      ensures confirming == Confirmations(plan.cfg, CountTrue(old(Standing(pop))), remaining)
      ensures AreOn(Operation.Rerun, old(pop), confirms) && AreOn(Operation.Evaluate, old(pop), flights)
      ensures Least(|free|, remaining - confirming) <= used <= remaining - confirming
      ensures used == 0 <==> free == []
      ensures Replaced(plan.cfg, old(pop), pop)
      ensures used == 0 ==> NothingToFly() && Standing(pop) == old(Standing(pop))
      ensures !plan.cfg.rerunElites ==> confirming == 0 && NichesKept(old(Profile(pop)), Profile(pop), plan.counts)
    {
      hide Now, Kept, NichesKept, Profile, CountTrue, Replaced, EachOnce;
      var slots := free[..Least(remaining, |free|)];
      ghost var elites;
      confirming, elites, confirms := ConfirmElites(remaining);
      slots := slots[..Least(remaining - confirming, |slots|)];
      used, flights := FlySlots(slots, remaining - confirming);
    }

    /** One round: breeds if nothing is left to fly, confirms the elites if wanted, and flies the free slots. */
    method DiscoveryRound(remaining: nat)
        returns (confirming: nat, used: nat, ghost flock: seq<Individual>, ghost confirms: seq<Attempt>,
                 ghost flights: seq<Attempt>)
      requires Kept(plan, Now()) && remaining > 0
      modifies this, everyone
      ensures Kept(plan, Now()) && old(everyone) <= everyone && fresh(everyone - old(everyone))
      ensures if old(NothingToFly()) then HasBred(plan, old(history), old(Census(pop)), flock, history)
              else flock == old(pop) && history == old(history)
      ensures Replaced(plan.cfg, flock, pop)
      ensures log == old(log) + confirms + flights && confirming == |confirms| && used == |flights|
      ensures AreOn(Operation.Rerun, flock, confirms) && AreOn(Operation.Evaluate, flock, flights)
      ensures |rounds| == |old(rounds)| + 1 && rounds[..|old(rounds)|] == old(rounds)
      ensures var r := rounds[|old(rounds)|];
              && r.bred == old(NothingToFly()) && r.used == used && r.confirming == confirming
              && confirming + used <= remaining && used >= Least(r.free, remaining - confirming)
              && (used == 0 <==> r.free == 0) && (r.free == 0 ==> r.bred)
      ensures old(Lineage(plan, gen, history, rounds)) ==> Lineage(plan, gen, history, rounds)
      ensures confirming == Confirmations(plan.cfg, CountTrue(FlownIn(old(Census(pop)), flock)), remaining)
      ensures !plan.cfg.rerunElites ==> confirming == 0
      ensures used == 0 ==> NothingToFly()
      ensures Elitist(plan.cfg) ==> NichesKept(old(Profile(pop)), Profile(pop), plan.counts)
    {
      hide *;
      ghost var before, past, census := Profile(pop), rounds, Census(pop);
      ghost var nothing := NothingToFly();
      var free := SlotsToFly();
      flock := pop;
      ghost var bred := Profile(pop);
      confirming, used, confirms, flights := ConfirmAndFly(free, remaining);
      rounds := rounds + [Round(nothing, |free|, used, confirming)];
      LineageGrows(plan, old(gen), old(history), past, gen, history, rounds[|past|], census, flock);
      ElitistMeans(plan.cfg);
      if Elitist(plan.cfg) { KeptTwice(before, bred, Profile(pop), plan.counts); }
    }

    /** Spends up to the budget on new layouts; gives up after several rounds in a row that had none to offer. */
    method RunDiscovery(budget: nat) returns (used: nat)
      requires Kept(plan, Now()) && Lineage(plan, gen, history, rounds)
      modifies this, everyone
      ensures Kept(plan, Now()) && Lineage(plan, gen, history, rounds)
      ensures old(everyone) <= everyone && fresh(everyone - old(everyone))
      ensures old(log) <= log && |log| == old(|log|) + used && used <= budget
      ensures used < budget ==>
                Stalled(rounds, NoProgressLimit(plan.cfg)) && |rounds| >= |old(rounds)| + NoProgressLimit(plan.cfg)
      ensures used < budget ==> NothingToFly()
      ensures !plan.cfg.rerunElites ==> FirstFlights(log[|old(log)|..])
      ensures Elitist(plan.cfg) ==> NichesKept(old(Profile(pop)), Profile(pop), plan.counts)
    {
      hide *;
      used := 0;
      var noProgressRounds := 0;
      ghost var before, start, past, known := Profile(pop), log, |rounds|, everyone;
      NoneLost(before, plan.counts);
      NeverStalled(rounds);
      NoFlights();
      ghost var made: seq<Attempt> := [];
      while used < budget && noProgressRounds < NoProgressLimit(plan.cfg)
        invariant Kept(plan, Now()) && Lineage(plan, gen, history, rounds)
        invariant known <= everyone && fresh(everyone - known)
        invariant log == start + made && |made| == used <= budget
        invariant !plan.cfg.rerunElites ==> FirstFlights(made)
        invariant noProgressRounds <= NoProgressLimit(plan.cfg)
        invariant |rounds| >= past + noProgressRounds && Stalled(rounds, noProgressRounds)
        invariant noProgressRounds > 0 ==> NothingToFly()
        invariant Elitist(plan.cfg) ==> NichesKept(before, Profile(pop), plan.counts)
        decreases budget - used, NoProgressLimit(plan.cfg) - noProgressRounds
      {
        ghost var mid := Profile(pop);
        var confirming, usedNow, flock, confirms, flights := DiscoveryRound(budget - used);
        if Elitist(plan.cfg) { KeptTwice(before, mid, Profile(pop), plan.counts); }
        if !plan.cfg.rerunElites { MoreFlights(made, flock, confirms, flights); }
        StallGrows(rounds, noProgressRounds);
        made := made + (confirms + flights);
        used := used + confirming + usedNow;
        if usedNow == 0 {
          noProgressRounds := noProgressRounds + 1;
        } else {
          noProgressRounds := 0;
        }
      }
      assert log[|start|..] == made;
    }
  }

  /** Three rounds without progress, or maxRetries if that is more. */
  function NoProgressLimit(cfg: Config): (n: nat)
    ensures n >= 3 && n >= cfg.maxRetries && (n == 3 || n == cfg.maxRetries)
  {
    if cfg.maxRetries >= 3 then cfg.maxRetries else 3
  }

  /** The last n rounds bred and still had nothing to fly. */
  ghost predicate Stalled(rounds: seq<Round>, n: nat) {
    && n <= |rounds|
    && forall k :: |rounds| - n <= k < |rounds| ==> rounds[k].bred && rounds[k].free == rounds[k].used == 0
  }


  /** The settings under which the best of a niche cannot be lost. */
  predicate Elitist(cfg: Config) { cfg.evolve && !cfg.rerunElites && cfg.elitePerNiche >= 1 }

  lemma ElitistMeans(cfg: Config)
    ensures Elitist(cfg) ==> cfg.evolve && cfg.elitePerNiche >= 1 && !cfg.rerunElites
  {}

  lemma ValidIsEvaluated(plan: Plan, b: Books, x: Individual)
    requires Kept(plan, b) && x in b.pop && (x in b.lives ==> b.lives[x].valid)
    ensures x in b.evaluated && x in b.lives
  {
    hide AllSane, Workable, Patient, LegalLog, Distinct;
    var k :| 0 <= k < |b.pop| && b.pop[k] == x;
  }


  lemma NoWorse(a: Extended, b: Extended)
    ensures a == b || b == Infinite ==> ExtendedLe(a, b)
  {}

  lemma ChosenAreFree(plan: Plan, b: Books, slots: seq<nat>, candidates: seq<Individual>)
    requires Kept(plan, b) && |candidates| == |slots| && forall i, j :: 0 <= i < j < |slots| ==> slots[i] < slots[j]
    requires forall i :: 0 <= i < |slots| ==> slots[i] < |b.pop| && b.pop[slots[i]] == candidates[i]
    requires forall i :: 0 <= i < |slots| && candidates[i] in b.lives ==> b.lives[candidates[i]] == candidates[i].View()
    requires forall i :: 0 <= i < |slots| ==> !candidates[i].valid && !candidates[i].illegal
    ensures Distinct(candidates) && FreeMembers(b, candidates)
  {
    hide AllSane, Workable, Patient, LegalLog, Roll;
  }


  method Successors(plan: Plan, pop: seq<Individual>) returns (next: seq<Individual>, ghost g: Generation)
    requires Workable(plan) && Ready(plan.world, pop)
    ensures |next| == |plan.counts| && Distinct(next)
    ensures forall k :: 0 <= k < |next| ==>
              && |next[k].obstacles| == plan.counts[k]
              && (next[k] in pop || (fresh(next[k]) && Newborn(plan.world, plan.cfg, next[k], plan.counts[k])))
    ensures g.census == Census(pop) && g.next == next && ByTheRules(plan, g)
    ensures Standing(next) == FlownIn(g.census, next)
    ensures plan.cfg.evolve && plan.cfg.elitePerNiche >= 1 ==> NichesKept(Profile(pop), Profile(next), plan.counts)
  {
    hide Newborn, Sound, Usable, Ready, Succeeds, Profile, NichesKept, Seeded;
    ghost var walls, gates := Shares(0, 0, 0), Shares(0, 0, 0);
    if plan.cfg.evolve {
      next, walls, gates := NextGeneration(plan.cfg, plan.world, pop, plan.counts);
      SuccessorsFill(plan, Census(pop), next, walls, gates);
    } else {
      next := Seeds(plan);
    }
    forall k | 0 <= k < |next| && next[k] !in pop ensures |next[k].obstacles| == plan.counts[k] && !next[k].valid {
      NewbornCount(plan, next[k], plan.counts[k]);
    }
    ReadyIsDistinct(plan.world, pop);
    StillFlown(Census(pop), pop, next);
    g := Generation(Census(pop), next, walls, gates);
    ReadyIsFlown(plan.world, pop);
    if plan.cfg.evolve && plan.cfg.elitePerNiche >= 1 { SuccessorsKeepBest(plan, pop, g); }
  }

  lemma ReadyIsFlown(world: World, pop: seq<Individual>)
    requires Ready(world, pop)
    ensures forall i :: 0 <= i < |pop| ==> pop[i].valid || pop[i].illegal
  {
    hide Made;
  }

  lemma SuccessorsFill(plan: Plan, census: seq<Member>, next: seq<Individual>, walls: Shares, gates: Shares)
    requires Succeeds(plan.world, plan.cfg, census, plan.counts, next, walls, gates)
    ensures |next| == |plan.counts| && Distinct(next)
    ensures forall k :: 0 <= k < |next| ==> |next[k].obstacles| == plan.counts[k]
  {
    hide WellShared, FromPairs, Seeded;
  }

  lemma SuccessorsKeepBest(plan: Plan, pop: seq<Individual>, g: Generation)
    requires Ready(plan.world, pop) && g.census == Census(pop) && plan.cfg.elitePerNiche >= 1
    requires Succeeds(plan.world, plan.cfg, g.census, plan.counts, g.next, g.walls, g.gates)
    ensures NichesKept(Profile(pop), Profile(g.next), plan.counts)
  {
    hide Succeeds, Count, Matched, Made;
    forall i | 0 <= i < |pop| && Count(|pop[i].obstacles|, plan.counts) >= 2
      ensures Matched(Profile(pop)[i], Profile(g.next))
    {
      KindOfCount(plan.world, pop[i]);
      var k, m := BestIsKept(plan.world, plan.cfg, g.census, plan.counts, g.next, g.walls, g.gates, i);
      MatchedAt(Profile(pop)[i], Profile(g.next), k);
    }
  }

  lemma NewbornCount(plan: Plan, x: Individual, n: nat)
    requires Newborn(plan.world, plan.cfg, x, n)
    ensures |x.obstacles| == n && !x.valid
  {}

  lemma GrownNow(plan: Plan, b: Books, c: Books)
    requires c.log == b.log && c.evaluated == b.evaluated && b.lives.Keys <= c.lives.Keys
    requires forall x :: x in b.lives ==> c.lives[x] == b.lives[x]
    requires forall x :: x in c.lives && x !in b.lives ==> NewbornLife(plan, x, c.lives[x])
    ensures Grown(plan, b, c)
  {}

  /** One newborn per slot of the schedule. */
  method Seeds(plan: Plan) returns (next: seq<Individual>)
    requires Workable(plan)
    ensures |next| == |plan.counts| && Distinct(next)
    ensures forall k :: 0 <= k < |next| ==> fresh(next[k]) && Newborn(plan.world, plan.cfg, next[k], plan.counts[k])
    ensures forall k :: 0 <= k < |next| ==> Seeded(plan.cfg, plan.world, next[k].genes)
  {
    hide Newborn, Sound, Usable, Seeded;
    next := [];
    for k := 0 to |plan.counts|
      invariant |next| == k && Distinct(next)
      invariant forall i :: 0 <= i < k ==> fresh(next[i]) && Newborn(plan.world, plan.cfg, next[i], plan.counts[i])
      invariant forall i :: 0 <= i < k ==> Seeded(plan.cfg, plan.world, next[i].genes)
    {
      var x, _ := FreshIndividual(plan.cfg, plan.world, plan.counts[k]);
      assert x !in next;
      next := next + [x];
    }
  }

  lemma KeptIsReady(plan: Plan, b: Books)
    requires Kept(plan, b)
    requires forall k :: 0 <= k < |b.pop| ==> b.pop[k].valid || b.pop[k].illegal
    ensures Ready(plan.world, b.pop) && forall k :: 0 <= k < |b.pop| ==> b.pop[k] in b.lives
  {}


  /** The attempt is one on the individual of its job. */
  ghost predicate IsRun(op: Operation, jobs: seq<Individual>, a: Attempt) {
    a.op == op && a.job < |jobs| && a.ind == jobs[a.job]
  }

  /** All attempts are on members of the flock. */
  ghost predicate AreOn(op: Operation, flock: seq<Individual>, trace: seq<Attempt>) {
    forall k :: 0 <= k < |trace| ==> trace[k].op == op && trace[k].ind in flock
  }

  /** None of the attempts is a rerun. */
  ghost predicate FirstFlights(trace: seq<Attempt>) {
    forall k :: 0 <= k < |trace| ==> trace[k].op == Operation.Evaluate
  }

  lemma MoreFlights(sofar: seq<Attempt>, flock: seq<Individual>, confirms: seq<Attempt>, flights: seq<Attempt>)
    requires FirstFlights(sofar) && confirms == [] && AreOn(Operation.Evaluate, flock, flights)
    ensures FirstFlights(sofar + (confirms + flights))
  {}

  lemma NoFlights()
    ensures FirstFlights([])
  {}

  lemma RunsAreOn(op: Operation, flock: seq<Individual>, jobs: seq<Individual>, trace: seq<Attempt>)
    requires forall k :: 0 <= k < |trace| ==> IsRun(op, jobs, trace[k])
    requires forall j :: 0 <= j < |jobs| ==> jobs[j] in flock
    ensures AreOn(op, flock, trace) && (jobs == [] ==> trace == [])
  {
    assert trace != [] ==> IsRun(op, jobs, trace[0]);
  }

  lemma AreRuns(ctx: Context, op: Operation, jobs: seq<Individual>, trace: seq<Attempt>, b: Books, c: Books)
    requires BatchDone(ctx, op, jobs, trace, b, c)
    ensures forall k :: 0 <= k < |trace| ==> IsRun(op, jobs, trace[k])
  {
    hide OutcomeOf, Measured, Replay, Of;
  }

  /** Settling the flown slots replaces exactly the members given up, and those had no fitness to lose. */
  lemma SettledReplaces(cfg: Config, everyone: set<Individual>, slots: seq<nat>, candidates: seq<Individual>,
                        lives: seq<Vitals>, before: Desk, after: Desk)
    requires |slots| == |candidates| == |lives|
    requires SettledFirst(cfg, everyone, slots, candidates, lives, before, |slots|, after)
    requires forall i :: 0 <= i < |slots| ==> slots[i] < |before.pop| && before.pop[slots[i]] == candidates[i]
    requires forall i :: 0 <= i < |slots| ==> UpToGeneration(lives[i], candidates[i].View())
    requires Distinct(before.pop) && forall k :: 0 <= k < |before.pop| ==> before.pop[k] in everyone
    requires forall k :: 0 <= k < |before.pop| && before.pop[k] !in candidates ==> !GaveUp(cfg, before.pop[k].View())
    ensures Replaced(cfg, before.pop, after.pop) && |after.pop| == |before.pop|
    ensures forall k :: 0 <= k < |after.pop| ==> |after.pop[k].obstacles| == |before.pop[k].obstacles|
    ensures forall k :: 0 <= k < |after.pop| && before.pop[k] !in candidates ==> after.pop[k] == before.pop[k]
  {
    hide Entrants, IsLongest, Individual.View;
    assert slots[..|slots|] == slots;
    assert forall x :: x in before.pop ==> x in everyone;
    forall k | 0 <= k < |before.pop|
      ensures |after.pop[k].obstacles| == |before.pop[k].obstacles|
      ensures if GaveUp(cfg, before.pop[k].View()) then after.pop[k] !in before.pop else after.pop[k] == before.pop[k]
      ensures before.pop[k] !in candidates ==> after.pop[k] == before.pop[k]
    {
      if k in slots {
        var i :| 0 <= i < |slots| && slots[i] == k;
        assert candidates[i] in candidates;
      } else {
        assert after.pop[k] == before.pop[k];
        assert forall i :: 0 <= i < |slots| ==> slots[i] in slots;
      }
    }
  }

  /** Whoever did not fly still has attempts left, if he has to fly at all. */
  lemma OthersArePatient(plan: Plan, b: Books, waiting: seq<Individual>, k: nat)
    requires KeptBut(plan, b, waiting) && k < |b.pop| && b.pop[k] !in waiting
    ensures b.pop[k] in b.lives && !GaveUp(plan.cfg, b.lives[b.pop[k]])
  {
    hide AllSane, Told, Roll, LegalLog, Workable, Distinct;
    assert Free(b, b.pop[k]) ==> b.lives[b.pop[k]].attempts < plan.cfg.maxRunFailures;
  }

  lemma PopIsDistinct(plan: Plan, b: Books, waiting: seq<Individual>)
    requires KeptBut(plan, b, waiting)
    ensures Distinct(b.pop)
  {}

  lemma KeptPopIsDistinct(plan: Plan, b: Books)
    requires Kept(plan, b)
    ensures Distinct(b.pop)
  {}

  lemma StandingTwice(a: Books, b: Books, c: Books)
    requires SameStanding(a, b) && SameStanding(b, c)
    ensures SameStanding(a, c)
  {}

  lemma EvaluatedIsMeasured(plan: Plan, b: Books, x: Individual)
    requires Kept(plan, b) && x in b.evaluated
    ensures x in b.lives && Measured(x.obstacles, b.lives[x]) && b.lives[x].valid
  {}

  lemma MemberFacts(plan: Plan, b: Books, waiting: seq<Individual>, slot: nat)
    requires KeptBut(plan, b, waiting) && slot < |b.pop|
    ensures var x := b.pop[slot];
            && x in b.lives && (|x.obstacles| == 1 || |x.obstacles| == 2)
            && (!b.lives[x].valid ==> b.lives[x].fitness == Infinite)
            && Made(plan.world, x.genes, x.obstacles)
    ensures Usable(plan.cfg) && Sound(plan.world)
  {}

  lemma FreeIsUnscored(plan: Plan, b: Books, slot: nat)
    requires Kept(plan, b) && slot < |b.pop|
    ensures b.pop[slot] in b.lives && (!b.lives[b.pop[slot]].valid ==> b.lives[b.pop[slot]].fitness == Infinite)
  {}

  lemma NewbornStarts(plan: Plan, x: Individual, n: nat)
    requires Newborn(plan.world, plan.cfg, x, n) && n > 0
    ensures NewbornLife(plan, x, x.View()) && |x.obstacles| == n && !x.valid && x.fitness == Infinite && x.attempts == 0
  {}

  lemma Shows(x: Individual)
    ensures var v := x.View(); v.valid == x.valid && v.illegal == x.illegal && v.attempts == x.attempts
    ensures x.View().fitness == x.fitness && x.View().stuck == x.stuck && x.View().duration == x.duration
    ensures var v := x.View(); v.distances == x.distances && v.testCase == x.testCase && v.generation == x.generation
  {}


  lemma BatchIsDone(ctx: Context, op: Operation, jobs: seq<Individual>, trace: seq<Attempt>, b: Books, c: Books,
                    states: seq<Vitals>, after: seq<Vitals>)
    requires forall k :: 0 <= k < |trace| ==> Faithful(ctx, op, jobs, trace[k])
    requires c.lives.Keys == b.lives.Keys && c.pop == b.pop && c.evaluated == b.evaluated && c.log == b.log + trace
    requires AllMeasured(jobs, states) && Replayed(ctx, op, jobs, states, after, trace)
    requires forall j :: 0 <= j < |jobs| ==>
              jobs[j] in b.lives && b.lives[jobs[j]] == states[j] && c.lives[jobs[j]] == after[j]
    requires forall x :: x in b.lives && x !in jobs ==> c.lives[x] == b.lives[x]
    ensures BatchDone(ctx, op, jobs, trace, b, c)
  {}

  lemma BatchLog(ctx: Context, op: Operation, jobs: seq<Individual>, trace: seq<Attempt>, b: Books, c: Books)
    requires BatchDone(ctx, op, jobs, trace, b, c)
    ensures c.log == b.log + trace
  {}

  lemma KeptIsWorkable(plan: Plan, b: Books)
    requires Kept(plan, b)
    ensures Workable(plan) && plan.cfg.parallelWorkers >= 1
  {}
}
