/** Running simulator jobs in waves with flake retries under one attempt budget (generator.py). */
module Scheduler {
  import opened Boxes
  import opened Sorting
  import opened Individuals

  /** One attempt of a batch: which operation, for which job and individual, and what came of it. */
  datatype Attempt = Attempt(op: Operation, job: nat, ind: Individual, reply: Reply, outcome: Outcome)

  datatype Pending = Pending(job: nat, retries: nat)

  /** Whose attempts to look at: those of one job, or those of one individual. */
  datatype Owner = OfJob(job: nat) | OfIndividual(ind: Individual)

  ghost predicate Owns(owner: Owner, a: Attempt) {
    match owner
    case OfJob(job) => a.job == job
    case OfIndividual(ind) => a.ind == ind
  }

  ghost function Select(trace: seq<Attempt>, owner: Owner): (r: seq<Attempt>)
    ensures |r| <= |trace|
  {
    if trace == [] then []
    else
      var n := |trace| - 1;
      Select(trace[..n], owner) + if Owns(owner, trace[n]) then [trace[n]] else []
  }

  /** The attempts made for one job, in order. */
  ghost function Runs(trace: seq<Attempt>, job: nat): seq<Attempt> { Select(trace, OfJob(job)) }

  /** The attempts made on one individual, in order. */
  ghost function Of(trace: seq<Attempt>, ind: Individual): seq<Attempt> { Select(trace, OfIndividual(ind)) }

  /** The number of attempts that reached the simulator. */
  ghost function Launched(trace: seq<Attempt>): nat {
    if trace == [] then 0 else Launched(trace[..|trace| - 1]) + if trace[|trace| - 1].outcome == Skipped then 0 else 1
  }

  /** The state an individual is in after the given attempts. */
  ghost function Replay(ctx: Context, op: Operation, boxes: seq<Box>, v: Vitals, runs: seq<Attempt>): (w: Vitals)
    requires Measured(boxes, v)
    ensures Measured(boxes, w)
  {
    if runs == [] then v
    else AttemptStep(ctx, op, boxes, Replay(ctx, op, boxes, v, runs[..|runs| - 1]), runs[|runs| - 1].reply)
  }

  /** Flakes only, at most as many as there are retries. */
  ghost predicate StillRetrying(runs: seq<Attempt>, maxRetries: nat) {
    |runs| <= maxRetries && forall i :: 0 <= i < |runs| ==> runs[i].outcome == Flake
  }

  /** Flakes, then one attempt that settles the job: no flake, or the last one allowed. */
  ghost predicate Closed(runs: seq<Attempt>, maxRetries: nat) {
    && 0 < |runs| <= maxRetries + 1
    && (forall i :: 0 <= i < |runs| - 1 ==> runs[i].outcome == Flake)
    && (runs[|runs| - 1].outcome != Flake || |runs| == maxRetries + 1)
  }

  ghost predicate Faithful(ctx: Context, op: Operation, jobs: seq<Individual>, a: Attempt) {
    a.op == op && a.job < |jobs| && a.ind == jobs[a.job] && a.outcome == OutcomeOf(ctx, op, a.ind.obstacles, a.reply)
  }

  // ---- one wave ---------------------------------------------------------------------------------

  function Indices(n: nat): (r: set<nat>)
    ensures forall i: nat :: i in r <==> i < n
  {
    if n == 0 then {} else Indices(n - 1) + {n - 1}
  }

  method RunOne(ctx: Context, op: Operation, ind: Individual, r: Reply) returns (outcome: Outcome)
    requires Measured(ind.obstacles, ind.View())
    modifies ind
    ensures outcome == OutcomeOf(ctx, op, ind.obstacles, r)
    ensures old(Measured(ind.obstacles, ind.View()))
    ensures ind.View() == AttemptStep(ctx, op, ind.obstacles, old(ind.View()), r)
  {
    hide OutcomeOf, Measured, EvaluateStep, RerunStep;
    if op == Operation.Evaluate {
      outcome := ind.Evaluate(ctx, r);
    } else {
      outcome := ind.Rerun(ctx, r);
    }
  }

  /**
   Runs the jobs of one wave. The loop takes them in any order, as a pool of workers may; the result is the same for
   every order, because each job writes its own individual only.
   */
  method RunParallelBatch(ctx: Context, op: Operation, wave: seq<Individual>, replies: seq<Reply>)
      returns (outcomes: seq<Outcome>)
    requires Distinct(wave) && |replies| == |wave|
    requires forall i :: 0 <= i < |wave| ==> Measured(wave[i].obstacles, wave[i].View())
    modifies wave
    ensures |outcomes| == |wave|
    ensures forall i :: 0 <= i < |wave| ==>
              && outcomes[i] == OutcomeOf(ctx, op, wave[i].obstacles, replies[i])
              && old(Measured(wave[i].obstacles, wave[i].View()))
              && wave[i].View() == AttemptStep(ctx, op, wave[i].obstacles, old(wave[i].View()), replies[i])
  {
    hide OutcomeOf, Measured, AttemptStep, Individual.View, Indices;
    var done: map<nat, Outcome> := map[];
    var waiting := Indices(|wave|);
    while waiting != {}
      invariant waiting <= Indices(|wave|)
      invariant forall i :: 0 <= i < |wave| ==> (i in waiting || i in done)
      invariant forall i :: 0 <= i < |wave| && i in waiting ==> wave[i].View() == old(wave[i].View())
      invariant forall i :: 0 <= i < |wave| && i !in waiting ==>
                  && i in done && done[i] == OutcomeOf(ctx, op, wave[i].obstacles, replies[i])
                  && wave[i].View() == AttemptStep(ctx, op, wave[i].obstacles, old(wave[i].View()), replies[i])
      decreases waiting
    {
      var i :| i in waiting;
      var outcome := RunOne(ctx, op, wave[i], replies[i]);
      done := done[i := outcome];
      waiting := waiting - {i};
    }
    outcomes := seq(|wave|, i requires 0 <= i < |wave| && i in done => done[i]);
  }

  ghost predicate DistinctJobs(pending: seq<Pending>) {
    forall i, j :: 0 <= i < j < |pending| ==> pending[i].job != pending[j].job
  }

  /** The attempts the pending jobs may still make. */
  ghost function Allowance(pending: seq<Pending>, maxRetries: nat): nat
    requires WithinRetries(pending, maxRetries)
  {
    if pending == [] then 0
    else Allowance(pending[..|pending| - 1], maxRetries) + (maxRetries + 1 - pending[|pending| - 1].retries)
  }

  predicate InWave(jobs: seq<Individual>, batch: seq<Pending>, p: Pending)
    requires p.job < |jobs| && forall i :: 0 <= i < |batch| ==> batch[i].job < |jobs|
  {
    exists i :: 0 <= i < |batch| && jobs[batch[i].job] == jobs[p.job]
  }

  ghost predicate ValidJobs(jobs: seq<Individual>, pending: seq<Pending>) {
    forall i :: 0 <= i < |pending| ==> pending[i].job < |jobs|
  }

  datatype Wave = Wave(batch: seq<Pending>, deferred: seq<Pending>)

  /** The wave drawn from the front of the queue, at most one job per individual, and the jobs left waiting. */
  ghost function Split(jobs: seq<Individual>, pending: seq<Pending>, capacity: nat): (w: Wave)
    requires ValidJobs(jobs, pending)
    ensures ValidJobs(jobs, w.batch) && ValidJobs(jobs, w.deferred) && |w.batch| <= capacity
  {
    if pending == [] then Wave([], [])
    else
      var n := |pending| - 1;
      var w := Split(jobs, pending[..n], capacity);
      if |w.batch| < capacity && !InWave(jobs, w.batch, pending[n]) then Wave(w.batch + [pending[n]], w.deferred)
      else Wave(w.batch, w.deferred + [pending[n]])
  }

  method SplitWave(jobs: seq<Individual>, pending: seq<Pending>, capacity: nat)
      returns (batch: seq<Pending>, deferred: seq<Pending>)
    requires ValidJobs(jobs, pending)
    ensures Wave(batch, deferred) == Split(jobs, pending, capacity)
  {
    batch, deferred := [], [];
    var batched: set<Individual> := {};
    for k := 0 to |pending|
      invariant Wave(batch, deferred) == Split(jobs, pending[..k], capacity)
      invariant forall x :: x in batched <==> exists i :: 0 <= i < |batch| && jobs[batch[i].job] == x
    {
      var item := pending[k];
      assert pending[..k + 1][..k] == pending[..k];
      if |batch| < capacity && jobs[item.job] !in batched {
        ghost var before := batch;
        batched := batched + {jobs[item.job]};
        batch := batch + [item];
        assert forall i :: 0 <= i < |before| ==> batch[i] == before[i];
        assert jobs[batch[|before|].job] == jobs[item.job];
      } else {
        deferred := deferred + [item];
      }
    }
    assert pending[..|pending|] == pending;
  }

  lemma SplitMore(jobs: seq<Individual>, pending: seq<Pending>, p: Pending, capacity: nat)
    requires ValidJobs(jobs, pending) && p.job < |jobs|
    ensures ValidJobs(jobs, pending + [p])
    ensures var w := Split(jobs, pending, capacity);
            Split(jobs, pending + [p], capacity) ==
              if |w.batch| < capacity && !InWave(jobs, w.batch, p) then Wave(w.batch + [p], w.deferred)
              else Wave(w.batch, w.deferred + [p])
  {
    hide InWave;
    assert (pending + [p])[..|pending|] == pending;
  }

  lemma SplitNone(jobs: seq<Individual>, capacity: nat)
    ensures Split(jobs, [], capacity) == Wave([], [])
  {}

  /** No job is lost or doubled by the split. */
  lemma {:induction false} SplitPartitions(jobs: seq<Individual>, pending: seq<Pending>, capacity: nat)
    requires ValidJobs(jobs, pending)
    ensures var w := Split(jobs, pending, capacity); multiset(pending) == multiset(w.batch) + multiset(w.deferred)
  {
    hide InWave, Split;
    if pending == [] {
      SplitNone(jobs, capacity);
    } else {
      var n := |pending| - 1;
      SplitPartitions(jobs, pending[..n], capacity);
      SplitMore(jobs, pending[..n], pending[n], capacity);
      assert pending == pending[..n] + [pending[n]];
    }
  }

  ghost predicate Separate(jobs: seq<Individual>, batch: seq<Pending>)
    requires ValidJobs(jobs, batch)
  {
    forall i, j :: 0 <= i < j < |batch| ==> jobs[batch[i].job] != jobs[batch[j].job]
  }

  /** No wave holds two attempts on one individual. */
  lemma {:induction false} SplitSeparates(jobs: seq<Individual>, pending: seq<Pending>, capacity: nat)
    requires ValidJobs(jobs, pending)
    ensures Separate(jobs, Split(jobs, pending, capacity).batch)
  {
    if pending != [] {
      var n := |pending| - 1;
      SplitSeparates(jobs, pending[..n], capacity);
      var before := Split(jobs, pending[..n], capacity).batch;
      if !InWave(jobs, before, pending[n]) {
        SeparateMore(jobs, before, pending[n]);
      }
    }
  }

  lemma SeparateMore(jobs: seq<Individual>, batch: seq<Pending>, p: Pending)
    requires ValidJobs(jobs, batch) && p.job < |jobs| && Separate(jobs, batch) && !InWave(jobs, batch, p)
    ensures Separate(jobs, batch + [p])
  {}

  /** A job only waits when the wave is full or its individual is already in it; so a wave is never empty. */
  lemma {:induction false} SplitIsMaximal(jobs: seq<Individual>, pending: seq<Pending>, capacity: nat)
    requires ValidJobs(jobs, pending)
    ensures var w := Split(jobs, pending, capacity);
            && (forall i :: 0 <= i < |w.deferred| ==> |w.batch| == capacity || InWave(jobs, w.batch, w.deferred[i]))
            && (pending != [] && capacity > 0 ==> w.batch != [])
  {
    if pending != [] {
      var n := |pending| - 1;
      SplitIsMaximal(jobs, pending[..n], capacity);
      var before, w := Split(jobs, pending[..n], capacity), Split(jobs, pending, capacity);
      forall i | 0 <= i < |before.deferred| && InWave(jobs, before.batch, before.deferred[i])
        ensures InWave(jobs, w.batch, before.deferred[i])
      {
        var k :| 0 <= k < |before.batch| && jobs[before.batch[k].job] == jobs[before.deferred[i].job];
        assert w.batch[k] == before.batch[k];
      }
    }
  }

  lemma {:induction false} SplitAllowance(jobs: seq<Individual>, pending: seq<Pending>, capacity: nat, maxRetries: nat)
    requires ValidJobs(jobs, pending) && WithinRetries(pending, maxRetries)
    ensures var w := Split(jobs, pending, capacity);
            && WithinRetries(w.batch, maxRetries) && WithinRetries(w.deferred, maxRetries)
            && Allowance(w.batch, maxRetries) + Allowance(w.deferred, maxRetries) == Allowance(pending, maxRetries)
  {
    hide InWave, Allowance;
    if pending == [] {
      NoAllowance(maxRetries);
    } else {
      var n := |pending| - 1;
      SplitAllowance(jobs, pending[..n], capacity, maxRetries);
      var before := Split(jobs, pending[..n], capacity);
      AllowanceOfMore(pending[..n], pending[n], maxRetries);
      assert pending == pending[..n] + [pending[n]];
      AllowanceOfMore(before.batch, pending[n], maxRetries);
      AllowanceOfMore(before.deferred, pending[n], maxRetries);
    }
  }

  lemma NoAllowance(maxRetries: nat)
    ensures Allowance([], maxRetries) == 0
  {}

  lemma AllowanceOfMore(pending: seq<Pending>, p: Pending, maxRetries: nat)
    requires WithinRetries(pending, maxRetries) && p.retries <= maxRetries
    ensures Allowance(pending + [p], maxRetries) == Allowance(pending, maxRetries) + (maxRetries + 1 - p.retries)
  {}

  ghost predicate WithinRetries(pending: seq<Pending>, maxRetries: nat) {
    forall i :: 0 <= i < |pending| ==> pending[i].retries <= maxRetries
  }

  // ---- the whole batch --------------------------------------------------------------------------

  /** The flaked jobs of a wave that may be tried again. */
  function RetriesOf(batch: seq<Pending>, outcomes: seq<Outcome>, maxRetries: nat): seq<Pending>
    requires |batch| == |outcomes|
  {
    if batch == [] then []
    else
      var n := |batch| - 1;
      RetriesOf(batch[..n], outcomes[..n], maxRetries) +
      if outcomes[n] == Flake && batch[n].retries < maxRetries then [Pending(batch[n].job, batch[n].retries + 1)]
      else []
  }

  ghost function WaveTrace(op: Operation, jobs: seq<Individual>, batch: seq<Pending>, replies: seq<Reply>,
                           outcomes: seq<Outcome>): (t: seq<Attempt>)
    requires |batch| == |outcomes| == |replies| && ValidJobs(jobs, batch)
    ensures |t| == |batch|
  {
    seq(|batch|, i requires 0 <= i < |batch| => Attempt(op, batch[i].job, jobs[batch[i].job], replies[i], outcomes[i]))
  }

  method CollectOutcomes(batch: seq<Pending>, outcomes: seq<Outcome>, maxRetries: nat, ghost wave: seq<Attempt>)
      returns (retries: seq<Pending>, used: nat)
    requires |batch| == |outcomes| == |wave| && forall i :: 0 <= i < |batch| ==> wave[i].outcome == outcomes[i]
    ensures retries == RetriesOf(batch, outcomes, maxRetries) && used == Launched(wave)
  {
    retries, used := [], 0;
    for i := 0 to |batch|
      invariant retries == RetriesOf(batch[..i], outcomes[..i], maxRetries) && used == Launched(wave[..i])
    {
      assert batch[..i + 1][..i] == batch[..i] && outcomes[..i + 1][..i] == outcomes[..i]
        && wave[..i + 1][..i] == wave[..i];
      if outcomes[i] != Skipped {
        used := used + 1;
      }
      if outcomes[i] == Flake && batch[i].retries < maxRetries {
        retries := retries + [Pending(batch[i].job, batch[i].retries + 1)];
      }
    }
    assert batch[..|batch|] == batch && outcomes[..|batch|] == outcomes && wave[..|batch|] == wave;
  }

  lemma PermutedJobs(a: seq<Pending>, b: seq<Pending>)
    requires DistinctJobs(a) && multiset(a) == multiset(b)
    ensures DistinctJobs(b)
    ensures forall p :: p in a <==> p in b
  {
    forall p ensures p in a <==> p in b {
      assert p in a <==> p in multiset(a);
      assert p in b <==> p in multiset(b);
    }
    DistinctCounts(a);
    DistinctCounts(b);
    assert Distinct(a);
    forall p | p in b ensures multiset(b)[p] == 1 { assert p in a; }
    forall i, j | 0 <= i < j < |b| ensures b[i].job != b[j].job {
      assert b[i] != b[j] && b[i] in a && b[j] in a;
      var k :| 0 <= k < |a| && a[k] == b[i];
      var m :| 0 <= m < |a| && a[m] == b[j];
      assert k != m;
    }
  }

  lemma {:induction false} SelectMiss(trace: seq<Attempt>, wave: seq<Attempt>, owner: Owner)
    requires forall i :: 0 <= i < |wave| ==> !Owns(owner, wave[i])
    ensures Select(trace + wave, owner) == Select(trace, owner)
  {
    hide Owns;
    if wave == [] {
      assert trace + wave == trace;
    } else {
      var n := |wave| - 1;
      SelectMiss(trace, wave[..n], owner);
      assert (trace + wave)[..|trace| + n] == trace + wave[..n];
    }
  }

  lemma {:induction false} SelectHit(trace: seq<Attempt>, wave: seq<Attempt>, k: nat, owner: Owner)
    requires k < |wave| && forall i :: 0 <= i < |wave| ==> (Owns(owner, wave[i]) <==> i == k)
    ensures Select(trace + wave, owner) == Select(trace, owner) + [wave[k]]
  {
    hide Owns;
    var n := |wave| - 1;
    assert (trace + wave)[..|trace| + n] == trace + wave[..n];
    if k == n { SelectMiss(trace, wave[..n], owner); } else { SelectHit(trace, wave[..n], k, owner); }
  }

  lemma RunsMiss(trace: seq<Attempt>, wave: seq<Attempt>, job: nat)
    requires forall i :: 0 <= i < |wave| ==> wave[i].job != job
    ensures Runs(trace + wave, job) == Runs(trace, job)
  {
    SelectMiss(trace, wave, OfJob(job));
  }

  lemma RunsHit(trace: seq<Attempt>, wave: seq<Attempt>, k: nat)
    requires k < |wave| && forall i :: 0 <= i < |wave| && i != k ==> wave[i].job != wave[k].job
    ensures Runs(trace + wave, wave[k].job) == Runs(trace, wave[k].job) + [wave[k]]
  {
    SelectHit(trace, wave, k, OfJob(wave[k].job));
  }

  lemma OfMiss(trace: seq<Attempt>, wave: seq<Attempt>, ind: Individual)
    requires forall i :: 0 <= i < |wave| ==> wave[i].ind != ind
    ensures Of(trace + wave, ind) == Of(trace, ind)
  {
    SelectMiss(trace, wave, OfIndividual(ind));
  }

  lemma OfHit(trace: seq<Attempt>, wave: seq<Attempt>, k: nat)
    requires k < |wave| && forall i :: 0 <= i < |wave| && i != k ==> wave[i].ind != wave[k].ind
    ensures Of(trace + wave, wave[k].ind) == Of(trace, wave[k].ind) + [wave[k]]
  {
    SelectHit(trace, wave, k, OfIndividual(wave[k].ind));
  }

  lemma {:induction false} LaunchedOfJoin(a: seq<Attempt>, b: seq<Attempt>)
    ensures Launched(a + b) == Launched(a) + Launched(b) && Launched(b) <= |b|
  {
    if b == [] {
      assert a + b == a;
    } else {
      var n := |b| - 1;
      LaunchedOfJoin(a, b[..n]);
      assert (a + b)[..|a| + n] == a + b[..n];
    }
  }

  lemma {:induction false} AllLaunched(trace: seq<Attempt>)
    requires forall k :: 0 <= k < |trace| ==> trace[k].outcome != Skipped
    ensures Launched(trace) == |trace|
  {
    if trace != [] { AllLaunched(trace[..|trace| - 1]); }
  }

  /** Every attempt of a wave uses up some of the allowance. */
  lemma {:induction false} RetriesAllowance(batch: seq<Pending>, outcomes: seq<Outcome>, maxRetries: nat)
    requires |batch| == |outcomes| && WithinRetries(batch, maxRetries)
    ensures var r := RetriesOf(batch, outcomes, maxRetries);
            WithinRetries(r, maxRetries) && Allowance(r, maxRetries) + |batch| <= Allowance(batch, maxRetries)
  {
    hide Allowance;
    if batch == [] {
      NoAllowance(maxRetries);
    } else {
      var n := |batch| - 1;
      RetriesAllowance(batch[..n], outcomes[..n], maxRetries);
      assert batch == batch[..n] + [batch[n]];
      AllowanceOfMore(batch[..n], batch[n], maxRetries);
      if outcomes[n] == Flake && batch[n].retries < maxRetries {
        AllowanceOfMore(RetriesOf(batch[..n], outcomes[..n], maxRetries), Pending(batch[n].job, batch[n].retries + 1),
          maxRetries);
      } else {
        assert RetriesOf(batch, outcomes, maxRetries) == RetriesOf(batch[..n], outcomes[..n], maxRetries);
      }
    }
  }

  /** The retried jobs are flaked jobs of the wave with retries left, each with one retry more. */
  lemma {:induction false} RetriesAreFlakes(batch: seq<Pending>, outcomes: seq<Outcome>, maxRetries: nat, k: nat)
      returns (i: nat)
    requires |batch| == |outcomes| && k < |RetriesOf(batch, outcomes, maxRetries)|
    ensures i < |batch| && RetriedAs(batch[i], outcomes[i], RetriesOf(batch, outcomes, maxRetries)[k], maxRetries)
  {
    var n := |batch| - 1;
    var before := RetriesOf(batch[..n], outcomes[..n], maxRetries);
    if k < |before| { i := RetriesAreFlakes(batch[..n], outcomes[..n], maxRetries, k); } else { i := n; }
  }

  /** Every flaked job with retries left is retried. */
  lemma {:induction false} FlakesAreRetried(batch: seq<Pending>, outcomes: seq<Outcome>, maxRetries: nat, i: nat)
    requires |batch| == |outcomes| && i < |batch| && outcomes[i] == Flake && batch[i].retries < maxRetries
    ensures Pending(batch[i].job, batch[i].retries + 1) in RetriesOf(batch, outcomes, maxRetries)
  {
    var n := |batch| - 1;
    if i < n { FlakesAreRetried(batch[..n], outcomes[..n], maxRetries, i); }
  }

  lemma {:induction false} RetriesAreDistinct(batch: seq<Pending>, outcomes: seq<Outcome>, maxRetries: nat)
    requires |batch| == |outcomes| && DistinctJobs(batch)
    ensures DistinctJobs(RetriesOf(batch, outcomes, maxRetries))
  {
    if batch != [] {
      var n := |batch| - 1;
      RetriesAreDistinct(batch[..n], outcomes[..n], maxRetries);
      var before := RetriesOf(batch[..n], outcomes[..n], maxRetries);
      forall k | 0 <= k < |before| ensures before[k].job != batch[n].job {
        var i := RetriesAreFlakes(batch[..n], outcomes[..n], maxRetries, k);
      }
    }
  }

  ghost predicate RetriedAs(p: Pending, outcome: Outcome, q: Pending, maxRetries: nat) {
    outcome == Flake && p.retries < maxRetries && q == Pending(p.job, p.retries + 1)
  }

  /** The state of a batch between two waves. */
  ghost predicate Queue(ctx: Context, op: Operation, jobs: seq<Individual>, pending: seq<Pending>,
                        trace: seq<Attempt>) {
    var maxRetries := ctx.cfg.maxFlakeRetries;
    && ValidJobs(jobs, pending) && DistinctJobs(pending) && WithinRetries(pending, maxRetries)
    && (forall i :: 0 <= i < |pending| ==>
          |Runs(trace, pending[i].job)| == pending[i].retries && StillRetrying(Runs(trace, pending[i].job), maxRetries))
    && (forall j :: 0 <= j < |jobs| && !Waits(pending, j) ==> Closed(Runs(trace, j), maxRetries))
    && (forall k :: 0 <= k < |trace| ==> Faithful(ctx, op, jobs, trace[k]))
  }

  ghost predicate Waits(pending: seq<Pending>, job: nat) {
    exists i :: 0 <= i < |pending| && pending[i].job == job
  }

  lemma QueueStart(ctx: Context, op: Operation, jobs: seq<Individual>, pending: seq<Pending>)
    requires |pending| == |jobs| && forall i :: 0 <= i < |jobs| ==> pending[i] == Pending(i, 0)
    ensures Queue(ctx, op, jobs, pending, [])
  {
    forall j | 0 <= j < |jobs| ensures Waits(pending, j) { assert pending[j].job == j; }
  }

  /** What a wave leaves behind. */
  ghost predicate WaveDone(ctx: Context, op: Operation, jobs: seq<Individual>, pending: seq<Pending>, w: Wave,
                           replies: seq<Reply>, outcomes: seq<Outcome>)
    requires ValidJobs(jobs, pending)
  {
    && ValidJobs(jobs, w.batch) && multiset(pending) == multiset(w.batch + w.deferred) && Separate(jobs, w.batch)
    && |w.batch| == |replies| == |outcomes|
    && forall i :: 0 <= i < |w.batch| ==> outcomes[i] == OutcomeOf(ctx, op, jobs[w.batch[i].job].obstacles, replies[i])
  }

  lemma QueueStep(ctx: Context, op: Operation, jobs: seq<Individual>, pending: seq<Pending>, trace: seq<Attempt>,
                  w: Wave, replies: seq<Reply>, outcomes: seq<Outcome>)
    requires Queue(ctx, op, jobs, pending, trace) && WaveDone(ctx, op, jobs, pending, w, replies, outcomes)
    ensures Queue(ctx, op, jobs, RetriesOf(w.batch, outcomes, ctx.cfg.maxFlakeRetries) + w.deferred,
                  trace + WaveTrace(op, jobs, w.batch, replies, outcomes))
  {
    hide RetriesOf, WaveTrace, Runs, OutcomeOf, Closed, StillRetrying, Waits;
    PermutedJobs(pending, w.batch + w.deferred);
    WaveFacts(op, jobs, w.batch, replies, outcomes);
    QueueStepPending(ctx, op, jobs, pending, trace, w, replies, outcomes);
    forall j | 0 <= j < |jobs|
      ensures Waits(RetriesOf(w.batch, outcomes, ctx.cfg.maxFlakeRetries) + w.deferred, j)
           || Closed(Runs(trace + WaveTrace(op, jobs, w.batch, replies, outcomes), j), ctx.cfg.maxFlakeRetries)
    {
      QueueStepClosed(ctx, op, jobs, pending, trace, w, replies, outcomes, j);
    }
  }

  lemma WaveFacts(op: Operation, jobs: seq<Individual>, batch: seq<Pending>, replies: seq<Reply>,
                  outcomes: seq<Outcome>)
    requires |batch| == |outcomes| == |replies| && ValidJobs(jobs, batch)
    ensures forall i :: 0 <= i < |batch| ==>
              WaveTrace(op, jobs, batch, replies, outcomes)[i] ==
                Attempt(op, batch[i].job, jobs[batch[i].job], replies[i], outcomes[i])
  {}

  /** A retried job has flaked once more and may still be retried. */
  lemma RetriedJob(ctx: Context, op: Operation, jobs: seq<Individual>, pending: seq<Pending>, trace: seq<Attempt>,
                   w: Wave, replies: seq<Reply>, outcomes: seq<Outcome>, k: nat)
    requires Queue(ctx, op, jobs, pending, trace) && WaveDone(ctx, op, jobs, pending, w, replies, outcomes)
    requires k < |RetriesOf(w.batch, outcomes, ctx.cfg.maxFlakeRetries)|
    ensures var p := RetriesOf(w.batch, outcomes, ctx.cfg.maxFlakeRetries)[k];
            var runs := Runs(trace + WaveTrace(op, jobs, w.batch, replies, outcomes), p.job);
            && p.job < |jobs| && p.retries <= ctx.cfg.maxFlakeRetries
            && |runs| == p.retries && StillRetrying(runs, ctx.cfg.maxFlakeRetries)
            && forall m :: 0 <= m < |w.deferred| ==> w.deferred[m].job != p.job
  {
    hide RetriesOf, WaveTrace, Runs, OutcomeOf, Closed, Waits;
    var all := w.batch + w.deferred;
    PermutedJobs(pending, all);
    WaveFacts(op, jobs, w.batch, replies, outcomes);
    var i := RetriesAreFlakes(w.batch, outcomes, ctx.cfg.maxFlakeRetries, k);
    assert all[i] in pending;
    assert forall m :: 0 <= m < |w.batch| && m != i ==> all[m].job != all[i].job;
    assert forall m :: 0 <= m < |w.deferred| ==> all[|w.batch| + m] == w.deferred[m];
    RunsHit(trace, WaveTrace(op, jobs, w.batch, replies, outcomes), i);
  }

  /** A deferred job has not been touched. */
  lemma DeferredJob(ctx: Context, op: Operation, jobs: seq<Individual>, pending: seq<Pending>, trace: seq<Attempt>,
                    w: Wave, replies: seq<Reply>, outcomes: seq<Outcome>, m: nat)
    requires Queue(ctx, op, jobs, pending, trace) && WaveDone(ctx, op, jobs, pending, w, replies, outcomes)
    requires m < |w.deferred|
    ensures var p := w.deferred[m];
            var runs := Runs(trace + WaveTrace(op, jobs, w.batch, replies, outcomes), p.job);
            && p.job < |jobs| && p.retries <= ctx.cfg.maxFlakeRetries
            && |runs| == p.retries && StillRetrying(runs, ctx.cfg.maxFlakeRetries)
  {
    hide RetriesOf, WaveTrace, Runs, OutcomeOf, Closed, Waits, StillRetrying;
    var all := w.batch + w.deferred;
    PermutedJobs(pending, all);
    WaveFacts(op, jobs, w.batch, replies, outcomes);
    assert all[|w.batch| + m] in pending;
    forall i | 0 <= i < |w.batch|
      ensures w.batch[i].job != w.deferred[m].job
    {
      assert all[i].job != all[|w.batch| + m].job;
    }
    RunsMiss(trace, WaveTrace(op, jobs, w.batch, replies, outcomes), w.deferred[m].job);
  }

  /** The jobs still pending after a wave. */
  lemma QueueStepPending(ctx: Context, op: Operation, jobs: seq<Individual>, pending: seq<Pending>, trace: seq<Attempt>,
                         w: Wave, replies: seq<Reply>, outcomes: seq<Outcome>)
    requires Queue(ctx, op, jobs, pending, trace) && WaveDone(ctx, op, jobs, pending, w, replies, outcomes)
    ensures var r := RetriesOf(w.batch, outcomes, ctx.cfg.maxFlakeRetries) + w.deferred;
            var t := trace + WaveTrace(op, jobs, w.batch, replies, outcomes);
            && ValidJobs(jobs, r) && DistinctJobs(r) && WithinRetries(r, ctx.cfg.maxFlakeRetries)
            && forall i :: 0 <= i < |r| ==>
                 |Runs(t, r[i].job)| == r[i].retries && StillRetrying(Runs(t, r[i].job), ctx.cfg.maxFlakeRetries)
  {
    hide RetriesOf, WaveTrace, Runs, OutcomeOf, Closed, Waits, StillRetrying;
    PermutedJobs(pending, w.batch + w.deferred);
    DistinctParts(w.batch, w.deferred);
    var retries := RetriesOf(w.batch, outcomes, ctx.cfg.maxFlakeRetries);
    RetriesAreDistinct(w.batch, outcomes, ctx.cfg.maxFlakeRetries);
    forall k | 0 <= k < |retries| ensures forall m :: 0 <= m < |w.deferred| ==> w.deferred[m].job != retries[k].job {
      RetriedJob(ctx, op, jobs, pending, trace, w, replies, outcomes, k);
    }
    var r := retries + w.deferred;
    forall i | 0 <= i < |r|
      ensures r[i].job < |jobs| && r[i].retries <= ctx.cfg.maxFlakeRetries
      ensures var runs := Runs(trace + WaveTrace(op, jobs, w.batch, replies, outcomes), r[i].job);
              |runs| == r[i].retries && StillRetrying(runs, ctx.cfg.maxFlakeRetries)
    {
      if i < |retries| { RetriedJob(ctx, op, jobs, pending, trace, w, replies, outcomes, i); }
      else { DeferredJob(ctx, op, jobs, pending, trace, w, replies, outcomes, i - |retries|); }
    }
  }

  lemma DistinctParts(a: seq<Pending>, b: seq<Pending>)
    requires DistinctJobs(a + b)
    ensures DistinctJobs(a) && DistinctJobs(b)
  {
    assert forall i :: 0 <= i < |a| ==> (a + b)[i] == a[i];
    assert forall i :: 0 <= i < |b| ==> (a + b)[|a| + i] == b[i];
  }

  /** A pending job that is not in the wave, or flaked in it with retries left, goes on waiting. */
  lemma GoesOnWaiting(pending: seq<Pending>, w: Wave, outcomes: seq<Outcome>, maxRetries: nat, j: nat)
    requires multiset(pending) == multiset(w.batch + w.deferred) && |w.batch| == |outcomes| && Waits(pending, j)
    requires forall i :: 0 <= i < |w.batch| && w.batch[i].job == j ==>
              outcomes[i] == Flake && w.batch[i].retries < maxRetries
    ensures Waits(RetriesOf(w.batch, outcomes, maxRetries) + w.deferred, j)
  {
    hide RetriesOf;
    var all, retries := w.batch + w.deferred, RetriesOf(w.batch, outcomes, maxRetries);
    var k :| 0 <= k < |pending| && pending[k].job == j;
    assert pending[k] in multiset(all);
    assert pending[k] in all;
    var m :| 0 <= m < |all| && all[m] == pending[k];
    if m < |w.batch| {
      FlakesAreRetried(w.batch, outcomes, maxRetries, m);
      var i :| 0 <= i < |retries| && retries[i] == Pending(j, w.batch[m].retries + 1);
      assert (retries + w.deferred)[i].job == j;
    } else {
      assert (retries + w.deferred)[|retries| + (m - |w.batch|)].job == j;
    }
  }

  /** The jobs no longer pending after a wave are settled. */
  lemma QueueStepClosed(ctx: Context, op: Operation, jobs: seq<Individual>, pending: seq<Pending>, trace: seq<Attempt>,
                        w: Wave, replies: seq<Reply>, outcomes: seq<Outcome>, j: nat)
    requires Queue(ctx, op, jobs, pending, trace) && WaveDone(ctx, op, jobs, pending, w, replies, outcomes)
    requires j < |jobs|
    ensures Waits(RetriesOf(w.batch, outcomes, ctx.cfg.maxFlakeRetries) + w.deferred, j)
         || Closed(Runs(trace + WaveTrace(op, jobs, w.batch, replies, outcomes), j), ctx.cfg.maxFlakeRetries)
  {
    hide RetriesOf, WaveTrace, Runs, OutcomeOf, Waits;
    var maxRetries := ctx.cfg.maxFlakeRetries;
    var all := w.batch + w.deferred;
    PermutedJobs(pending, all);
    DistinctParts(w.batch, w.deferred);
    var wave := WaveTrace(op, jobs, w.batch, replies, outcomes);
    WaveFacts(op, jobs, w.batch, replies, outcomes);
    if i :| 0 <= i < |w.batch| && w.batch[i].job == j {
      assert all[i] in pending;
      RunsHit(trace, wave, i);
      if outcomes[i] == Flake && w.batch[i].retries < maxRetries {
        StillWaits(pending, all[i], j);
        GoesOnWaiting(pending, w, outcomes, maxRetries, j);
      }
    } else {
      RunsMiss(trace, wave, j);
      if Waits(pending, j) { GoesOnWaiting(pending, w, outcomes, maxRetries, j); }
    }
  }

  lemma StillWaits(pending: seq<Pending>, p: Pending, j: nat)
    requires p in pending && p.job == j
    ensures Waits(pending, j)
  {}

  ghost predicate AllMeasured(jobs: seq<Individual>, states: seq<Vitals>) {
    |states| == |jobs| && forall j :: 0 <= j < |jobs| ==> Measured(jobs[j].obstacles, states[j])
  }

  /** Every individual is in the state its own attempts lead to. */
  ghost predicate Replayed(ctx: Context, op: Operation, jobs: seq<Individual>, before: seq<Vitals>, after: seq<Vitals>,
                           trace: seq<Attempt>)
    requires AllMeasured(jobs, before)
  {
    |after| == |jobs| &&
    forall j :: 0 <= j < |jobs| ==> after[j] == Replay(ctx, op, jobs[j].obstacles, before[j], Of(trace, jobs[j]))
  }

  lemma ReplayMore(ctx: Context, op: Operation, boxes: seq<Box>, v: Vitals, runs: seq<Attempt>, a: Attempt)
    requires Measured(boxes, v)
    ensures Replay(ctx, op, boxes, v, runs + [a]) ==
            AttemptStep(ctx, op, boxes, Replay(ctx, op, boxes, v, runs), a.reply)
  {}

  /** The states after a wave, from the states before it: each individual of the wave took its one step. */
  ghost predicate WaveMoved(ctx: Context, op: Operation, jobs: seq<Individual>, mid: seq<Vitals>, after: seq<Vitals>,
                            wave: seq<Attempt>)
    requires AllMeasured(jobs, mid)
  {
    && |after| == |jobs|
    && forall j :: 0 <= j < |jobs| ==>
         && (forall k :: 0 <= k < |wave| && wave[k].ind == jobs[j] ==>
               after[j] == AttemptStep(ctx, op, jobs[j].obstacles, mid[j], wave[k].reply))
         && ((forall k :: 0 <= k < |wave| ==> wave[k].ind != jobs[j]) ==> after[j] == mid[j])
  }

  ghost predicate DistinctIndividuals(wave: seq<Attempt>) {
    forall i, k :: 0 <= i < k < |wave| ==> wave[i].ind != wave[k].ind
  }

  lemma ReplayWave(ctx: Context, op: Operation, jobs: seq<Individual>, before: seq<Vitals>, mid: seq<Vitals>,
                   after: seq<Vitals>, trace: seq<Attempt>, wave: seq<Attempt>)
    requires AllMeasured(jobs, before) && AllMeasured(jobs, mid) && DistinctIndividuals(wave)
    requires Replayed(ctx, op, jobs, before, mid, trace) && WaveMoved(ctx, op, jobs, mid, after, wave)
    ensures Replayed(ctx, op, jobs, before, after, trace + wave)
  {
    hide Replay, AttemptStep, Of, Measured;
    forall j | 0 <= j < |jobs|
      ensures after[j] == Replay(ctx, op, jobs[j].obstacles, before[j], Of(trace + wave, jobs[j]))
    {
      if k :| 0 <= k < |wave| && wave[k].ind == jobs[j] {
        OfHit(trace, wave, k);
        ReplayMore(ctx, op, jobs[j].obstacles, before[j], Of(trace, jobs[j]), wave[k]);
      } else {
        OfMiss(trace, wave, jobs[j]);
      }
    }
  }

  ghost function Views(jobs: seq<Individual>): (states: seq<Vitals>)
    reads jobs
    ensures |states| == |jobs| && forall j :: 0 <= j < |jobs| ==> states[j] == jobs[j].View()
  {
    seq(|jobs|, j requires 0 <= j < |jobs| reads jobs => jobs[j].View())
  }

  method FlyWave(ctx: Context, op: Operation, jobs: seq<Individual>, batch: seq<Pending>, replies: seq<Reply>)
      returns (outcomes: seq<Outcome>)
    requires ValidJobs(jobs, batch) && Separate(jobs, batch) && |replies| == |batch| && AllMeasured(jobs, Views(jobs))
    modifies jobs
    ensures |outcomes| == |batch|
    ensures forall i :: 0 <= i < |batch| ==> outcomes[i] == OutcomeOf(ctx, op, jobs[batch[i].job].obstacles, replies[i])
    ensures old(AllMeasured(jobs, Views(jobs)))
    ensures WaveMoved(ctx, op, jobs, old(Views(jobs)), Views(jobs), WaveTrace(op, jobs, batch, replies, outcomes))
  {
    hide OutcomeOf, Measured, AttemptStep, Individual.View, WaveTrace;
    var inds := seq(|batch|, i requires 0 <= i < |batch| => jobs[batch[i].job]);
    forall i, j | 0 <= i < j < |inds| ensures inds[i] != inds[j] { assert jobs[batch[i].job] != jobs[batch[j].job]; }
    outcomes := RunParallelBatch(ctx, op, inds, replies);
    ghost var wave := WaveTrace(op, jobs, batch, replies, outcomes);
    WaveFacts(op, jobs, batch, replies, outcomes);
    forall j | 0 <= j < |jobs|
      ensures forall k :: 0 <= k < |wave| && wave[k].ind == jobs[j] ==>
                Views(jobs)[j] == AttemptStep(ctx, op, jobs[j].obstacles, old(Views(jobs))[j], wave[k].reply)
      ensures (forall k :: 0 <= k < |wave| ==> wave[k].ind != jobs[j]) ==> Views(jobs)[j] == old(Views(jobs))[j]
    {
      forall k | 0 <= k < |wave| && wave[k].ind == jobs[j]
        ensures Views(jobs)[j] == AttemptStep(ctx, op, jobs[j].obstacles, old(Views(jobs))[j], wave[k].reply)
      {
        assert inds[k] == jobs[j];
      }
      if forall k :: 0 <= k < |wave| ==> wave[k].ind != jobs[j] {
        assert jobs[j] !in inds;
      }
    }
  }

  lemma WaveIsSeparate(op: Operation, jobs: seq<Individual>, batch: seq<Pending>, replies: seq<Reply>,
                       outcomes: seq<Outcome>)
    requires ValidJobs(jobs, batch) && Separate(jobs, batch) && |batch| == |outcomes| == |replies|
    ensures DistinctIndividuals(WaveTrace(op, jobs, batch, replies, outcomes))
  {}

  /** The bookkeeping after a wave. */
  lemma AfterWave(ctx: Context, op: Operation, jobs: seq<Individual>, pending: seq<Pending>, trace: seq<Attempt>,
                  capacity: nat,
                  w: Wave, replies: seq<Reply>, outcomes: seq<Outcome>, rest: seq<Pending>, wave: seq<Attempt>)
    requires Queue(ctx, op, jobs, pending, trace) && w == Split(jobs, pending, capacity) && pending != []
    requires capacity > 0
    requires |w.batch| == |replies| == |outcomes|
    requires forall i :: 0 <= i < |w.batch| ==>
              outcomes[i] == OutcomeOf(ctx, op, jobs[w.batch[i].job].obstacles, replies[i])
    requires rest == RetriesOf(w.batch, outcomes, ctx.cfg.maxFlakeRetries) + w.deferred
    requires wave == WaveTrace(op, jobs, w.batch, replies, outcomes)
    ensures Queue(ctx, op, jobs, rest, trace + wave)
    ensures Allowance(rest, ctx.cfg.maxFlakeRetries) < Allowance(pending, ctx.cfg.maxFlakeRetries)
    ensures Launched(wave) <= |wave| == |w.batch| <= capacity
  {
    hide OutcomeOf, Split, Runs, Launched, Closed, StillRetrying, Allowance, RetriesOf, WaveTrace;
    var maxRetries := ctx.cfg.maxFlakeRetries;
    SplitPartitions(jobs, pending, capacity);
    SplitSeparates(jobs, pending, capacity);
    SplitIsMaximal(jobs, pending, capacity);
    SplitAllowance(jobs, pending, capacity, maxRetries);
    QueueStep(ctx, op, jobs, pending, trace, w, replies, outcomes);
    RetriesAllowance(w.batch, outcomes, maxRetries);
    AllowanceOfJoin(RetriesOf(w.batch, outcomes, maxRetries), w.deferred, maxRetries);
    LaunchedOfJoin([], wave);
  }

  // ---- the batch as a function of the simulator's answers ---------------------------------------

  function Capacity(ctx: Context, left: nat): nat {
    if ctx.cfg.parallelWorkers <= left then ctx.cfg.parallelWorkers else left
  }

  ghost function RepliesFrom(sim: nat -> Reply, clock: nat, n: nat): (replies: seq<Reply>)
    ensures |replies| == n
  {
    seq(n, i requires 0 <= i => sim(clock + i))
  }

  ghost function OutcomesOf(ctx: Context, op: Operation, jobs: seq<Individual>, batch: seq<Pending>,
                            replies: seq<Reply>): (outcomes: seq<Outcome>)
    requires ValidJobs(jobs, batch) && |replies| == |batch|
    ensures |outcomes| == |batch|
    ensures forall i :: 0 <= i < |batch| ==>
              outcomes[i] == OutcomeOf(ctx, op, jobs[batch[i].job].obstacles, replies[i])
  {
    seq(|batch|, i requires 0 <= i < |batch| => OutcomeOf(ctx, op, jobs[batch[i].job].obstacles, replies[i]))
  }

  /** The attempts of one wave, with the simulator's answers from the given point on. */
  ghost function WaveOf(ctx: Context, op: Operation, jobs: seq<Individual>, w: Wave, sim: nat -> Reply,
                        clock: nat): (wave: seq<Attempt>)
    requires ValidJobs(jobs, w.batch)
    ensures |wave| == |w.batch|
  {
    var replies := RepliesFrom(sim, clock, |w.batch|);
    WaveTrace(op, jobs, w.batch, replies, OutcomesOf(ctx, op, jobs, w.batch, replies))
  }

  /** The jobs pending after it. */
  ghost function RestOf(ctx: Context, op: Operation, jobs: seq<Individual>, w: Wave, sim: nat -> Reply,
                        clock: nat): seq<Pending>
    requires ValidJobs(jobs, w.batch)
  {
    var replies := RepliesFrom(sim, clock, |w.batch|);
    RetriesOf(w.batch, OutcomesOf(ctx, op, jobs, w.batch, replies), ctx.cfg.maxFlakeRetries) + w.deferred
  }

  lemma RestShrinks(ctx: Context, op: Operation, jobs: seq<Individual>, pending: seq<Pending>, capacity: nat,
                    sim: nat -> Reply, clock: nat)
    requires ValidJobs(jobs, pending) && WithinRetries(pending, ctx.cfg.maxFlakeRetries)
    requires pending != [] && capacity > 0
    ensures var w := Split(jobs, pending, capacity);
            var wave, rest := WaveOf(ctx, op, jobs, w, sim, clock), RestOf(ctx, op, jobs, w, sim, clock);
            && ValidJobs(jobs, rest) && WithinRetries(rest, ctx.cfg.maxFlakeRetries)
            && Allowance(rest, ctx.cfg.maxFlakeRetries) < Allowance(pending, ctx.cfg.maxFlakeRetries)
            && Launched(wave) <= |wave| <= capacity
  {
    hide OutcomeOf, Split, Launched, Allowance, RetriesOf, WaveTrace, OutcomesOf;
    var maxRetries := ctx.cfg.maxFlakeRetries;
    var w := Split(jobs, pending, capacity);
    var outcomes := OutcomesOf(ctx, op, jobs, w.batch, RepliesFrom(sim, clock, |w.batch|));
    SplitIsMaximal(jobs, pending, capacity);
    SplitAllowance(jobs, pending, capacity, maxRetries);
    RetriesAllowance(w.batch, outcomes, maxRetries);
    RetriesAreValid(jobs, w.batch, outcomes, maxRetries);
    AllowanceOfJoin(RetriesOf(w.batch, outcomes, maxRetries), w.deferred, maxRetries);
    LaunchedOfJoin([], WaveOf(ctx, op, jobs, w, sim, clock));
  }

  lemma {:induction false} RetriesAreValid(jobs: seq<Individual>, batch: seq<Pending>, outcomes: seq<Outcome>,
                                           maxRetries: nat)
    requires ValidJobs(jobs, batch) && |batch| == |outcomes|
    ensures ValidJobs(jobs, RetriesOf(batch, outcomes, maxRetries))
  {
    if batch != [] {
      var n := |batch| - 1;
      RetriesAreValid(jobs, batch[..n], outcomes[..n], maxRetries);
    }
  }

  /** Every attempt of a batch from the given queue on, wave after wave. */
  ghost function Play(ctx: Context, op: Operation, jobs: seq<Individual>, pending: seq<Pending>, budget: nat,
                      sim: nat -> Reply, clock: nat): seq<Attempt>
    requires ctx.cfg.parallelWorkers >= 1
    requires ValidJobs(jobs, pending) && WithinRetries(pending, ctx.cfg.maxFlakeRetries)
    decreases Allowance(pending, ctx.cfg.maxFlakeRetries)
  {
    if pending == [] || budget == 0 then []
    else
      var capacity := Capacity(ctx, budget);
      var w := Split(jobs, pending, capacity);
      var wave := WaveOf(ctx, op, jobs, w, sim, clock);
      RestShrinks(ctx, op, jobs, pending, capacity, sim, clock);
      wave + Play(ctx, op, jobs, RestOf(ctx, op, jobs, w, sim, clock), budget - Launched(wave), sim, clock + |wave|)
  }

  ghost function Fresh(n: nat): (pending: seq<Pending>)
    ensures |pending| == n && forall i :: 0 <= i < n ==> pending[i] == Pending(i, 0)
  {
    seq(n, i requires 0 <= i => Pending(i, 0))
  }

  /** Every attempt of a whole batch. */
  ghost function Batch(ctx: Context, op: Operation, jobs: seq<Individual>, budget: nat, sim: nat -> Reply,
                       start: nat): seq<Attempt>
    requires ctx.cfg.parallelWorkers >= 1
  {
    Play(ctx, op, jobs, Fresh(|jobs|), budget, sim, start)
  }

  lemma PlayStep(ctx: Context, op: Operation, jobs: seq<Individual>, pending: seq<Pending>, budget: nat,
                 sim: nat -> Reply, clock: nat, rest: seq<Pending>, wave: seq<Attempt>)
    requires ctx.cfg.parallelWorkers >= 1 && pending != [] && budget > 0
    requires ValidJobs(jobs, pending) && WithinRetries(pending, ctx.cfg.maxFlakeRetries)
    requires var w := Split(jobs, pending, Capacity(ctx, budget));
             wave == WaveOf(ctx, op, jobs, w, sim, clock) && rest == RestOf(ctx, op, jobs, w, sim, clock)
    ensures ValidJobs(jobs, rest) && WithinRetries(rest, ctx.cfg.maxFlakeRetries) && Launched(wave) <= budget
    ensures Play(ctx, op, jobs, pending, budget, sim, clock) ==
            wave + Play(ctx, op, jobs, rest, budget - Launched(wave), sim, clock + |wave|)
  {
    hide OutcomeOf, Split, Launched, Allowance, WaveOf, RestOf;
    RestShrinks(ctx, op, jobs, pending, Capacity(ctx, budget), sim, clock);
  }

  lemma PlayEnd(ctx: Context, op: Operation, jobs: seq<Individual>, pending: seq<Pending>, budget: nat,
                sim: nat -> Reply, clock: nat)
    requires ctx.cfg.parallelWorkers >= 1 && (pending == [] || budget == 0)
    requires ValidJobs(jobs, pending) && WithinRetries(pending, ctx.cfg.maxFlakeRetries)
    ensures Play(ctx, op, jobs, pending, budget, sim, clock) == []
  {}

  /** One wave of a batch: run it, count it, and queue its retries in front. */
  method RunWave(ctx: Context, op: Operation, jobs: seq<Individual>, pending: seq<Pending>, capacity: nat,
                 sim: nat -> Reply, clock: nat, ghost trace: seq<Attempt>)
      returns (rest: seq<Pending>, used: nat, launched: nat, ghost wave: seq<Attempt>)
    requires Queue(ctx, op, jobs, pending, trace) && pending != [] && capacity > 0 && AllMeasured(jobs, Views(jobs))
    modifies jobs
    ensures Queue(ctx, op, jobs, rest, trace + wave)
    ensures Allowance(rest, ctx.cfg.maxFlakeRetries) < Allowance(pending, ctx.cfg.maxFlakeRetries)
    ensures used == Launched(wave) && used <= capacity && launched == |wave|
    ensures DistinctIndividuals(wave) && old(AllMeasured(jobs, Views(jobs)))
    ensures WaveMoved(ctx, op, jobs, old(Views(jobs)), Views(jobs), wave)
    ensures ValidJobs(jobs, pending)
    ensures var w := Split(jobs, pending, capacity);
            wave == WaveOf(ctx, op, jobs, w, sim, clock) && rest == RestOf(ctx, op, jobs, w, sim, clock)
  {
    hide OutcomeOf, Measured, AttemptStep, Individual.View, Split, Runs, Launched, Closed, StillRetrying, Allowance,
         RetriesOf, WaveTrace, Views, WaveMoved, Queue, AllMeasured;
    QueueParts(ctx, op, jobs, pending, trace);
    var batch, deferred := SplitWave(jobs, pending, capacity);
    SplitSeparates(jobs, pending, capacity);
    var replies := seq(|batch|, i requires 0 <= i => sim(clock + i));
    var outcomes := FlyWave(ctx, op, jobs, batch, replies);
    wave := WaveTrace(op, jobs, batch, replies, outcomes);
    assert replies == RepliesFrom(sim, clock, |batch|);
    assert outcomes == OutcomesOf(ctx, op, jobs, batch, replies);
    WaveFacts(op, jobs, batch, replies, outcomes);
    WaveIsSeparate(op, jobs, batch, replies, outcomes);
    var retries, now := CollectOutcomes(batch, outcomes, ctx.cfg.maxFlakeRetries, wave);
    rest, used, launched := retries + deferred, now, |batch|;
    AfterWave(ctx, op, jobs, pending, trace, capacity, Wave(batch, deferred), replies, outcomes, rest, wave);
  }

  lemma QueueParts(ctx: Context, op: Operation, jobs: seq<Individual>, pending: seq<Pending>, trace: seq<Attempt>)
    requires Queue(ctx, op, jobs, pending, trace)
    ensures ValidJobs(jobs, pending) && WithinRetries(pending, ctx.cfg.maxFlakeRetries)
  {}

  lemma {:induction false} AllowanceOfJoin(a: seq<Pending>, b: seq<Pending>, maxRetries: nat)
    requires WithinRetries(a, maxRetries) && WithinRetries(b, maxRetries)
    ensures Allowance(a + b, maxRetries) == Allowance(a, maxRetries) + Allowance(b, maxRetries)
  {
    if b == [] {
      assert a + b == a;
    } else {
      var n := |b| - 1;
      AllowanceOfJoin(a, b[..n], maxRetries);
      assert (a + b)[..|a| + n] == a + b[..n];
    }
  }

  /** Runs the jobs in waves, retrying flakes, and returns the attempts used. */
  method RunRetryingBatch(ctx: Context, op: Operation, jobs: seq<Individual>, budget: nat, sim: nat -> Reply,
                          start: nat)
      returns (used: nat, clock: nat, ghost trace: seq<Attempt>)
    requires ctx.cfg.parallelWorkers >= 1 && AllMeasured(jobs, Views(jobs))
    modifies jobs
    ensures trace == Batch(ctx, op, jobs, budget, sim, start)
    ensures used == Launched(trace) && used <= budget
    ensures forall k :: 0 <= k < |trace| ==> Faithful(ctx, op, jobs, trace[k])
    ensures forall j :: 0 <= j < |jobs| ==> Retried(Runs(trace, j), ctx.cfg.maxFlakeRetries)
    ensures used < budget ==> forall j :: 0 <= j < |jobs| ==> Closed(Runs(trace, j), ctx.cfg.maxFlakeRetries)
    ensures old(AllMeasured(jobs, Views(jobs))) && Replayed(ctx, op, jobs, old(Views(jobs)), Views(jobs), trace)
  {
    hide OutcomeOf, Measured, AttemptStep, Individual.View, Replay, Runs, Of, Launched, Closed, StillRetrying,
         Allowance, Faithful, Queue, AllMeasured, Play, WaveOf, RestOf, Split;
    var pending := seq(|jobs|, i requires 0 <= i => Pending(i, 0));
    assert pending == Fresh(|jobs|);
    used, clock, trace := 0, start, [];
    QueueStart(ctx, op, jobs, pending);
    BatchStart(ctx, op, jobs, Views(jobs));
    QueueParts(ctx, op, jobs, pending, trace);
    while pending != [] && used < budget
      invariant Queue(ctx, op, jobs, pending, trace)
      invariant ValidJobs(jobs, pending) && WithinRetries(pending, ctx.cfg.maxFlakeRetries) && used <= budget
      invariant Batch(ctx, op, jobs, budget, sim, start) ==
                trace + Play(ctx, op, jobs, pending, budget - used, sim, clock)
      invariant used == Launched(trace) && used <= budget
      invariant AllMeasured(jobs, Views(jobs)) && Replayed(ctx, op, jobs, old(Views(jobs)), Views(jobs), trace)
      decreases Allowance(pending, ctx.cfg.maxFlakeRetries)
    {
      var capacity := Capacity(ctx, budget - used);
      ghost var mid := Views(jobs);
      var rest, now, launched, wave := RunWave(ctx, op, jobs, pending, capacity, sim, clock, trace);
      ReplayWave(ctx, op, jobs, old(Views(jobs)), mid, Views(jobs), trace, wave);
      LaunchedOfJoin(trace, wave);
      PlayStep(ctx, op, jobs, pending, budget - used, sim, clock, rest, wave);
      QueueParts(ctx, op, jobs, rest, trace + wave);
      ReplayedIsMeasured(ctx, op, jobs, old(Views(jobs)), Views(jobs), trace + wave);
      pending, used, clock, trace := rest, used + now, clock + launched, trace + wave;
    }
    QueueEnd(ctx, op, jobs, pending, trace);
    PlayEnd(ctx, op, jobs, pending, budget - used, sim, clock);
  }

  ghost predicate Retried(runs: seq<Attempt>, maxRetries: nat) {
    StillRetrying(runs, maxRetries) || Closed(runs, maxRetries)
  }

  lemma QueueEnd(ctx: Context, op: Operation, jobs: seq<Individual>, pending: seq<Pending>, trace: seq<Attempt>)
    requires Queue(ctx, op, jobs, pending, trace)
    ensures forall j :: 0 <= j < |jobs| ==> Retried(Runs(trace, j), ctx.cfg.maxFlakeRetries)
    ensures pending == [] ==> forall j :: 0 <= j < |jobs| ==> Closed(Runs(trace, j), ctx.cfg.maxFlakeRetries)
    ensures forall k :: 0 <= k < |trace| ==> Faithful(ctx, op, jobs, trace[k])
  {}

  lemma BatchStart(ctx: Context, op: Operation, jobs: seq<Individual>, states: seq<Vitals>)
    requires AllMeasured(jobs, states)
    ensures Launched([]) == 0 && Replayed(ctx, op, jobs, states, states, [])
  {}

  lemma ReplayedIsMeasured(ctx: Context, op: Operation, jobs: seq<Individual>, before: seq<Vitals>, after: seq<Vitals>,
                           trace: seq<Attempt>)
    requires AllMeasured(jobs, before) && Replayed(ctx, op, jobs, before, after, trace)
    ensures AllMeasured(jobs, after)
  {}

  // ---- how many attempts a batch needs ----------------------------------------------------------

  /** The attempts made for the first n jobs. */
  ghost function RunsOfFirst(trace: seq<Attempt>, n: nat): nat {
    if n == 0 then 0 else RunsOfFirst(trace, n - 1) + |Runs(trace, n - 1)|
  }

  lemma {:induction false} RunsOfFirstMore(trace: seq<Attempt>, a: Attempt, n: nat)
    ensures RunsOfFirst(trace + [a], n) == RunsOfFirst(trace, n) + if a.job < n then 1 else 0
  {
    if n > 0 {
      RunsOfFirstMore(trace, a, n - 1);
      assert (trace + [a])[..|trace|] == trace;
    }
  }

  lemma {:induction false} RunsFitTrace(trace: seq<Attempt>, n: nat)
    ensures RunsOfFirst(trace, n) <= |trace|
  {
    if trace == [] {
      NoRuns(n);
    } else {
      var m := |trace| - 1;
      RunsFitTrace(trace[..m], n);
      RunsOfFirstMore(trace[..m], trace[m], n);
      assert trace == trace[..m] + [trace[m]];
    }
  }

  lemma {:induction false} NoRuns(n: nat)
    ensures RunsOfFirst([], n) == 0
  {
    if n > 0 { NoRuns(n - 1); }
  }

  lemma SettledIsTried(runs: seq<Attempt>, maxRetries: nat)
    requires Closed(runs, maxRetries)
    ensures |runs| > 0
  {}

  /** If every job is settled, there was an attempt for each of them. */
  lemma {:induction false} SettledJobsRan(trace: seq<Attempt>, n: nat, maxRetries: nat)
    requires forall j :: 0 <= j < n ==> Closed(Runs(trace, j), maxRetries)
    ensures RunsOfFirst(trace, n) >= n
  {
    hide Closed, Runs;
    if n > 0 {
      SettledJobsRan(trace, n - 1, maxRetries);
      SettledIsTried(Runs(trace, n - 1), maxRetries);
    }
  }

  lemma OneAttemptEach(trace: seq<Attempt>, n: nat, maxRetries: nat)
    requires forall j :: 0 <= j < n ==> Closed(Runs(trace, j), maxRetries)
    ensures |trace| >= n
  {
    hide Closed, Runs;
    SettledJobsRan(trace, n, maxRetries);
    RunsFitTrace(trace, n);
  }
}
