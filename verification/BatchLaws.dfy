/** Whom the attempts of a batch go to, and in which order (generator.py). */
module BatchLaws {
  import opened Sorting
  import opened Individuals
  import opened Scheduler
  import opened Refinement

  // ---- what holds of every batch ----------------------------------------------------------------

  lemma {:induction false} PlayFacts(ctx: Context, op: Operation, jobs: seq<Individual>, pending: seq<Pending>,
                                     trace: seq<Attempt>, budget: nat, sim: nat -> Reply, clock: nat)
    requires ctx.cfg.parallelWorkers >= 1 && Queue(ctx, op, jobs, pending, trace)
    ensures ValidJobs(jobs, pending) && WithinRetries(pending, ctx.cfg.maxFlakeRetries)
    ensures var t := Play(ctx, op, jobs, pending, budget, sim, clock);
            && Launched(t) <= budget
            && (forall k :: 0 <= k < |trace + t| ==> Faithful(ctx, op, jobs, (trace + t)[k]))
            && (forall j :: 0 <= j < |jobs| ==> Retried(Runs(trace + t, j), ctx.cfg.maxFlakeRetries))
            && (Launched(t) < budget ==>
                 forall j :: 0 <= j < |jobs| ==> Closed(Runs(trace + t, j), ctx.cfg.maxFlakeRetries))
    decreases Allowance(pending, ctx.cfg.maxFlakeRetries)
  {
    hide OutcomeOf, Split, Runs, Launched, Closed, Retried, Allowance, RetriesOf, WaveTrace, Queue, Faithful, Play;
    QueueParts(ctx, op, jobs, pending, trace);
    if pending == [] || budget == 0 {
      PlayEnd(ctx, op, jobs, pending, budget, sim, clock);
      QueueEnd(ctx, op, jobs, pending, trace);
      LaunchedOfJoin([], []);
      assert trace + [] == trace;
    } else {
      var capacity := Capacity(ctx, budget);
      var w := Split(jobs, pending, capacity);
      var replies := RepliesFrom(sim, clock, |w.batch|);
      var outcomes := OutcomesOf(ctx, op, jobs, w.batch, replies);
      var wave, rest := WaveOf(ctx, op, jobs, w, sim, clock), RestOf(ctx, op, jobs, w, sim, clock);
      AfterWave(ctx, op, jobs, pending, trace, capacity, w, replies, outcomes, rest, wave);
      PlayStep(ctx, op, jobs, pending, budget, sim, clock, rest, wave);
      PlayFacts(ctx, op, jobs, rest, trace + wave, budget - Launched(wave), sim, clock + |wave|);
      var later := Play(ctx, op, jobs, rest, budget - Launched(wave), sim, clock + |wave|);
      assert trace + (wave + later) == trace + wave + later;
      LaunchedOfJoin(wave, later);
    }
  }

  /** A batch of reruns with one attempt per job in its budget uses all of it. */
  lemma BatchFacts(ctx: Context, jobs: seq<Individual>, sim: nat -> Reply, start: nat)
    requires ctx.cfg.parallelWorkers >= 1
    ensures var t := Batch(ctx, Operation.Rerun, jobs, |jobs|, sim, start);
            && |t| == |jobs| && (forall k :: 0 <= k < |t| ==> t[k].job < |jobs|)
            && (forall j :: 0 <= j < |jobs| ==> Retried(Runs(t, j), ctx.cfg.maxFlakeRetries))
  {
    hide OutcomeOf, Runs, Launched, Closed, Retried, Queue, Faithful, Play;
    var t := Batch(ctx, Operation.Rerun, jobs, |jobs|, sim, start);
    QueueStart(ctx, Operation.Rerun, jobs, Fresh(|jobs|));
    PlayFacts(ctx, Operation.Rerun, jobs, Fresh(|jobs|), [], |jobs|, sim, start);
    assert [] + t == t;
    forall k | 0 <= k < |t| ensures t[k].job < |jobs| && t[k].outcome != Skipped {
      RerunIsFlown(ctx, jobs, t[k]);
    }
    AllLaunched(t);
    if |t| < |jobs| { OneAttemptEach(t, |jobs|, ctx.cfg.maxFlakeRetries); }
  }

  lemma RerunIsFlown(ctx: Context, jobs: seq<Individual>, a: Attempt)
    requires Faithful(ctx, Operation.Rerun, jobs, a)
    ensures a.job < |jobs| && a.outcome != Skipped
  {
    hide IsFlakeRun;
  }

  // ---- one attempt for each job -----------------------------------------------------------------

  /** Every job got exactly one attempt. */
  ghost predicate EachOnce(trace: seq<Attempt>, n: nat) { forall j :: 0 <= j < n ==> |Runs(trace, j)| == 1 }

  lemma {:induction false} AllRunsCounted(trace: seq<Attempt>, n: nat)
    requires forall k :: 0 <= k < |trace| ==> trace[k].job < n
    ensures RunsOfFirst(trace, n) == |trace|
  {
    if trace == [] {
      NoRuns(n);
    } else {
      var m := |trace| - 1;
      AllRunsCounted(trace[..m], n);
      RunsOfFirstMore(trace[..m], trace[m], n);
      assert trace == trace[..m] + [trace[m]];
    }
  }

  lemma {:induction false} AtMostOnce(trace: seq<Attempt>, n: nat)
    requires forall j :: 0 <= j < n ==> |Runs(trace, j)| <= 1
    ensures RunsOfFirst(trace, n) <= n && (RunsOfFirst(trace, n) == n ==> EachOnce(trace, n))
  {
    hide Runs;
    if n > 0 { AtMostOnce(trace, n - 1); }
  }

  lemma {:induction false} AtLeastOnce(trace: seq<Attempt>, n: nat)
    requires forall j :: 0 <= j < n ==> |Runs(trace, j)| >= 1
    ensures RunsOfFirst(trace, n) >= n && (RunsOfFirst(trace, n) == n ==> EachOnce(trace, n))
  {
    hide Runs;
    if n > 0 { AtLeastOnce(trace, n - 1); }
  }

  lemma {:induction false} RanOnce(trace: seq<Attempt>, k: nat)
    requires k < |trace|
    ensures |Runs(trace, trace[k].job)| >= 1
  {
    var n := |trace| - 1;
    if k < n { RanOnce(trace[..n], k); }
  }

  lemma {:induction false} RanTwice(trace: seq<Attempt>, i: nat, k: nat)
    requires i < k < |trace| && trace[i].job == trace[k].job
    ensures |Runs(trace, trace[i].job)| >= 2
  {
    var n := |trace| - 1;
    if k < n { RanTwice(trace[..n], i, k); } else { RanOnce(trace[..n], i); }
  }

  /** Without retries no job can take another's attempt. */
  lemma NoRetriesEachOnce(ctx: Context, jobs: seq<Individual>, sim: nat -> Reply, start: nat)
    requires ctx.cfg.parallelWorkers >= 1 && ctx.cfg.maxFlakeRetries == 0
    ensures EachOnce(Batch(ctx, Operation.Rerun, jobs, |jobs|, sim, start), |jobs|)
  {
    hide Batch, Runs;
    var t := Batch(ctx, Operation.Rerun, jobs, |jobs|, sim, start);
    BatchFacts(ctx, jobs, sim, start);
    AllRunsCounted(t, |jobs|);
    AtMostOnce(t, |jobs|);
  }

  lemma {:induction false} SplitTakesAll(jobs: seq<Individual>, capacity: nat, k: nat)
    requires Distinct(jobs) && k <= |jobs| <= capacity
    ensures ValidJobs(jobs, Fresh(|jobs|)[..k])
    ensures Split(jobs, Fresh(|jobs|)[..k], capacity) == Wave(Fresh(|jobs|)[..k], [])
  {
    hide Fresh, Split;
    var pending := Fresh(|jobs|);
    if k == 0 {
      SplitNone(jobs, capacity);
    } else {
      var before, p := pending[..k - 1], pending[k - 1];
      SplitTakesAll(jobs, capacity, k - 1);
      assert pending[..k] == before + [p];
      SplitMore(jobs, before, p, capacity);
      assert !InWave(jobs, before, p) by {
        forall i | 0 <= i < |before| ensures jobs[before[i].job] != jobs[p.job] { assert before[i] == Pending(i, 0); }
      }
    }
  }

  /** With a worker for each job they all fly in the first wave. */
  lemma OneWaveEachOnce(ctx: Context, jobs: seq<Individual>, sim: nat -> Reply, start: nat)
    requires |jobs| <= ctx.cfg.parallelWorkers && ctx.cfg.parallelWorkers >= 1 && Distinct(jobs)
    ensures EachOnce(Batch(ctx, Operation.Rerun, jobs, |jobs|, sim, start), |jobs|)
  {
    hide Runs, Split, Play, OutcomeOf, RestOf, Fresh, Launched;
    var n := |jobs|;
    var t := Batch(ctx, Operation.Rerun, jobs, n, sim, start);
    BatchFacts(ctx, jobs, sim, start);
    if n > 0 {
      var pending := Fresh(n);
      assert pending[..n] == pending;
      SplitTakesAll(jobs, n, n);
      var w := Wave(pending, []);
      var wave := WaveOf(ctx, Operation.Rerun, jobs, w, sim, start);
      var rest := RestOf(ctx, Operation.Rerun, jobs, w, sim, start);
      PlayStep(ctx, Operation.Rerun, jobs, pending, n, sim, start, rest, wave);
      assert t[..n] == wave && t == wave;
      forall j | 0 <= j < n ensures |Runs(t, j)| >= 1 {
        assert t[j].job == j;
        RanOnce(t, j);
      }
      AllRunsCounted(t, n);
      AtLeastOnce(t, n);
    }
  }

  lemma {:induction false} SplitFirst(jobs: seq<Individual>, pending: seq<Pending>, capacity: nat)
    requires ValidJobs(jobs, pending) && pending != [] && capacity > 0
    ensures var w := Split(jobs, pending, capacity); w.batch != [] && w.batch[0] == pending[0]
  {
    var n := |pending| - 1;
    if n > 0 { SplitFirst(jobs, pending[..n], capacity); }
  }

  lemma {:induction false} RetriesFirst(batch: seq<Pending>, outcomes: seq<Outcome>, maxRetries: nat)
    requires |batch| == |outcomes| > 0 && outcomes[0] == Flake && batch[0].retries < maxRetries
    ensures var r := RetriesOf(batch, outcomes, maxRetries);
            r != [] && r[0] == Pending(batch[0].job, batch[0].retries + 1)
  {
    var n := |batch| - 1;
    if n > 0 { RetriesFirst(batch[..n], outcomes[..n], maxRetries); }
  }

  /** A wave serves the head of the queue, and if that flakes with a retry left, it is the head again. */
  lemma HeadOfWave(ctx: Context, op: Operation, jobs: seq<Individual>, pending: seq<Pending>, capacity: nat,
                   sim: nat -> Reply, clock: nat)
    requires ValidJobs(jobs, pending) && pending != [] && capacity > 0
    ensures var w := Split(jobs, pending, capacity);
            var wave, rest := WaveOf(ctx, op, jobs, w, sim, clock), RestOf(ctx, op, jobs, w, sim, clock);
            && wave != [] && wave[0].job == pending[0].job
            && (OutcomeOf(ctx, op, jobs[pending[0].job].obstacles, sim(clock)) == Flake
                && pending[0].retries < ctx.cfg.maxFlakeRetries ==>
                  rest != [] && rest[0] == Pending(pending[0].job, pending[0].retries + 1))
  {
    hide OutcomeOf, Split, RetriesOf;
    var w := Split(jobs, pending, capacity);
    SplitFirst(jobs, pending, capacity);
    var replies := RepliesFrom(sim, clock, |w.batch|);
    var outcomes := OutcomesOf(ctx, op, jobs, w.batch, replies);
    assert replies[0] == sim(clock);
    if outcomes[0] == Flake && pending[0].retries < ctx.cfg.maxFlakeRetries {
      RetriesFirst(w.batch, outcomes, ctx.cfg.maxFlakeRetries);
    }
  }

  /** With fewer workers than jobs, a flake in the first attempt is retried before the last jobs get theirs. */
  lemma FlakeTakesTwo(ctx: Context, jobs: seq<Individual>, sim: nat -> Reply, start: nat)
    requires |jobs| > ctx.cfg.parallelWorkers >= 1 && ctx.cfg.maxFlakeRetries >= 1
    requires OutcomeOf(ctx, Operation.Rerun, jobs[0].obstacles, sim(start)) == Flake
    ensures |Runs(Batch(ctx, Operation.Rerun, jobs, |jobs|, sim, start), 0)| >= 2
  {
    hide OutcomeOf, Runs, Split, Play, WaveOf, RestOf, Launched;
    var op, n := Operation.Rerun, |jobs|;
    var pending := Fresh(n);
    var w := Split(jobs, pending, Capacity(ctx, n));
    var wave, rest := WaveOf(ctx, op, jobs, w, sim, start), RestOf(ctx, op, jobs, w, sim, start);
    HeadOfWave(ctx, op, jobs, pending, Capacity(ctx, n), sim, start);
    PlayStep(ctx, op, jobs, pending, n, sim, start, rest, wave);
    RestShrinks(ctx, op, jobs, pending, Capacity(ctx, n), sim, start);
    var left, clock := n - Launched(wave), start + |wave|;
    var w2 := Split(jobs, rest, Capacity(ctx, left));
    var wave2, rest2 := WaveOf(ctx, op, jobs, w2, sim, clock), RestOf(ctx, op, jobs, w2, sim, clock);
    HeadOfWave(ctx, op, jobs, rest, Capacity(ctx, left), sim, clock);
    PlayStep(ctx, op, jobs, rest, left, sim, clock, rest2, wave2);
    var t := Batch(ctx, op, jobs, n, sim, start);
    assert t[0] == wave[0] && t[|wave|] == wave2[0];
    RanTwice(t, 0, |wave|);
  }

  ghost function StraySim(cfg: Config): nat -> Reply { (k: nat) => Stray(cfg) }

  /**
   Confirming a list of individuals on a budget of one attempt each gives every one of them exactly one, whatever the
   simulator answers, if and only if flakes are not retried or there is a worker for each.
   */
  lemma OneAttemptForEachExactly(ctx: Context, jobs: seq<Individual>)
    requires Distinct(jobs) && ctx.cfg.parallelWorkers >= 1
    ensures ctx.cfg.maxFlakeRetries == 0 || |jobs| <= ctx.cfg.parallelWorkers <==>
            forall sim, start :: EachOnce(Batch(ctx, Operation.Rerun, jobs, |jobs|, sim, start), |jobs|)
  {
    hide Batch, Runs, OutcomeOf;
    if ctx.cfg.maxFlakeRetries == 0 || |jobs| <= ctx.cfg.parallelWorkers {
      forall sim, start ensures EachOnce(Batch(ctx, Operation.Rerun, jobs, |jobs|, sim, start), |jobs|) {
        if ctx.cfg.maxFlakeRetries == 0 {
          NoRetriesEachOnce(ctx, jobs, sim, start);
        } else {
          OneWaveEachOnce(ctx, jobs, sim, start);
        }
      }
    } else {
      var sim := StraySim(ctx.cfg);
      StrayIsFlake(ctx, Operation.Rerun, jobs[0].obstacles);
      FlakeTakesTwo(ctx, jobs, sim, 0);
      assert !EachOnce(Batch(ctx, Operation.Rerun, jobs, |jobs|, sim, 0), |jobs|);
    }
  }

  /** Two individuals, one worker: a flake on the first takes the attempt meant for the second. */
  lemma FlakeStarvesNext(ctx: Context, a: Individual, b: Individual, sim: nat -> Reply, start: nat)
    requires ctx.cfg.parallelWorkers == 1 && ctx.cfg.maxFlakeRetries >= 1
    requires OutcomeOf(ctx, Operation.Rerun, a.obstacles, sim(start)) == Flake
    ensures var t := Batch(ctx, Operation.Rerun, [a, b], 2, sim, start); |Runs(t, 0)| == 2 && Runs(t, 1) == []
  {
    hide Batch, Runs, OutcomeOf, Retried;
    var t := Batch(ctx, Operation.Rerun, [a, b], 2, sim, start);
    FlakeTakesTwo(ctx, [a, b], sim, start);
    BatchFacts(ctx, [a, b], sim, start);
    AllRunsCounted(t, 2);
    assert RunsOfFirst(t, 2) == RunsOfFirst(t, 0) + |Runs(t, 0)| + |Runs(t, 1)|;
  }

  // ---- the order of the jobs --------------------------------------------------------------------

  /** The jobs are taken up one after the other, from the first on. */
  ghost predicate Orderly(trace: seq<Attempt>) { OrderlyFrom(trace, 0) }

  ghost predicate OrderlyFrom(trace: seq<Attempt>, first: nat) {
    && (trace != [] ==> trace[0].job == first)
    && forall k :: 0 < k < |trace| ==> trace[k].job == trace[k - 1].job || trace[k].job == trace[k - 1].job + 1
  }

  /** The queue holds the jobs from its first one to the last. */
  ghost predicate InLine(pending: seq<Pending>) {
    forall i :: 0 <= i < |pending| ==> pending[i].job == pending[0].job + i
  }

  lemma {:induction false} SplitOne(jobs: seq<Individual>, pending: seq<Pending>)
    requires ValidJobs(jobs, pending) && pending != []
    ensures Split(jobs, pending, 1) == Wave([pending[0]], pending[1..])
  {
    var n := |pending| - 1;
    if n > 0 {
      SplitOne(jobs, pending[..n]);
      assert pending[1..] == pending[..n][1..] + [pending[n]];
    }
  }

  /** One worker works off the queue from its head. */
  lemma {:induction false} OneWorkerIsOrderly(ctx: Context, op: Operation, jobs: seq<Individual>, pending: seq<Pending>,
                                              budget: nat, sim: nat -> Reply, clock: nat)
    requires ctx.cfg.parallelWorkers == 1 && InLine(pending)
    requires ValidJobs(jobs, pending) && WithinRetries(pending, ctx.cfg.maxFlakeRetries)
    ensures var t := Play(ctx, op, jobs, pending, budget, sim, clock);
            && (t != [] ==> pending != []) && OrderlyFrom(t, if pending == [] then 0 else pending[0].job)
    decreases Allowance(pending, ctx.cfg.maxFlakeRetries)
  {
    hide OutcomeOf, Split, Launched, Allowance, Play, RestOf, OrderlyFrom, InLine;
    if pending == [] || budget == 0 {
      PlayEnd(ctx, op, jobs, pending, budget, sim, clock);
      NothingIsOrderly(if pending == [] then 0 else pending[0].job);
    } else {
      SplitOne(jobs, pending);
      var w := Wave([pending[0]], pending[1..]);
      var wave, rest := WaveOf(ctx, op, jobs, w, sim, clock), RestOf(ctx, op, jobs, w, sim, clock);
      PlayStep(ctx, op, jobs, pending, budget, sim, clock, rest, wave);
      RestShrinks(ctx, op, jobs, pending, 1, sim, clock);
      OneWorkerRest(ctx, op, jobs, pending, sim, clock, rest);
      OneWorkerIsOrderly(ctx, op, jobs, rest, budget - Launched(wave), sim, clock + |wave|);
      var later := Play(ctx, op, jobs, rest, budget - Launched(wave), sim, clock + |wave|);
      assert wave == [wave[0]] && wave[0].job == pending[0].job;
      OneMoreBefore(wave[0], later, if rest == [] then 0 else rest[0].job);
    }
  }

  lemma OneMoreBefore(a: Attempt, later: seq<Attempt>, next: nat)
    requires OrderlyFrom(later, next) && (later != [] ==> a.job <= next <= a.job + 1)
    ensures OrderlyFrom([a] + later, a.job)
  {
    var t := [a] + later;
    forall k | 0 < k < |t| ensures t[k].job == t[k - 1].job || t[k].job == t[k - 1].job + 1 {
      assert t[k] == later[k - 1];
      if k > 1 { assert t[k - 1] == later[k - 2]; }
    }
  }

  /** Afterwards the head is the same job again, or the one behind it. */
  lemma OneWorkerRest(ctx: Context, op: Operation, jobs: seq<Individual>, pending: seq<Pending>, sim: nat -> Reply,
                      clock: nat, rest: seq<Pending>)
    requires ValidJobs(jobs, pending) && pending != [] && InLine(pending)
    requires rest == RestOf(ctx, op, jobs, Wave([pending[0]], pending[1..]), sim, clock)
    ensures InLine(rest) && (rest != [] ==> pending[0].job <= rest[0].job <= pending[0].job + 1)
  {
    hide OutcomeOf;
    var replies := RepliesFrom(sim, clock, 1);
    var outcomes := OutcomesOf(ctx, op, jobs, [pending[0]], replies);
    assert outcomes == [outcomes[0]];
    RetriesOfOne(pending[0], outcomes[0], ctx.cfg.maxFlakeRetries);
  }

  lemma RetriesOfOne(p: Pending, outcome: Outcome, maxRetries: nat)
    ensures RetriesOf([p], [outcome], maxRetries) ==
            if outcome == Flake && p.retries < maxRetries then [Pending(p.job, p.retries + 1)] else []
  {
    assert [p][..0] == [] && [outcome][..0] == [];
  }

  lemma NothingIsOrderly(first: nat)
    ensures OrderlyFrom([], first)
  {}

  /** Two workers take up the third job while the second waits for its individual. */
  lemma WaveOvertakes(a: Individual, b: Individual, capacity: nat)
    requires capacity >= 2 && a != b
    ensures Split([a, a, b], Fresh(3), capacity) == Wave([Pending(0, 0), Pending(2, 0)], [Pending(1, 0)])
  {
    hide Split, InWave;
    var jobs, p, q, r := [a, a, b], Pending(0, 0), Pending(1, 0), Pending(2, 0);
    SplitNone(jobs, capacity);
    SplitMore(jobs, [], p, capacity);
    InEmptyWave(jobs, p);
    assert [] + [p] == [p];
    SplitMore(jobs, [p], q, capacity);
    InWaveOfOne(jobs, p, q);
    assert [p] + [q] == [p, q];
    SplitMore(jobs, [p, q], r, capacity);
    InWaveOfOne(jobs, p, r);
    assert [p] + [r] == [p, r] && [p, q] + [r] == Fresh(3);
  }

  lemma InEmptyWave(jobs: seq<Individual>, p: Pending)
    requires p.job < |jobs|
    ensures !InWave(jobs, [], p)
  {}

  lemma InWaveOfOne(jobs: seq<Individual>, q: Pending, p: Pending)
    requires p.job < |jobs| && q.job < |jobs|
    ensures InWave(jobs, [q], p) <==> jobs[q.job] == jobs[p.job]
  {
    assert [q][0] == q;
  }

  lemma Overtaking(ctx: Context, op: Operation, a: Individual, b: Individual, sim: nat -> Reply)
    requires ctx.cfg.parallelWorkers >= 2 && a != b
    ensures !Orderly(Batch(ctx, op, [a, a, b], 3, sim, 0))
  {
    hide OutcomeOf, Play, Launched, RestOf, Split;
    var jobs, w := [a, a, b], Wave([Pending(0, 0), Pending(2, 0)], [Pending(1, 0)]);
    WaveOvertakes(a, b, Capacity(ctx, 3));
    var wave := WaveOf(ctx, op, jobs, w, sim, 0);
    PlayStep(ctx, op, jobs, Fresh(3), 3, sim, 0, RestOf(ctx, op, jobs, w, sim, 0), wave);
    var t := Batch(ctx, op, jobs, 3, sim, 0);
    assert t[0] == wave[0] && t[1] == wave[1];
  }

  /** The jobs of every batch are taken up in order, whatever the simulator answers, exactly with a single worker. */
  lemma OrderIsKeptExactly(ctx: Context, op: Operation, a: Individual, b: Individual)
    requires ctx.cfg.parallelWorkers >= 1 && a != b
    ensures ctx.cfg.parallelWorkers == 1 <==>
            forall jobs, budget, sim, start :: Orderly(Batch(ctx, op, jobs, budget, sim, start))
  {
    hide Play, Orderly;
    if ctx.cfg.parallelWorkers == 1 {
      forall jobs, budget, sim, start ensures Orderly(Batch(ctx, op, jobs, budget, sim, start)) {
        OneWorkerBatch(ctx, op, jobs, budget, sim, start);
      }
    } else {
      Overtaking(ctx, op, a, b, StraySim(ctx.cfg));
    }
  }

  lemma OneWorkerBatch(ctx: Context, op: Operation, jobs: seq<Individual>, budget: nat, sim: nat -> Reply, start: nat)
    requires ctx.cfg.parallelWorkers == 1
    ensures Orderly(Batch(ctx, op, jobs, budget, sim, start))
  {
    hide Play;
    OneWorkerIsOrderly(ctx, op, jobs, Fresh(|jobs|), budget, sim, start);
  }

  /** In order, nothing is left out: when a job is taken up, every one before it has been. */
  lemma {:induction false} OrderlyLeavesNoneOut(trace: seq<Attempt>, k: nat, j: nat) returns (i: nat)
    requires Orderly(trace) && k < |trace| && j <= trace[k].job
    ensures i <= k && trace[i].job == j
  {
    if j == trace[k].job {
      i := k;
    } else {
      i := OrderlyLeavesNoneOut(trace, k - 1, j);
    }
  }

  ghost predicate TakenUpBy(trace: seq<Attempt>, k: nat, job: nat) {
    exists i :: 0 <= i <= k && i < |trace| && trace[i].job == job
  }

  /**
   With the jobs of a fair schedule taken up in order, whoever is taken up for the m-th rerun, everybody has been taken
   up for m - 1 by then.
   */
  lemma NobodyOvertaken(existing: seq<nat>, order: seq<nat>, trace: seq<Attempt>, k: nat, c: nat)
    requires Fair(existing, order) && Orderly(trace) && k < |trace| && trace[k].job < |order| && c < |existing|
    ensures order[trace[k].job] < |existing|
    ensures forall j :: 0 <= j <= trace[k].job ==> TakenUpBy(trace, k, j)
    ensures var begun := order[..trace[k].job + 1];
            Reruns(existing, begun, c) >= Reruns(existing, begun, order[trace[k].job]) - 1
  {
    var m := trace[k].job;
    assert FairAt(existing, order, m);
    NobodyLeftBehind(existing, order, m + 1, m, c);
    forall j | 0 <= j <= m ensures TakenUpBy(trace, k, j) {
      var i := OrderlyLeavesNoneOut(trace, k, j);
    }
  }
}
