/** What a list of attempts adds up to, for one individual and for the whole campaign. */
module Ledger {
  import opened Boxes
  import opened Scoring
  import opened Suite
  import opened Sorting
  import opened Individuals
  import opened Scheduler

  /** The attempt appended a measurement to its individual. */
  ghost predicate Recorded(a: Attempt) { a.outcome == Consumed && (a.op == Rerun || !Raises(a.reply)) }

  /** The attempt was a first evaluation that failed. */
  ghost predicate FailedFirst(a: Attempt) { a.outcome == Consumed && a.op == Operation.Evaluate && Raises(a.reply) }

  ghost function RecordedIn(log: seq<Attempt>): nat {
    if log == [] then 0 else RecordedIn(log[..|log| - 1]) + if Recorded(log[|log| - 1]) then 1 else 0
  }

  ghost function FailedIn(log: seq<Attempt>): nat {
    if log == [] then 0 else FailedIn(log[..|log| - 1]) + if FailedFirst(log[|log| - 1]) then 1 else 0
  }

  ghost function FlakesIn(log: seq<Attempt>): nat {
    if log == [] then 0 else FlakesIn(log[..|log| - 1]) + if log[|log| - 1].outcome == Flake then 1 else 0
  }

  ghost function EvaluationsIn(log: seq<Attempt>): nat {
    if log == [] then 0 else EvaluationsIn(log[..|log| - 1]) + if log[|log| - 1].op == Operation.Evaluate then 1 else 0
  }

  lemma {:induction false} CountsOfJoin(a: seq<Attempt>, b: seq<Attempt>)
    ensures RecordedIn(a + b) == RecordedIn(a) + RecordedIn(b)
    ensures EvaluationsIn(a + b) == EvaluationsIn(a) + EvaluationsIn(b)
  {
    if b == [] {
      assert a + b == a;
    } else {
      var n := |b| - 1;
      CountsOfJoin(a, b[..n]);
      assert (a + b)[..|a| + n] == a + b[..n];
    }
  }

  lemma {:induction false} OfJoin(a: seq<Attempt>, b: seq<Attempt>, ind: Individual)
    ensures Of(a + b, ind) == Of(a, ind) + Of(b, ind)
  {
    if b == [] {
      assert a + b == a;
    } else {
      var n := |b| - 1;
      OfJoin(a, b[..n], ind);
      assert (a + b)[..|a| + n] == a + b[..n];
    }
  }

  lemma {:induction false} OfMembers(log: seq<Attempt>, ind: Individual)
    ensures forall i :: 0 <= i < |Of(log, ind)| ==>
              Of(log, ind)[i].ind == ind && exists k :: 0 <= k < |log| && log[k] == Of(log, ind)[i]
  {
    if log != [] {
      var n := |log| - 1;
      OfMembers(log[..n], ind);
      var rest, all := Of(log[..n], ind), Of(log, ind);
      forall i | 0 <= i < |all| ensures all[i].ind == ind && exists k :: 0 <= k < |log| && log[k] == all[i] {
        if i < |rest| {
          var k :| 0 <= k < n && log[..n][k] == rest[i];
          assert log[k] == all[i];
        }
      }
    }
  }

  lemma {:induction false} OfStranger(log: seq<Attempt>, ind: Individual)
    requires forall k :: 0 <= k < |log| ==> log[k].ind != ind
    ensures Of(log, ind) == []
  {
    if log != [] { OfStranger(log[..|log| - 1], ind); }
  }

  /** With one job per individual, the attempts of the job and of the individual are the same. */
  lemma {:induction false} RunsAreOf(jobs: seq<Individual>, trace: seq<Attempt>, j: nat)
    requires Distinct(jobs) && j < |jobs|
    requires forall k :: 0 <= k < |trace| ==> trace[k].job < |jobs| && trace[k].ind == jobs[trace[k].job]
    ensures Of(trace, jobs[j]) == Runs(trace, j)
  {
    if trace != [] { RunsAreOf(jobs, trace[..|trace| - 1], j); }
  }

  // ---- conservation -----------------------------------------------------------------------------

  /** Every attempt that reached the simulator was recorded, was a flake, or was a failed first evaluation. */
  lemma {:induction false} AttemptsAddUp(log: seq<Attempt>)
    ensures Launched(log) == RecordedIn(log) + FlakesIn(log) + FailedIn(log)
  {
    if log != [] { AttemptsAddUp(log[..|log| - 1]); }
  }

  /** The measurements recorded on the given individuals. */
  ghost function RecordedOn(log: seq<Attempt>, inds: seq<Individual>): nat {
    if inds == [] then 0 else RecordedOn(log, inds[..|inds| - 1]) + RecordedIn(Of(log, inds[|inds| - 1]))
  }

  lemma {:induction false} RecordedOnMore(log: seq<Attempt>, a: Attempt, inds: seq<Individual>)
    requires Distinct(inds)
    ensures RecordedOn(log + [a], inds) == RecordedOn(log, inds) + if a.ind in inds && Recorded(a) then 1 else 0
  {
    hide RecordedIn, Of, Recorded;
    if inds != [] {
      var n := |inds| - 1;
      RecordedOnMore(log, a, inds[..n]);
      RecordedOfMore(log, a, inds[n]);
      assert a.ind in inds <==> a.ind in inds[..n] || a.ind == inds[n];
    }
  }

  lemma RecordedOfMore(log: seq<Attempt>, a: Attempt, ind: Individual)
    ensures RecordedIn(Of(log + [a], ind)) == RecordedIn(Of(log, ind)) + if a.ind == ind && Recorded(a) then 1 else 0
  {
    assert (log + [a])[..|log|] == log;
    var of := Of(log, ind);
    assert (of + [a])[..|of|] == of;
    assert of + [] == of;
  }

  /** If every recorded attempt belongs to one of the listed individuals, their measurements are all there are. */
  lemma {:induction false} RecordedSomewhere(log: seq<Attempt>, inds: seq<Individual>)
    requires Distinct(inds) && forall k :: 0 <= k < |log| && Recorded(log[k]) ==> log[k].ind in inds
    ensures RecordedOn(log, inds) == RecordedIn(log)
  {
    hide RecordedOn, Of, Recorded;
    if log == [] {
      NothingRecorded(inds);
    } else {
      var n := |log| - 1;
      RecordedSomewhere(log[..n], inds);
      RecordedOnMore(log[..n], log[n], inds);
      assert log == log[..n] + [log[n]];
    }
  }

  lemma {:induction false} NothingRecorded(inds: seq<Individual>)
    ensures RecordedOn([], inds) == 0
  {
    if inds != [] { NothingRecorded(inds[..|inds| - 1]); }
  }

  // ---- what the attempts of one batch do to one individual --------------------------------------

  /** No run has been recorded yet. */
  ghost predicate Unflown(v: Vitals) {
    !v.valid && v.fitness == Infinite && v.officialScore == 0.0 && v.distances == [] && v.flightDurations == []
      && v.trajectories == []
  }

  /** The cached scores equal their recomputation from all recorded runs and the stuck flag. */
  ghost predicate Coherent(cfg: Config, boxes: seq<Box>, v: Vitals) {
    v.valid && !v.illegal && v.distances != [] && v.testCase.Some? && Measured(boxes, v) && Rescored(cfg, boxes, v) == v
  }

  ghost predicate Answered(ctx: Context, op: Operation, boxes: seq<Box>, runs: seq<Attempt>) {
    forall i :: 0 <= i < |runs| ==> runs[i].op == op && runs[i].outcome == OutcomeOf(ctx, op, boxes, runs[i].reply)
  }

  lemma {:induction false} FlakesLeaveUnflown(ctx: Context, boxes: seq<Box>, v: Vitals, runs: seq<Attempt>)
    requires Unflown(v) && !v.illegal && Measured(boxes, v) && LegalLayout(ctx.cfg.bounds, boxes)
    requires Answered(ctx, Operation.Evaluate, boxes, runs) && forall i :: 0 <= i < |runs| ==> runs[i].outcome == Flake
    ensures var w := Replay(ctx, Operation.Evaluate, boxes, v, runs);
            Unflown(w) && !w.illegal && w.attempts == v.attempts + |runs|
    ensures RecordedIn(runs) == 0 && EvaluationsIn(runs) == |runs|
  {
    hide LegalLayout, IsFlakeRun;
    if runs != [] { FlakesLeaveUnflown(ctx, boxes, v, runs[..|runs| - 1]); }
  }

  /** The result of the evaluations of one batch: at most one measurement, and then the scores are coherent. */
  ghost predicate EvaluatedTo(cfg: Config, boxes: seq<Box>, v: Vitals, runs: seq<Attempt>, w: Vitals) {
    && w.attempts == v.attempts + |runs| && !w.illegal && |w.distances| == RecordedIn(runs) <= 1
    && EvaluationsIn(runs) == |runs|
    && if RecordedIn(runs) == 1 then Coherent(cfg, boxes, w) else Unflown(w)
  }

  lemma EvaluationSummary(ctx: Context, boxes: seq<Box>, v: Vitals, runs: seq<Attempt>)
    requires Unflown(v) && !v.illegal && Measured(boxes, v) && LegalLayout(ctx.cfg.bounds, boxes)
    requires Answered(ctx, Operation.Evaluate, boxes, runs) && Retried(runs, ctx.cfg.maxFlakeRetries)
    ensures EvaluatedTo(ctx.cfg, boxes, v, runs, Replay(ctx, Operation.Evaluate, boxes, v, runs))
  {
    hide LegalLayout, IsFlakeRun, OfficialTestScore, SearchTestScore, ReachedGoal;
    if forall i :: 0 <= i < |runs| ==> runs[i].outcome == Flake {
      FlakesLeaveUnflown(ctx, boxes, v, runs);
    } else {
      var n := |runs| - 1;
      FlakesLeaveUnflown(ctx, boxes, v, runs[..n]);
      LastEvaluation(ctx, boxes, Replay(ctx, Operation.Evaluate, boxes, v, runs[..n]), runs[n]);
    }
  }

  lemma LastEvaluation(ctx: Context, boxes: seq<Box>, v: Vitals, a: Attempt)
    requires Unflown(v) && !v.illegal && Measured(boxes, v) && LegalLayout(ctx.cfg.bounds, boxes)
    requires a.op == Operation.Evaluate && a.outcome == OutcomeOf(ctx, Operation.Evaluate, boxes, a.reply)
    ensures var w := AttemptStep(ctx, Operation.Evaluate, boxes, v, a.reply);
            && w.attempts == v.attempts + 1 && !w.illegal
            && if Recorded(a) then |w.distances| == 1 && Coherent(ctx.cfg, boxes, w) else Unflown(w)
  {
    hide LegalLayout, IsFlakeRun, OfficialTestScore, SearchTestScore, ReachedGoal;
  }

  /**
   The result of the reruns of one batch: one distance per recorded attempt; without any, the scores are still right.
   */
  ghost predicate RerunTo(cfg: Config, boxes: seq<Box>, v: Vitals, runs: seq<Attempt>, w: Vitals) {
    && w.valid && !w.illegal && w.testCase.Some? && Measured(boxes, w)
    && w.attempts == v.attempts && w.generation == v.generation
    && |w.distances| == |v.distances| + RecordedIn(runs) && w.distances[..|v.distances|] == v.distances
    && EvaluationsIn(runs) == 0
    && (RecordedIn(runs) == 0 ==> Coherent(cfg, boxes, w))
  }

  lemma {:induction false} RerunSummary(ctx: Context, boxes: seq<Box>, v: Vitals, runs: seq<Attempt>)
    requires Coherent(ctx.cfg, boxes, v) && Answered(ctx, Operation.Rerun, boxes, runs)
    ensures RerunTo(ctx.cfg, boxes, v, runs, Replay(ctx, Operation.Rerun, boxes, v, runs))
  {
    hide LegalLayout, IsFlakeRun, OfficialTestScore, SearchTestScore, ReachedGoal;
    if runs != [] {
      var n := |runs| - 1;
      RerunSummary(ctx, boxes, v, runs[..n]);
      OneRerun(ctx, boxes, Replay(ctx, Operation.Rerun, boxes, v, runs[..n]), runs[n]);
    } else {
      assert v.distances[..|v.distances|] == v.distances;
    }
  }

  lemma OneRerun(ctx: Context, boxes: seq<Box>, v: Vitals, a: Attempt)
    requires Measured(boxes, v) && v.valid && !v.illegal && v.testCase.Some?
    requires a.op == Operation.Rerun && a.outcome == OutcomeOf(ctx, Operation.Rerun, boxes, a.reply)
    ensures var w := AttemptStep(ctx, Operation.Rerun, boxes, v, a.reply);
            && w.valid && !w.illegal && w.testCase.Some? && w.attempts == v.attempts && w.generation == v.generation
            && |w.distances| == |v.distances| + (if Recorded(a) then 1 else 0)
            && w.distances[..|v.distances|] == v.distances
            && (!Recorded(a) && Coherent(ctx.cfg, boxes, v) ==> Coherent(ctx.cfg, boxes, w))
  {}
}
