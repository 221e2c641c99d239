/** The order in which promising candidates get their reruns (generator.py): round robin, cut off by the budget. */
module Refinement {

  /** How often c occurs in the job list. */
  function Scheduled(jobs: seq<nat>, c: nat): nat {
    if jobs == [] then 0 else Scheduled(jobs[..|jobs| - 1], c) + if jobs[|jobs| - 1] == c then 1 else 0
  }

  /** The reruns candidate c has after the listed jobs, counting the ones it started with. */
  function Reruns(existing: seq<nat>, jobs: seq<nat>, c: nat): nat
    requires c < |existing|
  {
    existing[c] + Scheduled(jobs, c)
  }

  lemma NothingScheduled()
    ensures forall c :: Scheduled([], c) == 0
  {}

  lemma ScheduledMore(jobs: seq<nat>, j: nat, c: nat)
    ensures Scheduled(jobs + [j], c) == Scheduled(jobs, c) + if j == c then 1 else 0
  {}

  /** When a job gives some candidate its next rerun, no candidate has fewer reruns than that one. */
  ghost predicate FairAt(existing: seq<nat>, jobs: seq<nat>, k: nat)
    requires k < |jobs|
  {
    jobs[k] < |existing| &&
    forall c :: 0 <= c < |existing| ==> Reruns(existing, jobs[..k], c) >= Reruns(existing, jobs[..k], jobs[k])
  }

  ghost predicate Fair(existing: seq<nat>, jobs: seq<nat>) {
    forall k :: 0 <= k < |jobs| ==> FairAt(existing, jobs, k)
  }

  /** The job list: rounds over all candidates, cut off at the budget. */
  method RoundRobin(existing: seq<nat>, nReruns: nat, budget: nat) returns (jobs: seq<nat>)
    ensures |jobs| <= budget && forall k :: 0 <= k < |jobs| ==> jobs[k] < |existing|
    ensures Fair(existing, jobs)
    ensures forall k :: 0 <= k < |jobs| ==> Reruns(existing, jobs[..k], jobs[k]) < nReruns
    ensures |jobs| < budget ==> forall c :: 0 <= c < |existing| ==> Reruns(existing, jobs, c) >= nReruns
  {
    hide Scheduled;
    jobs := [];
    var round := 0;
    NothingScheduled();
    while round < nReruns && |jobs| < budget
      invariant 0 <= round <= nReruns && |jobs| <= budget && Fair(existing, jobs)
      invariant forall k :: 0 <= k < |jobs| ==> jobs[k] < |existing| && Reruns(existing, jobs[..k], jobs[k]) < nReruns
      invariant |jobs| < budget || round == 0 ==> forall c :: 0 <= c < |existing| ==> Reruns(existing, jobs, c) >= round
      invariant |jobs| < budget || round == 0 ==>
                  forall c :: 0 <= c < |existing| ==>
                      Reruns(existing, jobs, c) == (if existing[c] >= round then existing[c] else round)
      decreases nReruns - round
    {
      for c := 0 to |existing|
        invariant |jobs| <= budget && Fair(existing, jobs)
        invariant forall k :: 0 <= k < |jobs| ==> jobs[k] < |existing| && Reruns(existing, jobs[..k], jobs[k]) < nReruns
        invariant forall d :: 0 <= d < |existing| ==> Reruns(existing, jobs, d) >= round
        invariant |jobs| < budget ==> forall d :: 0 <= d < |existing| ==>
                    Reruns(existing, jobs, d) ==
                      var target := if d < c then round + 1 else round;
                      if existing[d] >= target then existing[d] else target
      {
        if existing[c] <= round && |jobs| < budget {
          ghost var before := jobs;
          jobs := jobs + [c];
          forall d | 0 <= d < |existing| ensures Scheduled(jobs, d) == Scheduled(before, d) + if d == c then 1 else 0 {
            ScheduledMore(before, c, d);
          }
          FairMore(existing, before, c);
          assert forall k :: 0 <= k < |before| ==> jobs[..k] == before[..k];
          assert jobs[..|before|] == before;
        }
      }
      round := round + 1;
    }
  }

  lemma FairMore(existing: seq<nat>, jobs: seq<nat>, c: nat)
    requires Fair(existing, jobs) && c < |existing|
    requires forall d :: 0 <= d < |existing| ==> Reruns(existing, jobs, d) >= Reruns(existing, jobs, c)
    ensures Fair(existing, jobs + [c])
  {
    hide Reruns;
    var more := jobs + [c];
    forall k | 0 <= k < |more| ensures FairAt(existing, more, k) {
      assert k < |jobs| ==> FairAt(existing, jobs, k);
      if k < |jobs| { assert more[..k] == jobs[..k]; } else { assert more[..k] == jobs; }
    }
  }

  lemma {:induction false} ScheduledGrows(jobs: seq<nat>, k: nat, c: nat)
    requires k <= |jobs|
    ensures Scheduled(jobs[..k], c) <= Scheduled(jobs, c)
  {
    if k == |jobs| {
      assert jobs[..k] == jobs;
    } else {
      assert jobs[..|jobs| - 1][..k] == jobs[..k];
      ScheduledGrows(jobs[..|jobs| - 1], k, c);
    }
  }

  /**
   If the list brings some candidate to m reruns by a job, every candidate ends with at least m - 1, wherever it is
   cut.
   */
  lemma NobodyLeftBehind(existing: seq<nat>, jobs: seq<nat>, cut: nat, k: nat, c: nat)
    requires Fair(existing, jobs) && k < cut <= |jobs| && c < |existing| && jobs[k] < |existing|
    ensures Reruns(existing, jobs[..cut], c) >= Reruns(existing, jobs[..k + 1], jobs[k]) - 1
  {
    assert jobs[..k + 1] == jobs[..k] + [jobs[k]];
    ScheduledMore(jobs[..k], jobs[k], jobs[k]);
    ScheduledGrows(jobs[..cut], k, c);
    assert jobs[..cut][..k] == jobs[..k];
    assert Reruns(existing, jobs[..cut], c) >= Reruns(existing, jobs[..k], c);
    assert FairAt(existing, jobs, k);
    assert Reruns(existing, jobs[..k], c) >= Reruns(existing, jobs[..k], jobs[k]);
  }
}
