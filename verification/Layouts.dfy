/** From evaluated layouts to the tests of a suite and back (generator.py). */
module Layouts {
  import opened Plane
  import opened Mission
  import opened Suite
  import opened SuiteLaws
  import opened Sorting
  import opened Individuals
  import opened Tournaments
  import opened Flights

  /** The test stands for the i-th evaluated layout. */
  ghost predicate StandsFor(t: Test, m: Member, i: nat, dist: (Vec, Vec) -> real) {
    && t.id == i && t.boxes == m.who.obstacles && t.frame == Frame(m.who.genes.segment, m.who.genes.side)
    && t.valid == m.life.valid && t.stuck == m.life.stuck && t.officialScore == m.life.officialScore
    && t.distances == m.life.distances && IsMeanTrajectory(m.life.trajectories, dist, t.path)
    && (t.path == [] || |t.path| == RESAMPLE_POINTS)
  }

  ghost predicate StandFor(tests: seq<Test>, roster: seq<Member>, dist: (Vec, Vec) -> real) {
    |tests| == |roster| && forall i :: 0 <= i < |roster| ==> StandsFor(tests[i], roster[i], i, dist)
  }

  method TestsOf(inds: seq<Individual>, dist: (Vec, Vec) -> real) returns (tests: seq<Test>)
    requires Euclidean(dist)
    ensures StandFor(tests, Census(inds), dist)
  {
    hide Euclidean, IsMeanTrajectory;
    tests := [];
    for i := 0 to |inds|
      invariant |tests| == i && forall k :: 0 <= k < i ==> StandsFor(tests[k], Census(inds)[k], k, dist)
    {
      var x := inds[i];
      var path := MeanTrajectory(x.trajectories, dist);
      tests := tests + [Test(i, x.obstacles, Frame(x.genes.segment, x.genes.side), x.valid, x.stuck, x.officialScore,
        x.distances, path)];
    }
  }

  /** The submitted layouts: distinct, never stuck and positively scored, at most topK. */
  ghost predicate Submitted(chosen: seq<Member>, roster: seq<Member>, suite: seq<Test>, rules: Rules) {
    && |chosen| == |suite| <= rules.topK
    && (forall i, j :: 0 <= i < j < |chosen| ==> chosen[i].who != chosen[j].who)
    && forall i :: 0 <= i < |chosen| ==>
         && suite[i].id < |roster| && chosen[i] == roster[suite[i].id] && chosen[i].who.obstacles == suite[i].boxes
         && chosen[i].life.valid && !chosen[i].life.stuck && chosen[i].life.officialScore > 0.0
  }

  /** One suite selection: what it chose from, the thresholds it started and stopped at, and the suite. */
  datatype Selection = Selection(tests: seq<Test>, start: real, threshold: real, suite: seq<Test>)

  /** The suite is the one the halving loop stops at, started with all evaluated layouts. */
  ghost predicate Selected(s: Selection, roster: seq<Member>, rules: Rules) {
    var c := Candidates(s.tests, rules);
    && StandFor(s.tests, roster, rules.dist) && Resampled(s.tests)
    && (exists halvings :: s.threshold == Halved(s.start, halvings) && SettlesAfter(c, rules, s.start, halvings))
    && s.suite == Sort(Greedy(c, rules, s.threshold), RankLe)
  }

  /** Selects a suite and hands back the layouts it stands for. */
  method SelectLayouts(evaluated: seq<Individual>, rules: Rules, start: real)
      returns (chosen: seq<Individual>, s: Selection)
    requires Euclidean(rules.dist) && Distinct(evaluated)
    ensures s.start == start && Selected(s, Census(evaluated), rules)
    ensures Submitted(Census(chosen), Census(evaluated), s.suite, rules)
    ensures forall i :: 0 <= i < |chosen| ==> chosen[i] in evaluated
  {
    hide Euclidean, IsMeanTrajectory, Sort, Greedy, Candidates, RankLe, SettlesAfter, Halved, LayoutSignature, Alike,
         Fillable, Individual.View, NoWorse, ToldApart;
    var tests := TestsOf(evaluated, rules.dist);
    var suite, threshold, halvings := SelectSuite(tests, rules, start);
    s := Selection(tests, start, threshold, suite);
    SuiteIsSafe(tests, rules, threshold);
    chosen := [];
    for i := 0 to |suite|
      invariant |chosen| == i
      invariant forall k :: 0 <= k < i ==> suite[k].id < |evaluated| && chosen[k] == evaluated[suite[k].id]
      invariant forall k :: 0 <= k < i ==> tests[suite[k].id] == suite[k]
    {
      assert suite[i] in tests;
      chosen := chosen + [evaluated[suite[i].id]];
    }
    DistinctLayoutsAreDistinct(suite);
    AreSubmitted(evaluated, tests, suite, rules, chosen);
  }

  lemma AreSubmitted(evaluated: seq<Individual>, tests: seq<Test>, suite: seq<Test>, rules: Rules,
                     chosen: seq<Individual>)
    requires StandFor(tests, Census(evaluated), rules.dist) && |chosen| == |suite| <= rules.topK
    requires Distinct(evaluated) && Distinct(suite) && forall t :: t in suite ==> Submittable(t)
    requires forall k :: 0 <= k < |suite| ==>
               suite[k].id < |evaluated| && chosen[k] == evaluated[suite[k].id] && tests[suite[k].id] == suite[k]
    ensures Submitted(Census(chosen), Census(evaluated), suite, rules)
  {
    hide IsMeanTrajectory, Individual.View;
    forall i, j | 0 <= i < j < |chosen| ensures chosen[i] != chosen[j] { assert suite[i] != suite[j]; }
    forall i | 0 <= i < |chosen|
      ensures var m := Census(chosen)[i];
              && m.life.valid && !m.life.stuck && m.life.officialScore > 0.0 && m.who.obstacles == suite[i].boxes
              && m == Census(evaluated)[suite[i].id]
    {
      assert suite[i] in suite;
      assert StandsFor(tests[suite[i].id], Census(evaluated)[suite[i].id], suite[i].id, rules.dist);
    }
  }

  // ---- promising layouts ------------------------------------------------------------------------

  /** The first run came close enough to an obstacle. */
  ghost predicate ComesClose(m: Member, threshold: real) { m.life.distances != [] && m.life.distances[0] < threshold }

  /** The places of all chosen layouts that came close, in order. */
  ghost predicate ArePromising(at: seq<nat>, chosen: seq<Member>, threshold: real) {
    && (forall j, k :: 0 <= j < k < |at| ==> at[j] < at[k]) && (forall k :: 0 <= k < |at| ==> at[k] < |chosen|)
    && forall i :: i in at <==> 0 <= i < |chosen| && ComesClose(chosen[i], threshold)
  }

  ghost function Picked(chosen: seq<Member>, at: seq<nat>): (picked: seq<Member>)
    requires forall k :: 0 <= k < |at| ==> at[k] < |chosen|
    ensures |picked| == |at| && forall k :: 0 <= k < |at| ==> picked[k] == chosen[at[k]]
  {
    seq(|at|, k requires 0 <= k < |at| => chosen[at[k]])
  }

  /** The chosen layouts whose first run came close enough. */
  method PromisingOf(chosen: seq<Individual>, threshold: real) returns (promising: seq<Individual>, ghost at: seq<nat>)
    ensures ArePromising(at, Census(chosen), threshold)
    ensures |at| == |promising| && forall k :: 0 <= k < |at| ==> at[k] < |chosen| && promising[k] == chosen[at[k]]
  {
    hide Individual.View;
    ghost var census := Census(chosen);
    promising, at := [], [];
    for i := 0 to |chosen|
      invariant |at| == |promising| && forall k :: 0 <= k < |at| ==> at[k] < i && promising[k] == chosen[at[k]]
      invariant forall j, k :: 0 <= j < k < |at| ==> at[j] < at[k]
      invariant forall k :: k in at <==> 0 <= k < i && ComesClose(census[k], threshold)
    {
      ShowsDistances(chosen[i]);
      if chosen[i].distances != [] && chosen[i].distances[0] < threshold {
        promising, at := promising + [chosen[i]], at + [i];
      }
    }
  }

  lemma ShowsDistances(x: Individual)
    ensures x.View().distances == x.distances
  {}
}
