/** Picking the tests to submit (suite.py): rank, drop duplicates, fill greedily, relax the threshold. */
module Suite {
  import opened Plane
  import opened Boxes
  import opened Scoring
  import opened Sorting

  const MIN_THRESHOLD_M := 0.1

  /** The (segment, side) a layout attacks; layouts without genes have none. */
  datatype Frame = NoFrame | Frame(segment: nat, side: int)

  /** A real number or plus infinity. */
  datatype Extended = Finite(r: real) | Infinite

  /** What suite selection reads of an individual; id stands for its identity, path for its mean trajectory. */
  datatype Test = Test(id: nat, boxes: seq<Box>, frame: Frame, valid: bool, stuck: bool, officialScore: real,
                       distances: seq<real>, path: seq<Vec>)

  /** The suite rules of the configuration, and the point distance of the paths. */
  datatype Rules = Rules(topK: nat, maxPerFrame: nat, relaxSimilarity: bool, keepBestGate: bool,
                         dist: (Vec, Vec) -> real)

  function TrajectoryDistance(a: seq<Vec>, b: seq<Vec>, dist: (Vec, Vec) -> real): Extended {
    if a == [] || b == [] then Infinite else Finite(Mean(Gaps(a, b, dist)))
  }

  function Gaps(a: seq<Vec>, b: seq<Vec>, dist: (Vec, Vec) -> real): (gaps: seq<real>)
    ensures |gaps| == if |a| <= |b| then |a| else |b|
  {
    seq(if |a| <= |b| then |a| else |b|, i requires 0 <= i < |a| && i < |b| => dist(a[i], b[i]))
  }

  predicate AtLeast(d: Extended, threshold: real) { d.Infinite? || d.r >= threshold }

  /** Equal exactly when the layouts consist of the same boxes, in any order. */
  function LayoutSignature(t: Test): multiset<Box> { multiset(t.boxes) }

  function MeanDistance(t: Test): Extended { if t.distances == [] then Infinite else Finite(Mean(t.distances)) }

  predicate ExtendedLe(a: Extended, b: Extended) { b.Infinite? || (a.Finite? && a.r <= b.r) }

  /** The order of officialRank: best official score first, then closest approach. */
  predicate RankLe(a: Test, b: Test) {
    a.officialScore > b.officialScore
      || (a.officialScore == b.officialScore && ExtendedLe(MeanDistance(a), MeanDistance(b)))
  }

  lemma RankIsPreorder()
    ensures TotalPreorder(RankLe)
  {}

  predicate Eligible(t: Test) { t.valid && !t.stuck && t.officialScore > 0.0 }

  predicate Seen(ranked: seq<Test>, t: Test) {
    exists i :: 0 <= i < |ranked| && LayoutSignature(ranked[i]) == LayoutSignature(t)
  }

  /** The eligible tests in the given order, each layout once. */
  function Deduplicated(tests: seq<Test>): seq<Test> {
    if tests == [] then []
    else
      var n := |tests| - 1;
      var ranked := Deduplicated(tests[..n]);
      if Eligible(tests[n]) && !Seen(ranked, tests[n]) then ranked + [tests[n]] else ranked
  }

  predicate IsGate(t: Test) { |t.boxes| == 2 }

  /** The list with its first gate moved to the front. */
  function Promoted(ranked: seq<Test>): seq<Test> {
    var i := FirstGate(ranked);
    if i < |ranked| then [ranked[i]] + ranked[..i] + ranked[i + 1..] else ranked
  }

  function FirstGate(ranked: seq<Test>): (i: nat)
    ensures i <= |ranked| && (i < |ranked| ==> IsGate(ranked[i])) && forall j :: 0 <= j < i ==> !IsGate(ranked[j])
  {
    if ranked == [] then 0 else if IsGate(ranked[0]) then 0 else
      var i := FirstGate(ranked[1..]);
      assert forall j :: 1 <= j <= i ==> ranked[j] == ranked[1..][j - 1];
      i + 1
  }

  /** The candidates of the greedy filter, in the order it meets them. */
  function Candidates(evaluated: seq<Test>, rules: Rules): seq<Test> {
    var ranked := Deduplicated(Sort(evaluated, RankLe));
    if rules.keepBestGate then Promoted(ranked) else ranked
  }

  function FrameCount(tests: seq<Test>, frame: Frame): nat {
    if tests == [] then 0
    else FrameCount(tests[..|tests| - 1], frame) + if tests[|tests| - 1].frame == frame then 1 else 0
  }

  predicate Distinguishable(selected: seq<Test>, t: Test, threshold: real, dist: (Vec, Vec) -> real) {
    forall i :: 0 <= i < |selected| ==> AtLeast(TrajectoryDistance(t.path, selected[i].path, dist), threshold)
  }

  predicate Accepts(selected: seq<Test>, t: Test, rules: Rules, threshold: real) {
    && |selected| < rules.topK
    && (rules.maxPerFrame == 0 || FrameCount(selected, t.frame) < rules.maxPerFrame)
    && Distinguishable(selected, t, threshold, rules.dist)
  }

  /** The greedy suite, one candidate after the other. */
  function Greedy(ranked: seq<Test>, rules: Rules, threshold: real): seq<Test> {
    if ranked == [] then []
    else
      var n := |ranked| - 1;
      var selected := Greedy(ranked[..n], rules, threshold);
      if Accepts(selected, ranked[n], rules, threshold) then selected + [ranked[n]] else selected
  }

  // ---- the methods ------------------------------------------------------------------------------

  method GreedyFill(ranked: seq<Test>, rules: Rules, threshold: real) returns (selected: seq<Test>)
    ensures selected == Greedy(ranked, rules, threshold)
  {
    hide TrajectoryDistance, FrameCount, Tally;
    EmptyTally();
    selected := [];
    var paths := [];
    var perFrame: map<Frame, nat> := map[];
    var i := 0;
    while i < |ranked|
      invariant 0 <= i <= |ranked| && selected == Greedy(ranked[..i], rules, threshold)
      invariant |paths| == |selected| && forall j :: 0 <= j < |selected| ==> paths[j] == selected[j].path
      invariant Tally(perFrame, selected)
    {
      if |selected| >= rules.topK {
        FullStaysFull(ranked, rules, threshold, i);
        return;
      }
      var t := ranked[i];
      assert ranked[..i + 1][..i] == ranked[..i];
      i := i + 1;
      var used := if t.frame in perFrame then perFrame[t.frame] else 0;
      TallyAppend(perFrame, selected, t, used);
      if rules.maxPerFrame != 0 && used >= rules.maxPerFrame { continue; }
      if forall j :: 0 <= j < |paths| ==> AtLeast(TrajectoryDistance(t.path, paths[j], rules.dist), threshold) {
        selected := selected + [t];
        paths := paths + [t.path];
        perFrame := perFrame[t.frame := used + 1];
      }
    }
    assert ranked[..i] == ranked;
  }

  ghost predicate Tally(perFrame: map<Frame, nat>, selected: seq<Test>) {
    forall frame :: (if frame in perFrame then perFrame[frame] else 0) == FrameCount(selected, frame)
  }

  lemma EmptyTally()
    ensures Tally(map[], [])
  {}

  lemma TallyAppend(perFrame: map<Frame, nat>, selected: seq<Test>, t: Test, used: nat)
    requires Tally(perFrame, selected) && used == if t.frame in perFrame then perFrame[t.frame] else 0
    ensures used == FrameCount(selected, t.frame) && Tally(perFrame[t.frame := used + 1], selected + [t])
  {}

  lemma {:induction false} FullStaysFull(ranked: seq<Test>, rules: Rules, threshold: real, i: nat)
    requires i <= |ranked| && |Greedy(ranked[..i], rules, threshold)| >= rules.topK
    ensures Greedy(ranked, rules, threshold) == Greedy(ranked[..i], rules, threshold)
    decreases |ranked|
  {
    hide TrajectoryDistance, FrameCount, Distinguishable;
    if i == |ranked| {
      assert ranked[..i] == ranked;
    } else {
      var n := |ranked| - 1;
      assert ranked[..n][..i] == ranked[..i];
      FullStaysFull(ranked[..n], rules, threshold, i);
    }
  }

  function Least(a: nat, b: nat): nat { if a <= b then a else b }

  /** The sum of the counts, each capped at the quota. */
  ghost function CappedSum(counts: map<Frame, nat>, quota: nat): nat
    decreases |counts.Keys|
  {
    if counts.Keys == {} then 0
    else
      var f := SomeFrame(counts);
      Least(quota, counts[f]) + CappedSum(Without(counts, f), quota)
  }

  ghost function SomeFrame(counts: map<Frame, nat>): (f: Frame)
    requires counts.Keys != {}
    ensures f in counts.Keys
  {
    var f :| f in counts.Keys;
    f
  }

  ghost function Without(counts: map<Frame, nat>, f: Frame): (rest: map<Frame, nat>)
    ensures rest.Keys == counts.Keys - {f} && forall g :: g in rest ==> rest[g] == counts[g]
    ensures f in counts ==> |rest.Keys| == |counts.Keys| - 1
  {
    counts - {f}
  }

  lemma {:induction false} CappedSumRemove(counts: map<Frame, nat>, quota: nat, f: Frame)
    requires f in counts
    ensures CappedSum(counts, quota) == Least(quota, counts[f]) + CappedSum(Without(counts, f), quota)
    decreases |counts.Keys|
  {
    hide Least, Without, SomeFrame;
    var g := SomeFrame(counts);
    if g != f {
      var a, b := Without(counts, g), Without(counts, f);
      CappedSumRemove(a, quota, f);
      CappedSumRemove(b, quota, g);
      assert a[f] == counts[f] && b[g] == counts[g];
      WithoutCommutes(counts, f, g);
    }
  }

  lemma WithoutCommutes(counts: map<Frame, nat>, f: Frame, g: Frame)
    ensures Without(Without(counts, g), f) == Without(Without(counts, f), g)
  {
    MinusCommutes(counts, f, g);
  }

  lemma MinusCommutes<K, V>(m: map<K, V>, f: K, g: K)
    ensures m - {g} - {f} == m - {f} - {g}
  {}

  /** The number of occurrences of every frame of the list. */
  ghost predicate Counts(counts: map<Frame, nat>, tests: seq<Test>) {
    forall frame ::
      && (if frame in counts then counts[frame] else 0) == FrameCount(tests, frame)
      && (frame in counts <==> FrameCount(tests, frame) > 0)
  }

  /** How many tests a frame quota admits: each frame counts up to the quota. */
  ghost function Admissible(tests: seq<Test>, quota: nat): nat {
    CappedSum(FrameMap(tests), quota)
  }

  ghost function FrameMap(tests: seq<Test>): (counts: map<Frame, nat>)
    ensures Counts(counts, tests)
  {
    if tests == [] then map[]
    else
      var rest := FrameMap(tests[..|tests| - 1]);
      var f := tests[|tests| - 1].frame;
      rest[f := FrameCount(tests, f)]
  }

  lemma CountsUnique(a: map<Frame, nat>, b: map<Frame, nat>, tests: seq<Test>)
    requires Counts(a, tests) && Counts(b, tests)
    ensures a == b
  {}

  ghost function Fillable(ranked: seq<Test>, rules: Rules): nat {
    Least(rules.topK, if rules.maxPerFrame == 0 then |ranked| else Admissible(ranked, rules.maxPerFrame))
  }

  method FillableCount(ranked: seq<Test>, rules: Rules) returns (count: nat)
    ensures count == Fillable(ranked, rules)
  {
    if rules.maxPerFrame == 0 {
      return Least(rules.topK, |ranked|);
    }
    var counts: map<Frame, nat> := map[];
    for i := 0 to |ranked|
      invariant Counts(counts, ranked[..i])
    {
      var f := ranked[i].frame;
      assert ranked[..i + 1][..i] == ranked[..i];
      counts := counts[f := (if f in counts then counts[f] else 0) + 1];
    }
    assert ranked[..|ranked|] == ranked;
    CountsUnique(counts, FrameMap(ranked), ranked);
    var sum, rest := 0, counts;
    while rest.Keys != {}
      invariant sum + CappedSum(rest, rules.maxPerFrame) == CappedSum(counts, rules.maxPerFrame)
      decreases |rest.Keys|
    {
      var f :| f in rest.Keys;
      CappedSumRemove(rest, rules.maxPerFrame, f);
      sum := sum + Least(rules.maxPerFrame, rest[f]);
      assert Without(rest, f) == rest - {f};
      rest := rest - {f};
    }
    count := Least(rules.topK, sum);
  }

  function Halved(threshold: real, k: nat): real { if k == 0 then threshold else 0.5 * Halved(threshold, k - 1) }

  /** The relaxation stops at this threshold. */
  ghost predicate Settled(ranked: seq<Test>, rules: Rules, threshold: real) {
    |Greedy(ranked, rules, threshold)| >= Fillable(ranked, rules) || threshold <= MIN_THRESHOLD_M
      || !rules.relaxSimilarity
  }

  /** After k halvings for the first time. */
  ghost predicate SettlesAfter(ranked: seq<Test>, rules: Rules, threshold: real, k: nat) {
    Settled(ranked, rules, Halved(threshold, k))
      && forall j :: 0 <= j < k ==> !Settled(ranked, rules, Halved(threshold, j))
  }

  method RankTests(evaluated: seq<Test>) returns (ranked: seq<Test>)
    ensures ranked == Deduplicated(Sort(evaluated, RankLe))
  {
    hide RankLe;
    var order := Sort(evaluated, RankLe);
    ranked := [];
    var seen := {};
    for i := 0 to |order|
      invariant ranked == Deduplicated(order[..i])
      invariant forall s :: s in seen <==> exists j :: 0 <= j < |ranked| && LayoutSignature(ranked[j]) == s
    {
      assert order[..i + 1][..i] == order[..i];
      var t := order[i];
      if !t.valid || t.stuck || t.officialScore <= 0.0 { continue; }
      var signature := LayoutSignature(t);
      if signature in seen { continue; }
      ghost var before := ranked;
      seen := seen + {signature};
      ranked := ranked + [t];
      assert forall j :: 0 <= j < |before| ==> ranked[j] == before[j];
      assert LayoutSignature(ranked[|before|]) == signature;
    }
    assert order[..|order|] == order;
  }

  /** The tests worth submitting, best first, and the threshold used. */
  method SelectSuite(evaluated: seq<Test>, rules: Rules, start: real)
      returns (suite: seq<Test>, threshold: real, ghost halvings: nat)
    ensures threshold == Halved(start, halvings)
    ensures SettlesAfter(Candidates(evaluated, rules), rules, start, halvings)
    ensures suite == Sort(Greedy(Candidates(evaluated, rules), rules, threshold), RankLe)
  {
    hide Greedy, Fillable, Deduplicated, RankLe;
    var ranked := RankTests(evaluated);
    if rules.keepBestGate {
      ranked := Promoted(ranked);
    }
    var wanted := FillableCount(ranked, rules);
    threshold, halvings := start, 0;
    while true
      invariant threshold == Halved(start, halvings)
      invariant forall j :: 0 <= j < halvings ==> !Settled(ranked, rules, Halved(start, j))
      decreases HalvingsLeft(threshold)
    {
      var filled := GreedyFill(ranked, rules, threshold);
      if |filled| >= wanted || threshold <= MIN_THRESHOLD_M || !rules.relaxSimilarity {
        return Sort(filled, RankLe), threshold, halvings;
      }
      HalvingProgress(threshold);
      threshold, halvings := threshold * 0.5, halvings + 1;
    }
  }

  ghost function HalvingsLeft(threshold: real): nat { if threshold <= 0.0 then 0 else (threshold * 20.0).Floor }

  lemma HalvingProgress(threshold: real)
    requires threshold > MIN_THRESHOLD_M
    ensures HalvingsLeft(threshold * 0.5) < HalvingsLeft(threshold)
  {}
}
