/** What suite selection guarantees: safety, justified rejections, the exact capacity, and what relaxing costs. */
module SuiteLaws {
  import opened Plane
  import opened Mission
  import opened Scoring
  import opened Sorting
  import opened Suite

  // ---- candidates -------------------------------------------------------------------------------

  ghost predicate DistinctLayouts(tests: seq<Test>) {
    forall i, j :: 0 <= i < j < |tests| ==> LayoutSignature(tests[i]) != LayoutSignature(tests[j])
  }

  /** Deduplication keeps eligible tests only, each layout once. */
  lemma {:induction false} DeduplicatedIsClean(tests: seq<Test>)
    ensures DistinctLayouts(Deduplicated(tests))
    ensures forall i :: 0 <= i < |Deduplicated(tests)| ==>
              Eligible(Deduplicated(tests)[i]) && Deduplicated(tests)[i] in tests
  {
    hide LayoutSignature, Eligible;
    if tests != [] {
      DeduplicatedIsClean(tests[..|tests| - 1]);
    }
  }

  /** An eligible test is only dropped for an earlier one of the same layout. */
  lemma {:induction false} DeduplicatedIsComplete(tests: seq<Test>, i: nat)
    requires i < |tests| && Eligible(tests[i])
    ensures Seen(Deduplicated(tests), tests[i])
    decreases |tests|
  {
    hide LayoutSignature, Eligible;
    var n := |tests| - 1;
    var before, ranked := Deduplicated(tests[..n]), Deduplicated(tests);
    if i < n {
      DeduplicatedIsComplete(tests[..n], i);
      var j :| 0 <= j < |before| && LayoutSignature(before[j]) == LayoutSignature(tests[i]);
      assert ranked[j] == before[j];
    } else if !Seen(before, tests[n]) {
      assert ranked[|before|] == tests[n];
    }
  }

  lemma PromotedKeeps(ranked: seq<Test>)
    ensures multiset(Promoted(ranked)) == multiset(ranked) && |Promoted(ranked)| == |ranked|
    ensures FirstGate(ranked) < |ranked| ==> Promoted(ranked)[0] == ranked[FirstGate(ranked)]
  {
    hide FirstGate, IsGate;
    var i := FirstGate(ranked);
    if i < |ranked| {
      MovedToFront(ranked, i);
      assert |ranked[..i]| == i && |ranked[i + 1..]| == |ranked| - i - 1;
    }
  }

  lemma MovedToFront<T>(xs: seq<T>, i: nat)
    requires i < |xs|
    ensures multiset([xs[i]] + xs[..i] + xs[i + 1..]) == multiset(xs)
  {
    assert xs == xs[..i] + [xs[i]] + xs[i + 1..];
  }

  lemma DistinctLayoutsAreDistinct(tests: seq<Test>)
    requires DistinctLayouts(tests)
    ensures Distinct(tests)
  {}

  /** A permutation of a list with distinct layouts has distinct layouts. */
  lemma PermutedLayouts(a: seq<Test>, b: seq<Test>)
    requires DistinctLayouts(a) && multiset(a) == multiset(b)
    ensures DistinctLayouts(b)
  {
    hide LayoutSignature;
    DistinctLayoutsAreDistinct(a);
    DistinctCounts(a);
    DistinctCounts(b);
    SameMembers(a, b);
    forall i, j | 0 <= i < j < |b| ensures LayoutSignature(b[i]) != LayoutSignature(b[j]) {
      assert b[i] in a && b[j] in a && b[i] != b[j];
      var p :| 0 <= p < |a| && a[p] == b[i];
      var q :| 0 <= q < |a| && a[q] == b[j];
      assert p != q;
    }
  }

  lemma SameMembers<T>(a: seq<T>, b: seq<T>)
    requires multiset(a) == multiset(b)
    ensures forall x :: x in a <==> x in b
    ensures forall x :: x in b ==> multiset(a)[x] == multiset(b)[x]
  {
    forall x ensures x in a <==> x in b {
      assert x in a <==> x in multiset(a);
      assert x in b <==> x in multiset(b);
    }
  }

  lemma CandidatesAreClean(evaluated: seq<Test>, rules: Rules)
    ensures var c := Candidates(evaluated, rules);
            && DistinctLayouts(c)
            && (forall i :: 0 <= i < |c| ==> Eligible(c[i]) && c[i] in evaluated)
            && (forall t :: t in evaluated && Eligible(t) ==> Seen(c, t))
            && (forall i :: 0 <= i < |c| ==> Submittable(c[i]))
            && (forall i, j :: 0 <= i < j < |c| ==> multiset(c[i].boxes) != multiset(c[j].boxes))
            && (forall t :: t in evaluated && Submittable(t) ==> exists i :: 0 <= i < |c| && SameBoxes(c[i], t))
  {
    hide RankLe, Deduplicated, Promoted, LayoutSignature, Eligible, DistinctLayouts, Sort;
    var order := Sort(evaluated, RankLe);
    var ranked := Deduplicated(order);
    var c := Candidates(evaluated, rules);
    DeduplicatedIsClean(order);
    SortMembers(evaluated, RankLe);
    PromotedKeeps(ranked);
    PermutedLayouts(ranked, c);
    SameMembers(ranked, c);
    forall i | 0 <= i < |c| ensures Eligible(c[i]) && c[i] in evaluated && Submittable(c[i]) {
      assert c[i] in ranked;
      EligibleMeans(c[i]);
    }
    forall t | t in evaluated && Eligible(t) ensures Seen(c, t) {
      var i :| 0 <= i < |order| && order[i] == t;
      DeduplicatedIsComplete(order, i);
      SeenInPermutation(ranked, c, t);
    }
    forall t | t in evaluated && Submittable(t) ensures exists i :: 0 <= i < |c| && SameBoxes(c[i], t) {
      EligibleMeans(t);
      SeenMeans(c, t);
    }
    forall i, j | 0 <= i < j < |c| ensures multiset(c[i].boxes) != multiset(c[j].boxes) { DistinctBoxes(c, i, j); }
  }

  ghost predicate SameBoxes(s: Test, t: Test) { multiset(s.boxes) == multiset(t.boxes) }

  lemma SeenMeans(c: seq<Test>, t: Test)
    ensures Seen(c, t) <==> exists i :: 0 <= i < |c| && SameBoxes(c[i], t)
  {}

  lemma DistinctBoxes(c: seq<Test>, i: nat, j: nat)
    requires DistinctLayouts(c) && i < j < |c|
    ensures multiset(c[i].boxes) != multiset(c[j].boxes)
  {}

  lemma SeenInPermutation(ranked: seq<Test>, c: seq<Test>, t: Test)
    requires multiset(ranked) == multiset(c) && Seen(ranked, t)
    ensures Seen(c, t)
  {
    hide LayoutSignature;
    SameMembers(ranked, c);
    var j :| 0 <= j < |ranked| && LayoutSignature(ranked[j]) == LayoutSignature(t);
    assert ranked[j] in c;
  }

  // ---- the greedy filter ------------------------------------------------------------------------

  /** Within the size limit and the frame quota, and pairwise distinguishable in the order of selection. */
  ghost predicate Safe(selected: seq<Test>, rules: Rules, threshold: real) {
    && |selected| <= rules.topK
    && (rules.maxPerFrame > 0 ==> forall f :: FrameCount(selected, f) <= rules.maxPerFrame)
    && forall i, j :: 0 <= i < j < |selected| ==>
         AtLeast(TrajectoryDistance(selected[j].path, selected[i].path, rules.dist), threshold)
  }

  lemma {:induction false} GreedyIsSafe(ranked: seq<Test>, rules: Rules, threshold: real)
    ensures Safe(Greedy(ranked, rules, threshold), rules, threshold)
    ensures forall i :: 0 <= i < |Greedy(ranked, rules, threshold)| ==> Greedy(ranked, rules, threshold)[i] in ranked
  {
    hide TrajectoryDistance, AtLeast;
    if ranked != [] {
      var n := |ranked| - 1;
      GreedyIsSafe(ranked[..n], rules, threshold);
      var before := Greedy(ranked[..n], rules, threshold);
      if Accepts(before, ranked[n], rules, threshold) {
        var after := before + [ranked[n]];
        assert after[..|before|] == before;
        forall f ensures rules.maxPerFrame > 0 ==> FrameCount(after, f) <= rules.maxPerFrame {
          assert FrameCount(after, f) == FrameCount(before, f) + if ranked[n].frame == f then 1 else 0;
        }
      }
    }
  }

  /** What was selected from a prefix of the ranking stays selected, first. */
  lemma {:induction false} GreedyPrefix(ranked: seq<Test>, rules: Rules, threshold: real, i: nat)
    requires i <= |ranked|
    ensures Greedy(ranked[..i], rules, threshold) <= Greedy(ranked, rules, threshold)
    decreases |ranked|
  {
    hide Accepts;
    if i == |ranked| {
      assert ranked[..i] == ranked;
    } else {
      var n := |ranked| - 1;
      assert ranked[..n][..i] == ranked[..i];
      GreedyPrefix(ranked[..n], rules, threshold, i);
    }
  }

  /** An earlier-selected test whose flight cannot be told apart. */
  ghost predicate HasLookAlike(selected: seq<Test>, t: Test, threshold: real, dist: (Vec, Vec) -> real) {
    exists i :: 0 <= i < |selected| && !AtLeast(TrajectoryDistance(t.path, selected[i].path, dist), threshold)
  }

  /**
   Every candidate that a suite short of topK leaves out was beaten by earlier-ranked selected tests: one of them
   looks alike, or they fill its frame.
   */
  lemma RejectionIsJustified(ranked: seq<Test>, rules: Rules, threshold: real, i: nat)
    requires i < |ranked| && |Greedy(ranked, rules, threshold)| < rules.topK
    ensures var earlier := Greedy(ranked[..i], rules, threshold);
            && earlier <= Greedy(ranked, rules, threshold)
            && (|| ranked[i] in Greedy(ranked, rules, threshold)
                || (rules.maxPerFrame > 0 && FrameCount(earlier, ranked[i].frame) >= rules.maxPerFrame)
                || HasLookAlike(earlier, ranked[i], threshold, rules.dist))
  {
    hide TrajectoryDistance, AtLeast, FrameCount;
    var earlier := Greedy(ranked[..i], rules, threshold);
    GreedyPrefix(ranked, rules, threshold, i);
    GreedyPrefix(ranked, rules, threshold, i + 1);
    assert ranked[..i + 1][..i] == ranked[..i];
    if Accepts(earlier, ranked[i], rules, threshold) {
      var upTo := Greedy(ranked[..i + 1], rules, threshold);
      assert upTo[|earlier|] == ranked[i];
    }
  }

  /** The first candidate always enters a suite that may hold a test. */
  lemma {:induction false} FirstIsSelected(ranked: seq<Test>, rules: Rules, threshold: real)
    requires ranked != [] && rules.topK > 0
    ensures Greedy(ranked, rules, threshold) != [] && Greedy(ranked, rules, threshold)[0] == ranked[0]
  {
    GreedyPrefix(ranked, rules, threshold, 1);
    assert ranked[..1] == [ranked[0]];
    assert [ranked[0]][..0] == [];
    assert Greedy([], rules, threshold) == [];
    assert Accepts([], ranked[0], rules, threshold);
    assert Greedy([ranked[0]], rules, threshold) == [ranked[0]];
  }

  // ---- capacity ---------------------------------------------------------------------------------

  /** The tests of the list with the given frame removed, as far as their number is concerned. */
  lemma {:induction false} CappedSumMonotone(a: map<Frame, nat>, b: map<Frame, nat>, p: nat, q: nat)
    requires a.Keys <= b.Keys && forall f :: f in a ==> Least(p, a[f]) <= Least(q, b[f])
    ensures CappedSum(a, p) <= CappedSum(b, q)
    decreases |b.Keys|
  {
    hide Least, Without;
    if a.Keys != {} {
      var f := SomeFrame(a);
      CappedSumRemove(a, p, f);
      CappedSumRemove(b, q, f);
      CappedSumMonotone(Without(a, f), Without(b, f), p, q);
    }
  }

  /** Without an effective cap the counts add up to the length of the list. */
  lemma {:induction false} CountsAddUp(tests: seq<Test>, cap: nat)
    requires cap >= |tests|
    ensures CappedSum(FrameMap(tests), cap) == |tests|
  {
    hide CappedSum, FrameMap, FrameCount, Without;
    if tests == [] {
      NothingAddsUp(cap);
    } else {
      var n := |tests| - 1;
      var f := tests[n].frame;
      CountsAddUp(tests[..n], cap);
      var old_, new_ := FrameMap(tests[..n]), FrameMap(tests);
      FrameMapStep(tests);
      CountBounded(tests, f);
      CappedSumRemove(new_, cap, f);
      if f in old_ {
        CappedSumRemove(old_, cap, f);
      }
      SameRest(old_, new_, f, FrameCount(tests, f));
    }
  }

  lemma NothingAddsUp(cap: nat)
    ensures CappedSum(FrameMap([]), cap) == 0
  {}

  lemma FrameMapStep(tests: seq<Test>)
    requires tests != []
    ensures var n := |tests| - 1;
            var f, before := tests[n].frame, FrameMap(tests[..n]);
            && FrameMap(tests) == before[f := FrameCount(tests, f)]
            && FrameCount(tests, f) == (if f in before then before[f] else 0) + 1
  {}

  lemma SameRest(old_: map<Frame, nat>, new_: map<Frame, nat>, f: Frame, v: nat)
    requires new_ == old_[f := v]
    ensures Without(new_, f) == Without(old_, f)
    ensures f !in old_ ==> Without(old_, f) == old_
  {}

  lemma {:induction false} CountBounded(tests: seq<Test>, f: Frame)
    ensures FrameCount(tests, f) <= |tests|
  {
    if tests != [] { CountBounded(tests[..|tests| - 1], f); }
  }

  lemma {:induction false} CountOfMembers(part: seq<Test>, whole: seq<Test>, f: Frame)
    requires multiset(part) <= multiset(whole)
    ensures FrameCount(part, f) <= FrameCount(whole, f)
    decreases |whole|
  {
    if part != [] {
      var n := |part| - 1;
      var t := part[n];
      assert part[n] in multiset(part);
      assert t in whole;
      var k :| 0 <= k < |whole| && whole[k] == t;
      OneLess(part, whole, k);
      CountOfMembers(part[..n], whole[..k] + whole[k + 1..], f);
      CountWithout(whole, k, f);
    }
  }

  /** Removing the same element on both sides keeps the inclusion. */
  lemma OneLess<T>(part: seq<T>, whole: seq<T>, k: nat)
    requires part != [] && k < |whole| && whole[k] == part[|part| - 1] && multiset(part) <= multiset(whole)
    ensures multiset(part[..|part| - 1]) <= multiset(whole[..k] + whole[k + 1..])
  {
    var n := |part| - 1;
    assert part == part[..n] + [part[n]];
    assert whole == whole[..k] + [whole[k]] + whole[k + 1..];
    var x, a, b := part[n], multiset(part[..n]), multiset(whole[..k] + whole[k + 1..]);
    assert multiset(part) == a + multiset{x} && multiset(whole) == b + multiset{x};
    forall y ensures a[y] <= b[y] {
      assert (a + multiset{x})[y] <= (b + multiset{x})[y];
    }
  }

  lemma {:induction false} CountOfJoin(a: seq<Test>, b: seq<Test>, f: Frame)
    ensures FrameCount(a + b, f) == FrameCount(a, f) + FrameCount(b, f)
  {
    if b == [] {
      assert a + b == a;
    } else {
      var n := |b| - 1;
      CountOfJoin(a, b[..n], f);
      assert (a + b)[..|a| + n] == a + b[..n];
    }
  }

  lemma CountWithout(tests: seq<Test>, k: nat, f: Frame)
    requires k < |tests|
    ensures FrameCount(tests, f) == FrameCount(tests[..k] + tests[k + 1..], f) + if tests[k].frame == f then 1 else 0
  {
    assert tests == tests[..k] + ([tests[k]] + tests[k + 1..]);
    CountOfJoin(tests[..k], [tests[k]] + tests[k + 1..], f);
    CountOfJoin([tests[k]], tests[k + 1..], f);
    CountOfJoin(tests[..k], tests[k + 1..], f);
    assert [tests[k]][..0] == [];
  }

  /** No selection from the ranking that respects the quota and the size limit is larger than the fillable count. */
  lemma FillableIsUpperBound(selected: seq<Test>, ranked: seq<Test>, rules: Rules)
    requires multiset(selected) <= multiset(ranked) && |selected| <= rules.topK
    requires rules.maxPerFrame > 0 ==> forall f :: FrameCount(selected, f) <= rules.maxPerFrame
    ensures |selected| <= Fillable(ranked, rules)
  {
    hide FrameCount, FrameMap, CappedSum;
    if rules.maxPerFrame == 0 {
      assert |multiset(selected)| == |selected| && |multiset(ranked)| == |ranked|;
      assert multiset(ranked) == multiset(selected) + (multiset(ranked) - multiset(selected));
    } else {
      var part, whole := FrameMap(selected), FrameMap(ranked);
      CountsAddUp(selected, |selected|);
      forall f | f in part ensures f in whole && Least(|selected|, part[f]) <= Least(rules.maxPerFrame, whole[f]) {
        CountOfMembers(selected, ranked, f);
      }
      CappedSumMonotone(part, whole, |selected|, rules.maxPerFrame);
    }
  }

  lemma {:induction false} GreedyIsPart(ranked: seq<Test>, rules: Rules, threshold: real)
    ensures multiset(Greedy(ranked, rules, threshold)) <= multiset(ranked)
  {
    hide Accepts;
    if ranked != [] {
      var n := |ranked| - 1;
      GreedyIsPart(ranked[..n], rules, threshold);
      assert ranked == ranked[..n] + [ranked[n]];
    }
  }

  /** The greedy suite never exceeds the fillable count, whatever the threshold. */
  lemma GreedyWithinFillable(ranked: seq<Test>, rules: Rules, threshold: real)
    ensures |Greedy(ranked, rules, threshold)| <= Fillable(ranked, rules)
  {
    GreedyIsSafe(ranked, rules, threshold);
    GreedyIsPart(ranked, rules, threshold);
    FillableIsUpperBound(Greedy(ranked, rules, threshold), ranked, rules);
  }

  /** No path distance is negative. */
  ghost predicate NonNegativeDistance(dist: (Vec, Vec) -> real) { forall p, q :: dist(p, q) >= 0.0 }

  lemma {:induction false} SumNonNegative(xs: seq<real>)
    requires forall i :: 0 <= i < |xs| ==> xs[i] >= 0.0
    ensures Sum(xs) >= 0.0
  {
    if xs != [] { SumNonNegative(xs[..|xs| - 1]); }
  }

  lemma AlwaysAtLeast(a: seq<Vec>, b: seq<Vec>, dist: (Vec, Vec) -> real, threshold: real)
    requires NonNegativeDistance(dist) && threshold <= 0.0
    ensures AtLeast(TrajectoryDistance(a, b, dist), threshold)
  {
    if a != [] && b != [] {
      SumNonNegative(Gaps(a, b, dist));
      MeanNonNegative(Sum(Gaps(a, b, dist)), |Gaps(a, b, dist)| as real);
    }
  }

  lemma MeanNonNegative(x: real, n: real)
    requires x >= 0.0 && n > 0.0
    ensures x / n >= 0.0
  {}

  /** With a threshold of zero or less the filter only enforces the quota, and fills the suite completely. */
  lemma {:induction false} GreedyFillsAtZero(ranked: seq<Test>, rules: Rules, threshold: real)
    requires NonNegativeDistance(rules.dist) && threshold <= 0.0
    ensures |Greedy(ranked, rules, threshold)| == Fillable(ranked, rules)
    ensures rules.maxPerFrame > 0 && |Greedy(ranked, rules, threshold)| < rules.topK ==>
              forall f :: FrameCount(Greedy(ranked, rules, threshold), f) ==
                Least(rules.maxPerFrame, FrameCount(ranked, f))
  {
    hide TrajectoryDistance, AtLeast;
    if ranked == [] {
      assert FrameMap(ranked).Keys == {};
    } else {
      var n := |ranked| - 1;
      GreedyFillsAtZero(ranked[..n], rules, threshold);
      var before, t := Greedy(ranked[..n], rules, threshold), ranked[n];
      forall i | 0 <= i < |before| ensures AtLeast(TrajectoryDistance(t.path, before[i].path, rules.dist), threshold) {
        AlwaysAtLeast(t.path, before[i].path, rules.dist, threshold);
      }
      assert Distinguishable(before, t, threshold, rules.dist);
      assert (before + [t])[..|before|] == before;
      FillableStep(ranked, rules);
    }
  }

  /** One more candidate raises the fillable count exactly when neither limit binds. */
  lemma FillableStep(ranked: seq<Test>, rules: Rules)
    requires ranked != []
    ensures var n := |ranked| - 1;
            var before := Fillable(ranked[..n], rules);
            Fillable(ranked, rules) ==
              if before < rules.topK
                 && (rules.maxPerFrame == 0 || FrameCount(ranked[..n], ranked[n].frame) < rules.maxPerFrame)
              then before + 1 else before
  {
    var n := |ranked| - 1;
    if rules.maxPerFrame > 0 {
      var f, quota := ranked[n].frame, rules.maxPerFrame;
      var old_, new_ := FrameMap(ranked[..n]), FrameMap(ranked);
      CappedSumRemove(new_, quota, f);
      if f in old_ {
        CappedSumRemove(old_, quota, f);
      }
      SameRest(old_, new_, f, FrameCount(ranked, f));
    }
  }

  // ---- relaxing the threshold -------------------------------------------------------------------

  lemma TriangleInequality(dist: (Vec, Vec) -> real, p: Vec, q: Vec, r: Vec)
    requires Euclidean(dist)
    ensures dist(p, r) <= dist(p, q) + dist(q, r) && dist(p, q) == dist(q, p)
  {
    var a, b, c, d := dist(p, q), dist(q, r), dist(p, r), dist(q, p);
    assert a >= 0.0 && b >= 0.0 && c >= 0.0 && d >= 0.0;
    assert a * a == DistSq(q, p) && b * b == DistSq(r, q) && c * c == DistSq(r, p) && d * d == DistSq(p, q);
    hide Euclidean;
    DistSqSymmetric(p, q);
    RootLe(a, d);
    RootLe(d, a);
    TriangleSquares(Sub(q, p), Sub(r, q), a, b);
    assert Sub(r, p) == Add(Sub(q, p), Sub(r, q));
    RootLe(c, a + b);
  }

  /** The squared length of a sum of two vectors of lengths a and b. */
  lemma TriangleSquares(u: Vec, v: Vec, a: real, b: real)
    requires a >= 0.0 && b >= 0.0 && a * a == NormSq(u) && b * b == NormSq(v)
    ensures NormSq(Add(u, v)) <= (a + b) * (a + b)
  {
    hide Dot, Wedge, NormSq, Add;
    Lagrange(u, v);
    CauchySchwarz(Dot(u, v), Wedge(u, v), a, b, NormSq(u), NormSq(v));
    NormSqOfSum(u, v);
    SquareOfSum(a, b);
  }

  lemma NormSqOfSum(u: Vec, v: Vec)
    ensures NormSq(Add(u, v)) == NormSq(u) + 2.0 * Dot(u, v) + NormSq(v)
  {}

  lemma SquareOfSum(a: real, b: real)
    ensures (a + b) * (a + b) == a * a + 2.0 * (a * b) + b * b
  {}

  lemma CauchySchwarz(d: real, w: real, a: real, b: real, asq: real, bsq: real)
    requires a >= 0.0 && b >= 0.0 && asq == a * a && bsq == b * b && d * d + w * w == asq * bsq
    ensures d <= a * b
  {
    SquareSign(w, w * w);
    ProductNonNeg(a, b);
    SquareOfProduct(a, b);
    RootLe(d, a * b);
  }

  lemma Lagrange(u: Vec, v: Vec)
    ensures Dot(u, v) * Dot(u, v) + Wedge(u, v) * Wedge(u, v) == NormSq(u) * NormSq(v)
  {}

  lemma {:induction false} SumTriangle(a: seq<Vec>, b: seq<Vec>, c: seq<Vec>, dist: (Vec, Vec) -> real, n: nat)
    requires Euclidean(dist) && |a| == |b| == |c| && n <= |a|
    ensures Sum(Gaps(a, c, dist)[..n]) <= Sum(Gaps(a, b, dist)[..n]) + Sum(Gaps(b, c, dist)[..n])
    ensures Sum(Gaps(a, b, dist)[..n]) == Sum(Gaps(b, a, dist)[..n])
  {
    hide Euclidean;
    if n > 0 {
      SumTriangle(a, b, c, dist, n - 1);
      TriangleInequality(dist, a[n - 1], b[n - 1], c[n - 1]);
      assert Gaps(a, c, dist)[..n][..n - 1] == Gaps(a, c, dist)[..n - 1];
      assert Gaps(a, b, dist)[..n][..n - 1] == Gaps(a, b, dist)[..n - 1];
      assert Gaps(b, c, dist)[..n][..n - 1] == Gaps(b, c, dist)[..n - 1];
      assert Gaps(b, a, dist)[..n][..n - 1] == Gaps(b, a, dist)[..n - 1];
    }
  }

  /** All flown paths are resampled to the same number of points. */
  ghost predicate Resampled(tests: seq<Test>) {
    forall i, j :: 0 <= i < |tests| && 0 <= j < |tests| && tests[i].path != [] && tests[j].path != [] ==>
      |tests[i].path| == |tests[j].path|
  }

  /** The two tests are closer than the threshold. */
  predicate Alike(s: Test, t: Test, threshold: real, dist: (Vec, Vec) -> real) {
    !AtLeast(TrajectoryDistance(s.path, t.path, dist), threshold)
  }

  /** Two paths each within half a threshold of a third are within the threshold of each other. */
  lemma AlikeThroughThird(a: Test, b: Test, c: Test, threshold: real, dist: (Vec, Vec) -> real)
    requires Euclidean(dist) && (a.path != [] && b.path != [] ==> |a.path| == |b.path|)
    requires (b.path != [] && c.path != [] ==> |b.path| == |c.path|)
    requires Alike(a, b, 0.5 * threshold, dist) && Alike(c, b, 0.5 * threshold, dist)
    ensures Alike(a, c, threshold, dist)
  {
    hide Euclidean, Sum;
    var n := |a.path|;
    var ac, ab, bc, cb := Gaps(a.path, c.path, dist), Gaps(a.path, b.path, dist), Gaps(b.path, c.path, dist),
      Gaps(c.path, b.path, dist);
    SumTriangle(a.path, b.path, c.path, dist, n);
    SumTriangle(c.path, b.path, a.path, dist, n);
    assert ac[..n] == ac && ab[..n] == ab && bc[..n] == bc && cb[..n] == cb;
    HalfMeans(Sum(ac), Sum(ab), Sum(cb), n as real, threshold);
  }

  lemma HalfMeans(x: real, y: real, z: real, n: real, t: real)
    requires n > 0.0 && x <= y + z && y / n < 0.5 * t && z / n < 0.5 * t
    ensures x / n < t
  {}

  lemma AlikeIsSymmetric(a: Test, b: Test, threshold: real, dist: (Vec, Vec) -> real)
    requires Euclidean(dist) && (a.path != [] && b.path != [] ==> |a.path| == |b.path|)
    ensures Alike(a, b, threshold, dist) <==> Alike(b, a, threshold, dist)
  {
    hide Euclidean, Sum;
    if a.path != [] && b.path != [] {
      var n := |a.path|;
      var ab, ba := Gaps(a.path, b.path, dist), Gaps(b.path, a.path, dist);
      SumTriangle(a.path, b.path, a.path, dist, n);
      assert ab[..n] == ab && ba[..n] == ba;
    }
  }

  /** Too few tests to fill the suite or any frame. */
  ghost predicate Unfilled(selected: seq<Test>, rules: Rules) {
    |selected| < rules.topK && (rules.maxPerFrame == 0 || |selected| < rules.maxPerFrame)
  }

  /** Every candidate of a suite with room left everywhere is selected or looks like a selected one. */
  lemma SelectedOrAlike(ranked: seq<Test>, rules: Rules, threshold: real, i: nat) returns (k: nat)
    requires i < |ranked| && Unfilled(Greedy(ranked, rules, threshold), rules)
    ensures var s := Greedy(ranked, rules, threshold);
            k < |s| && (s[k] == ranked[i] || Alike(ranked[i], s[k], threshold, rules.dist))
  {
    hide Greedy, TrajectoryDistance, AtLeast, FrameCount;
    RejectionIsJustified(ranked, rules, threshold, i);
    var s, earlier := Greedy(ranked, rules, threshold), Greedy(ranked[..i], rules, threshold);
    CountBounded(earlier, ranked[i].frame);
    if ranked[i] in s {
      k :| 0 <= k < |s| && s[k] == ranked[i];
    } else {
      k :| 0 <= k < |earlier| && !AtLeast(TrajectoryDistance(ranked[i].path, earlier[k].path, rules.dist), threshold);
      assert s[k] == earlier[k];
    }
  }

  /** An injective choice among m values for each of n indices. */
  lemma {:induction false} Pigeonhole(choice: seq<nat>, m: nat)
    requires Distinct(choice) && forall i :: 0 <= i < |choice| ==> choice[i] < m
    ensures |choice| <= m
    decreases m, 1
  {
    if choice == [] {
    } else {
      RoomForOne(choice, m);
      PigeonholeStep(choice, m);
    }
  }

  lemma RoomForOne(choice: seq<nat>, m: nat)
    requires choice != [] && forall i :: 0 <= i < |choice| ==> choice[i] < m
    ensures m > 0
  {
    assert choice[0] < m;
  }

  lemma {:induction false} PigeonholeStep(choice: seq<nat>, m: nat)
    requires m > 0 && Distinct(choice) && forall i :: 0 <= i < |choice| ==> choice[i] < m
    ensures |choice| <= m
    decreases m, 0
  {
    if k :| 0 <= k < |choice| && choice[k] == m - 1 {
      Pigeonhole(choice[..k] + choice[k + 1..], m - 1);
    } else {
      Pigeonhole(choice, m - 1);
    }
  }

  /** Two selected tests of the coarse suite cannot share a stand-in of the fine suite. */
  lemma StandInsDiffer(x: Test, y: Test, s: Test, threshold: real, dist: (Vec, Vec) -> real)
    requires Euclidean(dist) && threshold > 0.0
    requires x.path != [] && s.path != [] ==> |x.path| == |s.path|
    requires y.path != [] && s.path != [] ==> |y.path| == |s.path|
    requires x == s || Alike(x, s, 0.5 * threshold, dist)
    requires y == s || Alike(y, s, 0.5 * threshold, dist)
    ensures x == y || Alike(y, x, threshold, dist)
  {
    hide Euclidean;
    if x == y {
    } else if x == s {
      LargerThreshold(y, x, 0.5 * threshold, threshold, dist);
    } else if y == s {
      LargerThreshold(x, y, 0.5 * threshold, threshold, dist);
      AlikeIsSymmetric(x, y, threshold, dist);
    } else {
      AlikeThroughThird(y, s, x, threshold, dist);
    }
  }

  lemma LargerThreshold(a: Test, b: Test, t: real, u: real, dist: (Vec, Vec) -> real)
    requires t <= u && Alike(a, b, t, dist)
    ensures Alike(a, b, u, dist)
  {}

  /** The stand-ins, in the fine suite, of the first n tests of the coarse suite. */
  lemma {:induction false} StandIns(ranked: seq<Test>, rules: Rules, threshold: real, n: nat) returns (choice: seq<nat>)
    requires Unfilled(Greedy(ranked, rules, 0.5 * threshold), rules)
    requires n <= |Greedy(ranked, rules, threshold)|
    ensures var coarse, fine := Greedy(ranked, rules, threshold), Greedy(ranked, rules, 0.5 * threshold);
            && |choice| == n && (forall i :: 0 <= i < n ==> choice[i] < |fine|)
            && (forall i :: 0 <= i < n ==>
                 fine[choice[i]] == coarse[i] || Alike(coarse[i], fine[choice[i]], 0.5 * threshold, rules.dist))
  {
    hide Greedy, Alike;
    if n == 0 {
      choice := [];
    } else {
      choice := StandIns(ranked, rules, threshold, n - 1);
      GreedyIsSafe(ranked, rules, threshold);
      var t := Greedy(ranked, rules, threshold)[n - 1];
      var i :| 0 <= i < |ranked| && ranked[i] == t;
      var k := SelectedOrAlike(ranked, rules, 0.5 * threshold, i);
      choice := choice + [k];
    }
  }

  /**
   Halving the threshold never makes the suite smaller, unless the smaller suite has as many tests as the frame quota.
   */
  lemma RelaxingKeepsSize(ranked: seq<Test>, rules: Rules, threshold: real)
    requires Euclidean(rules.dist) && Resampled(ranked) && DistinctLayouts(ranked) && threshold > 0.0
    ensures var fine := Greedy(ranked, rules, 0.5 * threshold);
            |fine| >= |Greedy(ranked, rules, threshold)| || (rules.maxPerFrame > 0 && |fine| >= rules.maxPerFrame)
  {
    hide Greedy, Alike, Euclidean, LayoutSignature;
    var coarse, fine := Greedy(ranked, rules, threshold), Greedy(ranked, rules, 0.5 * threshold);
    GreedyIsSafe(ranked, rules, threshold);
    GreedyIsSafe(ranked, rules, 0.5 * threshold);
    if Unfilled(fine, rules) {
      var choice := StandIns(ranked, rules, threshold, |coarse|);
      GreedyIsDistinct(ranked, rules, threshold);
      forall i, j | 0 <= i < j < |choice| ensures choice[i] != choice[j] {
        if choice[i] == choice[j] {
          NotAlike(coarse, rules, threshold, i, j);
          SamePathLength(ranked, coarse[i], fine[choice[i]]);
          SamePathLength(ranked, coarse[j], fine[choice[i]]);
          StandInsDiffer(coarse[i], coarse[j], fine[choice[i]], threshold, rules.dist);
        }
      }
      Pigeonhole(choice, |fine|);
    }
  }

  lemma NotAlike(selected: seq<Test>, rules: Rules, threshold: real, i: nat, j: nat)
    requires Safe(selected, rules, threshold) && i < j < |selected|
    ensures !Alike(selected[j], selected[i], threshold, rules.dist)
  {
    hide TrajectoryDistance, AtLeast;
  }

  lemma SamePathLength(ranked: seq<Test>, a: Test, b: Test)
    requires Resampled(ranked) && a in ranked && b in ranked
    ensures a.path != [] && b.path != [] ==> |a.path| == |b.path|
  {}

  lemma GreedyIsDistinct(ranked: seq<Test>, rules: Rules, threshold: real)
    requires DistinctLayouts(ranked)
    ensures Distinct(Greedy(ranked, rules, threshold))
  {
    hide Greedy, LayoutSignature;
    var s := Greedy(ranked, rules, threshold);
    DistinctLayoutsAreDistinct(ranked);
    GreedyIsPart(ranked, rules, threshold);
    DistinctCounts(ranked);
    DistinctCounts(s);
    forall x | x in s ensures multiset(s)[x] == 1 {
      assert x in multiset(s) && x in multiset(ranked);
      assert x in ranked;
    }
  }

  // ---- the selected suite as a whole ------------------------------------------------------------

  lemma {:induction false} DeduplicatedKeepsOrder(tests: seq<Test>)
    requires Ordered(tests, RankLe)
    ensures Ordered(Deduplicated(tests), RankLe)
  {
    hide RankLe, LayoutSignature, Eligible;
    if tests != [] {
      var n := |tests| - 1;
      DeduplicatedKeepsOrder(tests[..n]);
      DeduplicatedIsClean(tests[..n]);
      var before := Deduplicated(tests[..n]);
      forall i | 0 <= i < |before| ensures RankLe(before[i], tests[n]) {
        var k :| 0 <= k < n && tests[..n][k] == before[i];
      }
    }
  }

  // ---- what the tests' own fields say -----------------------------------------------------------

  /** The distances of the paths, point by point, added up. */
  ghost function PathSum(a: seq<Vec>, b: seq<Vec>, dist: (Vec, Vec) -> real): real
    requires |a| == |b|
  {
    if a == [] then 0.0
    else
      var n := |a| - 1;
      PathSum(a[..n], b[..n], dist) + dist(a[n], b[n])
  }

  lemma {:induction false} SumOfGaps(a: seq<Vec>, b: seq<Vec>, dist: (Vec, Vec) -> real)
    requires |a| == |b|
    ensures Sum(Gaps(a, b, dist)) == PathSum(a, b, dist)
  {
    if a != [] {
      var n := |a| - 1;
      SumOfGaps(a[..n], b[..n], dist);
      assert Gaps(a, b, dist)[..n] == Gaps(a[..n], b[..n], dist);
    }
  }

  /** The distance of two paths of equal length is the mean of their point distances, and infinite to an empty path. */
  lemma DistanceMeans(a: seq<Vec>, b: seq<Vec>, dist: (Vec, Vec) -> real)
    ensures TrajectoryDistance(a, b, dist).Infinite? <==> a == [] || b == []
    ensures |a| == |b| > 0 ==> TrajectoryDistance(a, b, dist).r * |a| as real == PathSum(a, b, dist)
  {
    hide Sum, PathSum;
    if |a| == |b| > 0 {
      SumOfGaps(a, b, dist);
      MeanTimesLength(Gaps(a, b, dist));
    }
  }

  /** One more pair of points adds its distance. */
  lemma DistanceGrows(a: seq<Vec>, b: seq<Vec>, p: Vec, q: Vec, dist: (Vec, Vec) -> real)
    requires |a| == |b| > 0
    ensures TrajectoryDistance(a, b, dist).Finite? && TrajectoryDistance(a + [p], b + [q], dist).Finite?
    ensures TrajectoryDistance(a + [p], b + [q], dist).r * (|a| + 1) as real ==
            TrajectoryDistance(a, b, dist).r * |a| as real + dist(p, q)
    ensures TrajectoryDistance([p], [q], dist) == Finite(dist(p, q))
  {
    hide TrajectoryDistance;
    DistanceMeans(a, b, dist);
    DistanceMeans(a + [p], b + [q], dist);
    DistanceMeans([p], [q], dist);
    assert (a + [p])[..|a|] == a && (b + [q])[..|b|] == b;
    assert [p][..0] == [] && [q][..0] == [];
  }

  /** Points without a partner do not count. */
  lemma DistanceIgnoresRest(a: seq<Vec>, b: seq<Vec>, rest: seq<Vec>, dist: (Vec, Vec) -> real)
    requires |a| == |b| > 0
    ensures TrajectoryDistance(a + rest, b, dist) == TrajectoryDistance(a, b, dist)
    ensures TrajectoryDistance(a, b + rest, dist) == TrajectoryDistance(a, b, dist)
  {
    hide Mean;
    assert Gaps(a + rest, b, dist) == Gaps(a, b, dist) && Gaps(a, b + rest, dist) == Gaps(a, b, dist);
  }

  /** The flights are at least the threshold apart on average; a test without a path is apart from every other. */
  ghost predicate ToldApart(s: Test, t: Test, threshold: real, dist: (Vec, Vec) -> real) {
    s.path == [] || t.path == [] ||
    (|s.path| == |t.path| && PathSum(s.path, t.path, dist) >= threshold * |s.path| as real)
  }

  lemma NotAlikeIsToldApart(s: Test, t: Test, threshold: real, dist: (Vec, Vec) -> real)
    requires s.path != [] && t.path != [] ==> |s.path| == |t.path|
    ensures !Alike(s, t, threshold, dist) <==> ToldApart(s, t, threshold, dist)
  {
    hide TrajectoryDistance, PathSum;
    DistanceMeans(s.path, t.path, dist);
    if s.path != [] && t.path != [] {
      var d, n := TrajectoryDistance(s.path, t.path, dist).r, |s.path| as real;
      ScaledOrderLe(threshold, d, n, threshold * n, d * n);
    }
  }

  lemma ScaledOrderLe(x: real, y: real, n: real, xn: real, yn: real)
    requires n > 0.0 && xn == x * n && yn == y * n
    ensures x <= y <==> xn <= yn
  {
    if x < y { ProductSign(y - x, n, (y - x) * n); }
    if y < x { ProductSign(x - y, n, (x - y) * n); }
  }

  /** Scored no lower, and at the same score no farther from the obstacles on average. */
  ghost predicate NoWorse(s: Test, t: Test) {
    || s.officialScore > t.officialScore
    || (s.officialScore == t.officialScore
        && (t.distances == []
            || (s.distances != []
                && Sum(s.distances) * |t.distances| as real <= Sum(t.distances) * |s.distances| as real)))
  }

  lemma RankMeans(s: Test, t: Test)
    ensures RankLe(s, t) <==> NoWorse(s, t)
  {
    hide Sum, Mean;
    if s.distances != [] && t.distances != [] {
      var x, y, n, m := Mean(s.distances), Mean(t.distances), |s.distances| as real, |t.distances| as real;
      MeanTimesLength(s.distances);
      MeanTimesLength(t.distances);
      MeansCompare(x, y, n, m, Sum(s.distances), Sum(t.distances), Sum(s.distances) * m, Sum(t.distances) * n);
    }
  }

  lemma MeansCompare(x: real, y: real, n: real, m: real, a: real, b: real, am: real, bn: real)
    requires n > 0.0 && m > 0.0 && x * n == a && y * m == b && am == a * m && bn == b * n
    ensures x <= y <==> am <= bn
  {
    var nm := n * m;
    ProductSign(n, m, nm);
    assert am == x * nm && bn == y * nm;
    ScaledOrderLe(x, y, nm, am, bn);
  }

  /** Flown, never stuck, and worth points. */
  ghost predicate Submittable(t: Test) { t.valid && !t.stuck && t.officialScore > 0.0 }

  lemma EligibleMeans(t: Test)
    ensures Eligible(t) <==> Submittable(t)
  {}

  ghost predicate Ranked(tests: seq<Test>) { forall i, j :: 0 <= i < j < |tests| ==> NoWorse(tests[i], tests[j]) }

  /** The candidates come in rank order, except that with keepBestGate the best gate comes first. */
  lemma CandidatesAreRanked(evaluated: seq<Test>, rules: Rules)
    ensures var c := Candidates(evaluated, rules);
            if rules.keepBestGate && exists i :: 0 <= i < |c| && |c[i].boxes| == 2 then
              && |c[0].boxes| == 2 && Ranked(c[1..])
              && forall i :: 0 <= i < |c| && |c[i].boxes| == 2 ==> NoWorse(c[0], c[i])
            else Ranked(c)
  {
    hide RankLe, Deduplicated, Sort, NoWorse, FirstGate, Promoted;
    var ranked := Deduplicated(Sort(evaluated, RankLe));
    var c := Candidates(evaluated, rules);
    RankIsPreorder();
    SortOrders(evaluated, RankLe);
    DeduplicatedKeepsOrder(Sort(evaluated, RankLe));
    forall s, t ensures RankLe(s, t) <==> NoWorse(s, t) { RankMeans(s, t); }
    if rules.keepBestGate { PromotedIsRanked(ranked); }
  }

  lemma PromotedIsRanked(ranked: seq<Test>)
    requires Ranked(ranked)
    ensures var c := Promoted(ranked);
            if exists i :: 0 <= i < |c| && |c[i].boxes| == 2 then
              && |c[0].boxes| == 2 && Ranked(c[1..])
              && forall i :: 0 <= i < |c| && |c[i].boxes| == 2 ==> NoWorse(c[0], c[i])
            else Ranked(c)
  {
    hide NoWorse;
    var c, g := Promoted(ranked), FirstGate(ranked);
    if g < |ranked| {
      var rest := ranked[..g] + ranked[g + 1..];
      assert c == [ranked[g]] + rest && c[1..] == rest;
      forall i, j | 0 <= i < j < |rest| ensures NoWorse(rest[i], rest[j]) {
        assert rest[i] == ranked[if i < g then i else i + 1] && rest[j] == ranked[if j < g then j else j + 1];
      }
      NoWorseThanItself(ranked[g]);
      forall i | 0 <= i < |c| && |c[i].boxes| == 2 ensures NoWorse(c[0], c[i]) {
        if i > 0 { assert c[i] == rest[i - 1] == ranked[if i - 1 < g then i - 1 else i]; }
      }
    }
  }

  lemma NoWorseThanItself(t: Test)
    ensures NoWorse(t, t)
  {}

  /**
   Whatever a suite selection returns, it is safe, and its members are distinct eligible tests with distinct layouts.
   */
  lemma SuiteIsSafe(evaluated: seq<Test>, rules: Rules, threshold: real)
    requires Euclidean(rules.dist) && Resampled(evaluated)
    ensures var suite := Sort(Greedy(Candidates(evaluated, rules), rules, threshold), RankLe);
            && |suite| <= rules.topK && DistinctLayouts(suite) && Ordered(suite, RankLe)
            && (forall t :: t in suite ==> Eligible(t) && t in evaluated)
            && (forall s, t :: s in suite && t in suite && s != t ==> !Alike(s, t, threshold, rules.dist))
            && (forall s, t :: s in suite && t in suite && s != t ==> ToldApart(s, t, threshold, rules.dist))
            && (forall t :: t in suite ==> Submittable(t)) && Ranked(suite)
            && (rules.maxPerFrame > 0 ==> forall f :: FrameCount(suite, f) <= rules.maxPerFrame)
  {
    hide RankLe, LayoutSignature, Eligible, Greedy, Candidates, Sort, Euclidean, Alike, FrameCount, ToldApart, NoWorse;
    var c := Candidates(evaluated, rules);
    var g := Greedy(c, rules, threshold);
    var suite := Sort(g, RankLe);
    RankIsPreorder();
    SortOrders(g, RankLe);
    SortKeeps(g, RankLe);
    SortMembers(g, RankLe);
    CandidatesAreClean(evaluated, rules);
    GreedyIsSafe(c, rules, threshold);
    GreedyKeepsLayouts(c, rules, threshold);
    PermutedLayouts(g, suite);
    forall t | t in suite ensures Eligible(t) && t in evaluated && Submittable(t) {
      assert t in g;
      EligibleMeans(t);
    }
    forall s, t ensures RankLe(s, t) <==> NoWorse(s, t) { RankMeans(s, t); }
    forall s, t | s in suite && t in suite && s != t
      ensures !Alike(s, t, threshold, rules.dist) && ToldApart(s, t, threshold, rules.dist)
    {
      assert s in g && t in g;
      SamePathLength(evaluated, s, t);
      MembersNotAlike(g, rules, threshold, s, t);
      NotAlikeIsToldApart(s, t, threshold, rules.dist);
    }
    forall f ensures rules.maxPerFrame > 0 ==> FrameCount(suite, f) <= rules.maxPerFrame {
      CountOfMembers(suite, g, f);
    }
  }

  lemma GreedyKeepsLayouts(ranked: seq<Test>, rules: Rules, threshold: real)
    requires DistinctLayouts(ranked)
    ensures DistinctLayouts(Greedy(ranked, rules, threshold))
  {
    hide Greedy, LayoutSignature;
    var g := Greedy(ranked, rules, threshold);
    GreedyIsDistinct(ranked, rules, threshold);
    GreedyIsSafe(ranked, rules, threshold);
    forall i, j | 0 <= i < j < |g| ensures LayoutSignature(g[i]) != LayoutSignature(g[j]) {
      var p :| 0 <= p < |ranked| && ranked[p] == g[i];
      var q :| 0 <= q < |ranked| && ranked[q] == g[j];
      assert p != q;
    }
  }

  lemma MembersNotAlike(g: seq<Test>, rules: Rules, threshold: real, s: Test, t: Test)
    requires Safe(g, rules, threshold) && s in g && t in g && s != t && Euclidean(rules.dist)
    requires s.path != [] && t.path != [] ==> |s.path| == |t.path|
    ensures !Alike(s, t, threshold, rules.dist)
  {
    hide Alike, Safe, Euclidean;
    var i :| 0 <= i < |g| && g[i] == s;
    var j :| 0 <= j < |g| && g[j] == t;
    AlikeIsSymmetric(s, t, threshold, rules.dist);
    if i < j { NotAlike(g, rules, threshold, i, j); } else { NotAlike(g, rules, threshold, j, i); }
  }

  /** Deduplication drops an eligible test only for one of the same layout that ranks no worse. */
  lemma {:induction false} BetterTwin(tests: seq<Test>, i: nat) returns (j: nat)
    requires i < |tests| && Eligible(tests[i]) && Ordered(tests, RankLe)
    ensures var d := Deduplicated(tests);
            j < |d| && LayoutSignature(d[j]) == LayoutSignature(tests[i]) && RankLe(d[j], tests[i])
    decreases |tests|
  {
    hide LayoutSignature, Eligible, RankLe;
    var n := |tests| - 1;
    var before := Deduplicated(tests[..n]);
    if i < n {
      j := BetterTwin(tests[..n], i);
    } else if Seen(before, tests[n]) {
      j :| 0 <= j < |before| && LayoutSignature(before[j]) == LayoutSignature(tests[n]);
      DeduplicatedIsClean(tests[..n]);
      var k :| 0 <= k < n && tests[..n][k] == before[j];
    } else {
      j := |before|;
      RankIsReflexive(tests[n]);
    }
  }

  lemma SameSize(s: Test, t: Test)
    requires LayoutSignature(s) == LayoutSignature(t)
    ensures |s.boxes| == |t.boxes|
  {
    assert |multiset(s.boxes)| == |s.boxes| && |multiset(t.boxes)| == |t.boxes|;
  }

  ghost predicate EligibleGate(t: Test) { Eligible(t) && IsGate(t) }

  /** With the rule on, a gate that ranks no worse than any eligible gate is always submitted. */
  lemma BestGateIsKept(evaluated: seq<Test>, rules: Rules, threshold: real) returns (best: Test)
    requires rules.keepBestGate && rules.topK > 0 && exists gate :: gate in evaluated && EligibleGate(gate)
    ensures best in Sort(Greedy(Candidates(evaluated, rules), rules, threshold), RankLe) && IsGate(best)
    ensures forall gate :: gate in evaluated && EligibleGate(gate) ==> RankLe(best, gate)
    ensures |best.boxes| == 2
    ensures forall gate :: gate in evaluated && Submittable(gate) && |gate.boxes| == 2 ==> NoWorse(best, gate)
  {
    hide RankLe, LayoutSignature, Eligible, Greedy, Sort, Deduplicated, Promoted, NoWorse;
    var order := Sort(evaluated, RankLe);
    var ranked := Deduplicated(order);
    var c := Candidates(evaluated, rules);
    RankIsPreorder();
    SortOrders(evaluated, RankLe);
    SortMembers(evaluated, RankLe);
    DeduplicatedKeepsOrder(order);
    var first := FirstGate(ranked);
    forall gate | gate in evaluated && EligibleGate(gate) ensures first < |ranked| && RankLe(ranked[first], gate) {
      GateIsBeaten(order, ranked, gate);
    }
    PromotedKeeps(ranked);
    best := ranked[first];
    FirstIsSelected(c, rules, threshold);
    SortMembers(Greedy(c, rules, threshold), RankLe);
    forall gate | gate in evaluated && Submittable(gate) && |gate.boxes| == 2 ensures NoWorse(best, gate) {
      EligibleMeans(gate);
      RankMeans(best, gate);
    }
  }

  lemma GateIsBeaten(order: seq<Test>, ranked: seq<Test>, gate: Test)
    requires Ordered(order, RankLe) && ranked == Deduplicated(order) && Ordered(ranked, RankLe)
    requires gate in order && EligibleGate(gate)
    ensures FirstGate(ranked) < |ranked| && RankLe(ranked[FirstGate(ranked)], gate)
  {
    hide LayoutSignature, Eligible, Deduplicated, RankLe;
    var i :| 0 <= i < |order| && order[i] == gate;
    var j := BetterTwin(order, i);
    SameSize(ranked[j], gate);
    RankIsReflexive(ranked[j]);
    RankIsTransitive(ranked[FirstGate(ranked)], ranked[j], gate);
  }

  lemma RankIsTransitive(a: Test, b: Test, c: Test)
    requires RankLe(a, b) && RankLe(b, c)
    ensures RankLe(a, c)
  {}

  lemma RankIsReflexive(t: Test)
    ensures RankLe(t, t)
  {}

  /** The threshold used is the first of the halving sequence that fills the suite, or the first at the minimum. */
  lemma ThresholdIsBest(evaluated: seq<Test>, rules: Rules, start: real, k: nat)
    requires rules.relaxSimilarity && SettlesAfter(Candidates(evaluated, rules), rules, start, k)
    ensures var c := Candidates(evaluated, rules);
            && (|Greedy(c, rules, Halved(start, k))| == Fillable(c, rules) || Halved(start, k) <= MIN_THRESHOLD_M)
            && forall j :: 0 <= j < k ==>
                 Halved(start, j) > Halved(start, k) && Halved(start, j) > MIN_THRESHOLD_M
                 && |Greedy(c, rules, Halved(start, j))| < Fillable(c, rules)
  {
    hide Greedy, Fillable, Candidates;
    var c := Candidates(evaluated, rules);
    GreedyWithinFillable(c, rules, Halved(start, k));
    forall j | 0 <= j < k ensures Halved(start, j) > Halved(start, k) {
      assert !Settled(c, rules, Halved(start, j));
      HalvedDecreases(start, j, k);
    }
  }

  lemma HalvedMeans(start: real, k: nat)
    ensures Halved(start, 0) == start && 2.0 * Halved(start, k + 1) == Halved(start, k)
  {}

  lemma {:induction false} HalvedDecreases(start: real, j: nat, k: nat)
    requires j <= k && Halved(start, j) > 0.0
    ensures 0.0 < Halved(start, k) <= Halved(start, j) && (j < k ==> Halved(start, k) < Halved(start, j))
    decreases k - j
  {
    if j < k { HalvedDecreases(start, j, k - 1); }
  }
}
