/** When the halving of the similarity threshold can be relied on not to shrink the suite (suite.py). */
module Relaxing {
  import opened Plane
  import opened Boxes
  import opened Mission
  import opened Scoring
  import opened Sorting
  import opened Flights
  import opened Suite
  import opened SuiteLaws
  import opened Individuals

  /**
   Evaluated tests as a campaign hands them over: valid, legal in the placement area, with recorded distances, their
   official score and a mean path.
   */
  ghost predicate AsFlown(bounds: Bounds, tests: seq<Test>) {
    forall i :: 0 <= i < |tests| ==> FlownTest(bounds, tests[i], i)
  }

  ghost predicate FlownTest(bounds: Bounds, t: Test, i: nat) {
    && t.id == i && t.valid && t.distances != [] && (|t.boxes| == 1 || |t.boxes| == 2) && LegalLayout(bounds, t.boxes)
    && (t.path == [] || |t.path| == RESAMPLE_POINTS)
    && exists durations :: Scored(t, durations)
  }

  ghost predicate Scored(t: Test, durations: seq<real>) {
    Scorable(t.distances, |t.boxes|, durations)
      && t.officialScore == OfficialTestScore(t.distances, |t.boxes|, durations)
  }

  /** The suite the loop stops at is no smaller than any it tried before. */
  ghost predicate NeverShrinks(ranked: seq<Test>, rules: Rules, start: real, halvings: nat) {
    forall j :: 0 <= j <= halvings ==>
      |Greedy(ranked, rules, Halved(start, j))| <= |Greedy(ranked, rules, Halved(start, halvings))|
  }

  /** No relaxing, no quota, or a suite too small for the quota to matter before it is full. */
  predicate SafeToRelax(rules: Rules) {
    !rules.relaxSimilarity || rules.maxPerFrame == 0 || rules.topK <= 3 || rules.topK <= rules.maxPerFrame + 1
  }

  // ---- the safe side ----------------------------------------------------------------------------

  /** A suite of two tests never shrinks to one, whatever the quota: both start with the first candidate. */
  lemma {:induction false} PairKeepsSize(ranked: seq<Test>, rules: Rules, threshold: real)
    requires threshold > 0.0
    ensures Least(|Greedy(ranked, rules, threshold)|, 2) <= |Greedy(ranked, rules, 0.5 * threshold)|
  {
    hide TrajectoryDistance, FrameCount;
    if ranked != [] {
      var n := |ranked| - 1;
      PairKeepsSize(ranked[..n], rules, threshold);
      var coarse, fine := Greedy(ranked[..n], rules, threshold), Greedy(ranked[..n], rules, 0.5 * threshold);
      if n > 0 && rules.topK > 0 {
        FirstIsSelected(ranked[..n], rules, threshold);
        FirstIsSelected(ranked[..n], rules, 0.5 * threshold);
        assert |coarse| == |fine| == 1 ==> coarse == fine;
      }
    }
  }

  /** One step of the loop under safe rules. */
  lemma HalvingKeepsSize(ranked: seq<Test>, rules: Rules, threshold: real)
    requires Euclidean(rules.dist) && Resampled(ranked) && DistinctLayouts(ranked)
    requires SafeToRelax(rules) && !Settled(ranked, rules, threshold)
    ensures |Greedy(ranked, rules, 0.5 * threshold)| >= |Greedy(ranked, rules, threshold)|
  {
    hide Euclidean, Greedy, LayoutSignature;
    PairKeepsSize(ranked, rules, threshold);
    RelaxingKeepsSize(ranked, rules, threshold);
  }

  lemma {:induction false} RelaxedSuiteIsLargest(ranked: seq<Test>, rules: Rules, start: real, k: nat, j: nat)
    requires Euclidean(rules.dist) && Resampled(ranked) && DistinctLayouts(ranked) && SafeToRelax(rules)
    requires SettlesAfter(ranked, rules, start, k) && j <= k
    ensures |Greedy(ranked, rules, Halved(start, j))| <= |Greedy(ranked, rules, Halved(start, k))|
    decreases k - j
  {
    hide Euclidean, Greedy, LayoutSignature, Settled, SafeToRelax;
    if j < k {
      HalvingKeepsSize(ranked, rules, Halved(start, j));
      RelaxedSuiteIsLargest(ranked, rules, start, k, j + 1);
    }
  }

  lemma CandidatesAreFlown(bounds: Bounds, evaluated: seq<Test>, rules: Rules)
    requires AsFlown(bounds, evaluated)
    ensures Resampled(Candidates(evaluated, rules)) && DistinctLayouts(Candidates(evaluated, rules))
  {
    hide AsFlown, Candidates, DistinctLayouts;
    CandidatesAreEvaluated(evaluated, rules);
    var c := Candidates(evaluated, rules);
    forall i | 0 <= i < |c| ensures c[i].path == [] || |c[i].path| == RESAMPLE_POINTS {
      FlownIsResampled(bounds, evaluated, c[i]);
    }
  }

  lemma CandidatesAreEvaluated(evaluated: seq<Test>, rules: Rules)
    ensures var c := Candidates(evaluated, rules);
            DistinctLayouts(c) && forall i :: 0 <= i < |c| ==> c[i] in evaluated
  {
    hide *;
    CandidatesAreClean(evaluated, rules);
  }

  lemma FlownIsResampled(bounds: Bounds, evaluated: seq<Test>, t: Test)
    requires AsFlown(bounds, evaluated) && t in evaluated
    ensures t.path == [] || |t.path| == RESAMPLE_POINTS
  {
    hide Scored, LegalLayout;
    var k :| 0 <= k < |evaluated| && evaluated[k] == t;
    assert FlownTest(bounds, evaluated[k], k);
  }

  /** Under safe rules no campaign's suite is smaller than one the loop tried before. */
  lemma SafeRulesNeverShrink(bounds: Bounds, evaluated: seq<Test>, rules: Rules, start: real, halvings: nat)
    requires Euclidean(rules.dist) && AsFlown(bounds, evaluated) && SafeToRelax(rules)
    requires SettlesAfter(Candidates(evaluated, rules), rules, start, halvings)
    ensures NeverShrinks(Candidates(evaluated, rules), rules, start, halvings)
  {
    hide Euclidean, Greedy, Settled, SafeToRelax, Candidates, Halved, AsFlown, Resampled, DistinctLayouts, SettlesAfter;
    var c := Candidates(evaluated, rules);
    CandidatesAreFlown(bounds, evaluated, rules);
    forall j | 0 <= j <= halvings
      ensures |Greedy(c, rules, Halved(start, j))| <= |Greedy(c, rules, Halved(start, halvings))|
    {
      RelaxedSuiteIsLargest(c, rules, start, halvings, j);
    }
  }

  // ---- the counterexample -----------------------------------------------------------------------

  /** A straight flight, x metres to the side. */
  function Lane(x: real): (path: seq<Vec>)
    ensures |path| == RESAMPLE_POINTS && forall k :: 0 <= k < |path| ==> path[k] == Vec(x, k as real)
  {
    seq(RESAMPLE_POINTS, k requires 0 <= k => Vec(x, k as real))
  }

  /** A placement area and a frame quota. */
  datatype Site = Site(bounds: Bounds, q: nat)

  /** Room for a 20 m wall, and some more to move it along. */
  ghost predicate Roomy(bounds: Bounds) {
    bounds.xMax - bounds.xMin > 20.0 && bounds.yMax - bounds.yMin >= 2.0
  }

  /** A wall in the area, a little further along for every id. */
  function Spot(z: Site, id: nat): Box {
    var room := z.bounds.xMax - z.bounds.xMin - 20.0;
    var f := id as real / (AnchorCount(z.q) + 4) as real;
    Box(20.0, 2.0, 25.0, z.bounds.xMin + 10.0 + f * room, z.bounds.yMin + 1.0, 0.0, Vec(1.0, 0.0))
  }

  lemma SpotIsLegal(z: Site, id: nat)
    requires Roomy(z.bounds) && id < AnchorCount(z.q) + 4
    ensures LegalLayout(z.bounds, [Spot(z, id)])
  {
    var room, n := z.bounds.xMax - z.bounds.xMin - 20.0, (AnchorCount(z.q) + 4) as real;
    var f := id as real / n;
    Share(id as real, n, f);
    var x := f * room;
    Portion(f, room, x);
    var o := Spot(z, id);
    assert o.x == z.bounds.xMin + 10.0 + x;
    assert RotatedHalfExtents(20.0, 2.0, Vec(1.0, 0.0)) == Vec(10.0, 1.0);
    assert BoxFits(z.bounds, o);
  }

  lemma Portion(f: real, room: real, x: real)
    requires 0.0 <= f <= 1.0 && room > 0.0 && x == f * room
    ensures 0.0 <= x <= room
  {
    var rest := (1.0 - f) * room;
    assert rest == room - x;
    ProductNonNeg(f, room);
    ProductNonNeg(1.0 - f, room);
  }

  lemma Share(i: real, n: real, f: real)
    requires 0.0 <= i <= n && n > 0.0 && f == i / n
    ensures 0.0 <= f <= 1.0
  {}

  lemma SpotsDiffer(z: Site, i: nat, j: nat)
    requires Roomy(z.bounds) && i < j
    ensures Spot(z, i) != Spot(z, j)
  {
    var room, n := z.bounds.xMax - z.bounds.xMin - 20.0, (AnchorCount(z.q) + 4) as real;
    var f, g := i as real / n, j as real / n;
    Shares(i as real, j as real, n, f, g);
    var d := (g - f) * room;
    ProductSign(g - f, room, d);
    assert g * room == f * room + d;
  }

  lemma Shares(i: real, j: real, n: real, f: real, g: real)
    requires i < j && n > 0.0 && f == i / n && g == j / n
    ensures f < g
  {}

  /** A single wall flown once, at 1.2 m in one minute, along such a lane. */
  function At(z: Site, id: nat, frame: nat, x: real): Test {
    Test(id, [Spot(z, id)], Frame(frame, 1), true, false, OfficialTestScore([1.2], 1, [60.0]), [1.2], Lane(x))
  }

  lemma AtIsFlown(z: Site, id: nat, frame: nat, x: real)
    requires Roomy(z.bounds) && id < AnchorCount(z.q) + 4
    ensures FlownTest(z.bounds, At(z, id, frame, x), id) && Eligible(At(z, id, frame, x))
  {
    hide LegalLayout, Spot, Lane;
    var t := At(z, id, frame, x);
    SpotIsLegal(z, id);
    assert Scored(t, [60.0]);
    var points := PointsOf([1.2]);
    assert points == [1.0] && points[..0] == [] && [60.0][..0] == [];
    assert Sum(points) == 1.0 && Sum([60.0]) == 60.0;
    assert Weight(1, [60.0]) == 1.0;
  }

  lemma AtIsOnLine(z: Site, id: nat, frame: nat, x: real)
    ensures OnLine(At(z, id, frame, x)) && Place(At(z, id, frame, x)) == x
    ensures At(z, id, frame, x).frame == Frame(frame, 1)
  {
    hide Spot;
  }

  ghost predicate OnLine(t: Test) { t.path != [] && t.path == Lane(t.path[0].x) }

  ghost function Place(t: Test): real
    requires OnLine(t)
  {
    t.path[0].x
  }

  lemma {:induction false} ConstantSum(xs: seq<real>, d: real)
    requires forall i :: 0 <= i < |xs| ==> xs[i] == d
    ensures Sum(xs) == |xs| as real * d
  {
    if xs != [] {
      var n := |xs| - 1;
      ConstantSum(xs[..n], d);
      assert |xs| as real == n as real + 1.0;
    }
  }

  lemma SidewaysDistance(dist: (Vec, Vec) -> real, x: real, y: real, k: real)
    requires Euclidean(dist)
    ensures dist(Vec(x, k), Vec(y, k)) == Abs(y - x)
  {
    var d, m := dist(Vec(x, k), Vec(y, k)), Abs(y - x);
    assert d >= 0.0 && d * d == DistSq(Vec(y, k), Vec(x, k));
    hide Euclidean;
    assert d * d == m * m;
    RootLe(d, m);
    RootLe(m, d);
  }

  lemma LaneDistance(dist: (Vec, Vec) -> real, x: real, y: real)
    requires Euclidean(dist)
    ensures TrajectoryDistance(Lane(x), Lane(y), dist) == Finite(Abs(y - x))
  {
    hide Euclidean, Lane;
    var gaps := Gaps(Lane(x), Lane(y), dist);
    forall k | 0 <= k < |gaps| ensures gaps[k] == Abs(y - x) { SidewaysDistance(dist, x, y, k as real); }
    ConstantSum(gaps, Abs(y - x));
    assert |gaps| == RESAMPLE_POINTS;
  }

  /** On parallel lanes, a test is distinguishable when every selected one is at least the threshold away. */
  lemma DistinguishableOnLine(selected: seq<Test>, t: Test, threshold: real, dist: (Vec, Vec) -> real)
    requires Euclidean(dist) && OnLine(t) && forall i :: 0 <= i < |selected| ==> OnLine(selected[i])
    ensures Distinguishable(selected, t, threshold, dist) <==>
            forall i :: 0 <= i < |selected| ==> Abs(Place(selected[i]) - Place(t)) >= threshold
  {
    hide TrajectoryDistance, Euclidean, Lane;
    forall i | 0 <= i < |selected|
      ensures TrajectoryDistance(t.path, selected[i].path, dist) == Finite(Abs(Place(selected[i]) - Place(t)))
    {
      LaneDistance(dist, Place(t), Place(selected[i]));
    }
  }

  // The ranking behind the counterexample, for a quota q: anchors 100 m apart that leave one place in frame 0; a rival
  // for that place just closer to the first anchor than the coarse threshold; a victim right beside the rival; a loner
  // far away that wants the same place in frame 0; and a twin of the first anchor in a frame of its own, which keeps
  // the suite from ever being full.

  function AnchorCount(q: nat): nat { if q <= 1 then 1 else q - 1 }
  function AnchorFrame(q: nat): nat { if q <= 1 then 2 else 0 }
  function Anchor(z: Site, i: nat): Test { At(z, i, AnchorFrame(z.q), 100.0 * i as real) }
  function Rival(z: Site): Test { At(z, AnchorCount(z.q), 0, 0.98) }
  function Victim(z: Site): Test { At(z, AnchorCount(z.q) + 1, 1, 1.0) }
  function Loner(z: Site): Test { At(z, AnchorCount(z.q) + 2, 0, -100.0) }
  function Twin(z: Site): Test { At(z, AnchorCount(z.q) + 3, 3, 0.01) }

  function Anchors(z: Site, n: nat): (row: seq<Test>)
    ensures |row| == n && forall i :: 0 <= i < n ==> row[i] == Anchor(z, i)
  {
    seq(n, i requires 0 <= i < n => Anchor(z, i))
  }

  function LosingRanking(z: Site): (r: seq<Test>)
    ensures |r| == AnchorCount(z.q) + 4
  {
    Anchors(z, AnchorCount(z.q)) + [Rival(z)] + [Victim(z)] + [Loner(z)] + [Twin(z)]
  }

  lemma {:induction false} AbsentFrame(tests: seq<Test>, f: Frame)
    requires forall i :: 0 <= i < |tests| ==> tests[i].frame != f
    ensures FrameCount(tests, f) == 0
  {
    if tests != [] { AbsentFrame(tests[..|tests| - 1], f); }
  }

  lemma {:induction false} SingleFrame(tests: seq<Test>, f: Frame)
    requires forall i :: 0 <= i < |tests| ==> tests[i].frame == f
    ensures FrameCount(tests, f) == |tests|
  {
    if tests != [] { SingleFrame(tests[..|tests| - 1], f); }
  }

  lemma Start(rules: Rules, threshold: real)
    ensures Greedy([], rules, threshold) == []
  {}

  lemma OneAccepted(ranked: seq<Test>, t: Test, rules: Rules, threshold: real)
    requires Accepts(Greedy(ranked, rules, threshold), t, rules, threshold)
    ensures Greedy(ranked + [t], rules, threshold) == Greedy(ranked, rules, threshold) + [t]
  {
    hide Accepts;
    assert (ranked + [t])[..|ranked|] == ranked;
  }

  lemma OneRefused(ranked: seq<Test>, t: Test, rules: Rules, threshold: real)
    requires !Accepts(Greedy(ranked, rules, threshold), t, rules, threshold)
    ensures Greedy(ranked + [t], rules, threshold) == Greedy(ranked, rules, threshold)
  {
    hide Accepts;
    assert (ranked + [t])[..|ranked|] == ranked;
  }

  /** A test away from all selected ones gets in while there is room. */
  lemma GetsIn(ranked: seq<Test>, selected: seq<Test>, t: Test, rules: Rules, threshold: real)
    requires Euclidean(rules.dist) && OnLine(t) && (forall j :: 0 <= j < |selected| ==> OnLine(selected[j]))
    requires forall j :: 0 <= j < |selected| ==> Abs(Place(selected[j]) - Place(t)) >= threshold
    requires |selected| < rules.topK && FrameCount(selected, t.frame) < rules.maxPerFrame
    requires Greedy(ranked, rules, threshold) == selected
    ensures Greedy(ranked + [t], rules, threshold) == selected + [t]
  {
    hide Euclidean, FrameCount, Distinguishable, OnLine, Greedy;
    DistinguishableOnLine(selected, t, threshold, rules.dist);
    OneAccepted(ranked, t, rules, threshold);
  }

  /** A test beside a selected one is turned down. */
  lemma StaysOut(ranked: seq<Test>, selected: seq<Test>, i: nat, t: Test, rules: Rules, threshold: real)
    requires Euclidean(rules.dist) && OnLine(t) && (forall j :: 0 <= j < |selected| ==> OnLine(selected[j]))
    requires i < |selected| && Abs(Place(selected[i]) - Place(t)) < threshold
    requires Greedy(ranked, rules, threshold) == selected
    ensures Greedy(ranked + [t], rules, threshold) == selected
  {
    hide Euclidean, FrameCount, Distinguishable, OnLine, Greedy;
    DistinguishableOnLine(selected, t, threshold, rules.dist);
    OneRefused(ranked, t, rules, threshold);
  }

  /** So is a test whose frame is full. */
  lemma FrameIsFull(ranked: seq<Test>, selected: seq<Test>, t: Test, rules: Rules, threshold: real)
    requires rules.maxPerFrame > 0 && FrameCount(selected, t.frame) >= rules.maxPerFrame
    requires Greedy(ranked, rules, threshold) == selected
    ensures Greedy(ranked + [t], rules, threshold) == selected
  {
    hide FrameCount, Distinguishable, Greedy;
    OneRefused(ranked, t, rules, threshold);
  }

  lemma CountOfMore(tests: seq<Test>, t: Test, f: Frame)
    ensures FrameCount(tests + [t], f) == FrameCount(tests, f) + if t.frame == f then 1 else 0
  {
    assert (tests + [t])[..|tests|] == tests;
  }

  lemma {:induction false} AnchorsSelected(z: Site, n: nat, rules: Rules, threshold: real)
    requires Euclidean(rules.dist) && rules.maxPerFrame == z.q && z.q > 0 && n <= AnchorCount(z.q) <= rules.topK
    requires threshold <= 1.0
    ensures Greedy(Anchors(z, n), rules, threshold) == Anchors(z, n)
  {
    hide Euclidean, FrameCount, Greedy, OnLine, Anchors, Anchor;
    if n == 0 {
      Start(rules, threshold);
    } else {
      var before, t := Anchors(z, n - 1), Anchor(z, n - 1);
      AnchorsSelected(z, n - 1, rules, threshold);
      assert Anchors(z, n) == before + [t];
      AnchorFacts(z, n);
      SingleFrame(before, t.frame);
      forall i | 0 <= i < n - 1 ensures Abs(Place(before[i]) - Place(t)) >= threshold {
        assert Anchors(z, n)[i] == before[i] && i as real + 1.0 <= (n - 1) as real;
      }
      GetsIn(before, before, t, rules, threshold);
    }
  }

  /** The anchors fill their own frame and no other. */
  lemma AnchorFacts(z: Site, n: nat)
    ensures forall f :: FrameCount(Anchors(z, n), f) == if f == Frame(AnchorFrame(z.q), 1) then n else 0
    ensures forall i :: 0 <= i < n ==>
              var t := Anchors(z, n)[i];
              OnLine(t) && Place(t) == 100.0 * i as real && t.frame == Frame(AnchorFrame(z.q), 1)
  {
    hide Anchors, FrameCount, OnLine, At;
    var row := Anchors(z, n);
    forall i | 0 <= i < n
      ensures OnLine(row[i]) && Place(row[i]) == 100.0 * i as real && row[i].frame == Frame(AnchorFrame(z.q), 1)
    {
      AtIsOnLine(z, i, AnchorFrame(z.q), 100.0 * i as real);
    }
    forall f ensures FrameCount(row, f) == if f == Frame(AnchorFrame(z.q), 1) then n else 0 {
      if f == Frame(AnchorFrame(z.q), 1) { SingleFrame(row, f); } else { AbsentFrame(row, f); }
    }
  }

  lemma OtherFacts(z: Site)
    ensures OnLine(Rival(z)) && Place(Rival(z)) == 0.98 && Rival(z).frame == Frame(0, 1)
    ensures OnLine(Victim(z)) && Place(Victim(z)) == 1.0 && Victim(z).frame == Frame(1, 1)
    ensures OnLine(Loner(z)) && Place(Loner(z)) == -100.0 && Loner(z).frame == Frame(0, 1)
    ensures OnLine(Twin(z)) && Place(Twin(z)) == 0.01 && Twin(z).frame == Frame(3, 1)
  {
    hide OnLine;
    AtIsOnLine(z, AnchorCount(z.q), 0, 0.98);
    AtIsOnLine(z, AnchorCount(z.q) + 1, 1, 1.0);
    AtIsOnLine(z, AnchorCount(z.q) + 2, 0, -100.0);
    AtIsOnLine(z, AnchorCount(z.q) + 3, 3, 0.01);
  }

  ghost predicate Breakable(z: Site, rules: Rules) {
    Euclidean(rules.dist) && rules.maxPerFrame == z.q && z.q > 0 && rules.topK >= AnchorCount(z.q) + 3
      && rules.relaxSimilarity
  }

  /** At the coarse threshold the rival and the twin look like an anchor; the victim and the loner get in. */
  lemma CoarseSuite(z: Site, rules: Rules)
    requires Breakable(z, rules)
    ensures |Greedy(LosingRanking(z), rules, 1.0)| == AnchorCount(z.q) + 2
  {
    hide Euclidean, Greedy, FrameCount, Anchors, OnLine, Rival, Victim, Loner, Twin;
    var a, rival, victim, loner, twin := Anchors(z, AnchorCount(z.q)), Rival(z), Victim(z), Loner(z), Twin(z);
    AnchorsSelected(z, AnchorCount(z.q), rules, 1.0);
    AnchorFacts(z, AnchorCount(z.q));
    OtherFacts(z);
    StaysOut(a, a, 0, rival, rules, 1.0);
    GetsIn(a + [rival], a, victim, rules, 1.0);
    CountOfMore(a, victim, Frame(0, 1));
    GetsIn(a + [rival] + [victim], a + [victim], loner, rules, 1.0);
    StaysOut(a + [rival] + [victim] + [loner], a + [victim] + [loner], 0, twin, rules, 1.0);
  }

  /** At every finer threshold the rival takes the place, and victim, loner and twin are turned down. */
  lemma FineSuite(z: Site, rules: Rules, threshold: real)
    requires Breakable(z, rules) && 0.05 < threshold <= 0.5
    ensures |Greedy(LosingRanking(z), rules, threshold)| == AnchorCount(z.q) + 1
  {
    hide Euclidean, Greedy, FrameCount, Anchors, OnLine, Rival, Victim, Loner, Twin;
    var a, rival, victim, loner, twin := Anchors(z, AnchorCount(z.q)), Rival(z), Victim(z), Loner(z), Twin(z);
    AnchorsSelected(z, AnchorCount(z.q), rules, threshold);
    AnchorFacts(z, AnchorCount(z.q));
    OtherFacts(z);
    GetsIn(a, a, rival, rules, threshold);
    var s := a + [rival];
    StaysOut(s, s, |a|, victim, rules, threshold);
    CountOfMore(a, rival, Frame(0, 1));
    FrameIsFull(s + [victim], s, loner, rules, threshold);
    StaysOut(s + [victim] + [loner], s, 0, twin, rules, threshold);
  }

  /** Rival, victim and twin together with the anchors would fit the quota, so the loop goes on. */
  lemma RoomForMore(z: Site, rules: Rules)
    requires Breakable(z, rules)
    ensures Fillable(LosingRanking(z), rules) >= AnchorCount(z.q) + 3
  {
    hide Euclidean, FrameCount, Anchors, OnLine, Rival, Victim, Loner, Twin, Fillable;
    var a, rival, victim, loner, twin := Anchors(z, AnchorCount(z.q)), Rival(z), Victim(z), Loner(z), Twin(z);
    var s := a + [rival] + [victim] + [twin];
    AnchorFacts(z, AnchorCount(z.q));
    OtherFacts(z);
    forall f ensures FrameCount(s, f) <= z.q {
      CountOfMore(a, rival, f);
      CountOfMore(a + [rival], victim, f);
      CountOfMore(a + [rival] + [victim], twin, f);
    }
    assert multiset(LosingRanking(z)) == multiset(s) + multiset{loner};
    FillableIsUpperBound(s, LosingRanking(z), rules);
  }

  // ---- the counterexample is what a campaign may hand over --------------------------------------

  lemma RankingMember(z: Site, i: nat) returns (frame: nat, x: real)
    requires i < |LosingRanking(z)|
    ensures LosingRanking(z)[i] == At(z, i, frame, x)
  {
    hide Anchors, At;
    var n := AnchorCount(z.q);
    if i < n {
      frame, x := AnchorFrame(z.q), 100.0 * i as real;
      assert LosingRanking(z)[i] == Anchors(z, n)[i];
    } else {
      frame, x := [0, 1, 0, 3][i - n], [0.98, 1.0, -100.0, 0.01][i - n];
    }
  }

  /** Tests of one rank, all eligible single walls of different layouts, are their own candidates. */
  lemma OwnCandidates(tests: seq<Test>, rules: Rules)
    requires forall i :: 0 <= i < |tests| ==> Eligible(tests[i]) && !IsGate(tests[i])
    requires DistinctLayouts(tests)
    requires forall i, j :: 0 <= i < |tests| && 0 <= j < |tests| ==> RankLe(tests[i], tests[j])
    ensures Candidates(tests, rules) == tests
  {
    hide RankLe, LayoutSignature, Eligible;
    SortedAlready(tests);
    NothingToDrop(tests);
    assert FirstGate(tests) == |tests|;
  }

  lemma {:induction false} SortedAlready(tests: seq<Test>)
    requires forall i, j :: 0 <= i < |tests| && 0 <= j < |tests| ==> RankLe(tests[i], tests[j])
    ensures Sort(tests, RankLe) == tests
  {
    hide RankLe;
    if tests != [] {
      forall i, j | 0 <= i < |tests[1..]| && 0 <= j < |tests[1..]| ensures RankLe(tests[1..][i], tests[1..][j]) {
        assert RankLe(tests[i + 1], tests[j + 1]);
      }
      SortedAlready(tests[1..]);
      assert tests == [tests[0]] + tests[1..];
    }
  }

  lemma {:induction false} NothingToDrop(tests: seq<Test>)
    requires (forall i :: 0 <= i < |tests| ==> Eligible(tests[i])) && DistinctLayouts(tests)
    ensures Deduplicated(tests) == tests
  {
    hide LayoutSignature, Eligible;
    if tests != [] {
      var n := |tests| - 1;
      NothingToDrop(tests[..n]);
      assert tests == tests[..n] + [tests[n]];
    }
  }

  lemma DifferentLayouts(s: Test, t: Test)
    requires |s.boxes| == 1 && |t.boxes| == 1 && s.boxes[0] != t.boxes[0]
    ensures LayoutSignature(s) != LayoutSignature(t)
  {
    assert s.boxes == [s.boxes[0]] && t.boxes == [t.boxes[0]];
    assert s.boxes[0] in LayoutSignature(s) && s.boxes[0] !in LayoutSignature(t);
  }

  lemma LosingRankingIsFlown(z: Site, rules: Rules)
    requires Roomy(z.bounds)
    ensures AsFlown(z.bounds, LosingRanking(z)) && Candidates(LosingRanking(z), rules) == LosingRanking(z)
  {
    hide LayoutSignature, Eligible, FlownTest, LosingRanking, RankLe, Spot, Roomy;
    var tests := LosingRanking(z);
    forall i | 0 <= i < |tests| ensures FlownTest(z.bounds, tests[i], i) && Eligible(tests[i]) && !IsGate(tests[i]) {
      var frame, x := RankingMember(z, i);
      AtIsFlown(z, i, frame, x);
    }
    forall i, j | 0 <= i < |tests| && 0 <= j < |tests| ensures RankLe(tests[i], tests[j]) {
      var f, x := RankingMember(z, i);
      var g, y := RankingMember(z, j);
      SameRank(z, i, f, x, j, g, y);
    }
    forall i, j | 0 <= i < j < |tests| ensures LayoutSignature(tests[i]) != LayoutSignature(tests[j]) {
      var f, x := RankingMember(z, i);
      var g, y := RankingMember(z, j);
      SpotsDiffer(z, i, j);
      DifferentLayouts(tests[i], tests[j]);
    }
    OwnCandidates(tests, rules);
  }

  lemma SameRank(z: Site, i: nat, f: nat, x: real, j: nat, g: nat, y: real)
    ensures RankLe(At(z, i, f, x), At(z, j, g, y))
  {
    hide Mean, OfficialTestScore, Lane, Spot;
  }

  /** On tests as a campaign records them, the loop halves four times from 1.0 and ends with one test less. */
  lemma LosingRun(z: Site, rules: Rules)
    requires Breakable(z, rules) && Roomy(z.bounds)
    ensures AsFlown(z.bounds, LosingRanking(z)) && Candidates(LosingRanking(z), rules) == LosingRanking(z)
    ensures SettlesAfter(LosingRanking(z), rules, 1.0, 4) && !NeverShrinks(LosingRanking(z), rules, 1.0, 4)
  {
    hide Greedy, Fillable, LosingRanking, AsFlown, Candidates, Roomy;
    var tests := LosingRanking(z);
    LosingRankingIsFlown(z, rules);
    assert Halved(1.0, 0) == 1.0 && Halved(1.0, 1) == 0.5 && Halved(1.0, 2) == 0.25;
    assert Halved(1.0, 3) == 0.125 && Halved(1.0, 4) == 0.0625;
    CoarseSuite(z, rules);
    FineSuite(z, rules, 0.5);
    FineSuite(z, rules, 0.25);
    FineSuite(z, rules, 0.125);
    FineSuite(z, rules, 0.0625);
    RoomForMore(z, rules);
    forall j | 0 <= j < 4 ensures !Settled(tests, rules, Halved(1.0, j)) {
      assert j == 0 || j == 1 || j == 2 || j == 3;
    }
    assert |Greedy(tests, rules, Halved(1.0, 0))| > |Greedy(tests, rules, Halved(1.0, 4))|;
  }

  /**
   The suite that selection returns can be relied on to be no smaller than any it tried before exactly when the
   threshold is never relaxed, there is no frame quota, or topK is at most 3 or at most one above the quota.
   */
  lemma RelaxingIsSafeExactly(bounds: Bounds, rules: Rules)
    requires Euclidean(rules.dist) && Roomy(bounds)
    ensures SafeToRelax(rules) <==>
            forall evaluated, start, halvings ::
              AsFlown(bounds, evaluated) && SettlesAfter(Candidates(evaluated, rules), rules, start, halvings) ==>
                NeverShrinks(Candidates(evaluated, rules), rules, start, halvings)
  {
    hide Euclidean, Candidates, AsFlown, SettlesAfter, NeverShrinks, LosingRanking, Roomy;
    if SafeToRelax(rules) {
      forall evaluated, start, halvings
        | AsFlown(bounds, evaluated) && SettlesAfter(Candidates(evaluated, rules), rules, start, halvings)
        ensures NeverShrinks(Candidates(evaluated, rules), rules, start, halvings)
      {
        SafeRulesNeverShrink(bounds, evaluated, rules, start, halvings);
      }
    } else {
      var z := Site(bounds, rules.maxPerFrame);
      LosingRun(z, rules);
    }
  }
}
