/** The official score, its shaped search analogue, and when the second respects the first (generator.py). */
module Scoring {
  import opened Plane

  const MIN_SECONDS := 0.000000001

  /** Competition points of one minimum distance. */
  function TierPoints(d: real): int {
    if d < 0.25 then 5 else if d < 1.0 then 2 else if d < 1.5 then 1 else 0
  }

  /** How close a distance is to the next better tier; decay(x) stands for e to the power -x. */
  function ShapingTerm(d: real, decay: real -> real): real {
    if d >= 1.5 then decay(d - 1.5)
    else if d >= 1.0 then (1.5 - d) / 0.5
    else if d >= 0.25 then (1.0 - d) / 0.75
    else (0.25 - d) / 0.25
  }

  function ShapedPoints(d: real, gain: real, decay: real -> real): real {
    TierPoints(d) as real + gain * ShapingTerm(d, decay)
  }

  function Sum(xs: seq<real>): real { if xs == [] then 0.0 else Sum(xs[..|xs| - 1]) + xs[|xs| - 1] }

  function Mean(xs: seq<real>): real
    requires xs != []
  {
    Sum(xs) / |xs| as real
  }

  function PointsOf(distances: seq<real>): (r: seq<real>)
    ensures |r| == |distances|
  {
    seq(|distances|, i requires 0 <= i < |distances| => TierPoints(distances[i]) as real)
  }

  function ShapedOf(distances: seq<real>, gain: real, decay: real -> real): (r: seq<real>)
    ensures |r| == |distances|
  {
    seq(|distances|, i requires 0 <= i < |distances| => ShapedPoints(distances[i], gain, decay))
  }

  /** What the score functions demand of their callers; anything else raises. */
  predicate Scorable(distances: seq<real>, count: nat, durations: seq<real>) {
    |distances| == |durations| && count > 0 && forall i :: 0 <= i < |durations| ==> durations[i] > 0.0
  }

  lemma {:induction false} SumPositive(xs: seq<real>)
    requires xs != [] && forall i :: 0 <= i < |xs| ==> xs[i] > 0.0
    ensures Sum(xs) > 0.0
  {
    if |xs| > 1 { SumPositive(xs[..|xs| - 1]); }
  }

  lemma MeanPositive(xs: seq<real>)
    requires xs != [] && forall i :: 0 <= i < |xs| ==> xs[i] > 0.0
    ensures Mean(xs) > 0.0
  {
    SumPositive(xs);
  }

  /** The divisor of the official formula: squared obstacle count times mean minutes. */
  function Weight(count: nat, durations: seq<real>): (weight: real)
    requires count > 0 && durations != [] && forall i :: 0 <= i < |durations| ==> durations[i] > 0.0
    ensures weight > 0.0
  {
    MeanPositive(durations);
    var minutes := Mean(durations) / 60.0;
    var weight := (count * count) as real * minutes;
    assert weight > 0.0 by { ProductSign((count * count) as real, minutes, weight); }
    weight
  }

  function ScoreFromPoints(points: real, count: nat, durations: seq<real>): real
    requires count > 0 && forall i :: 0 <= i < |durations| ==> durations[i] > 0.0
  {
    if durations == [] then 0.0 else (points * 10.0) / Weight(count, durations)
  }

  function OfficialTestScore(distances: seq<real>, count: nat, durations: seq<real>): real
    requires Scorable(distances, count, durations)
  {
    if distances == [] then 0.0 else ScoreFromPoints(Mean(PointsOf(distances)), count, durations)
  }

  function SearchTestScore(distances: seq<real>, count: nat, durations: seq<real>, gain: real, decay: real -> real,
                           stuck: bool, incompleteFactor: real): real
    requires Scorable(distances, count, durations)
  {
    if distances == [] then 0.0
    else
      var factor := if stuck then incompleteFactor else 1.0;
      ScoreFromPoints(Mean(ShapedOf(distances, gain, decay)), count, durations) * factor
  }

  // ---- shaping ----------------------------------------------------------------------------------

  /** Positive, one at zero and strictly decreasing, as e to the power -x is. */
  ghost predicate IsDecay(decay: real -> real) {
    decay(0.0) == 1.0 && forall x, y :: 0.0 <= x < y ==> 0.0 < decay(y) < decay(x)
  }

  lemma ShapingInUnit(d: real, decay: real -> real)
    requires IsDecay(decay) && d >= 0.0
    ensures 0.0 < ShapingTerm(d, decay) <= 1.0
  {}

  lemma ShapingDecreases(d: real, e: real, decay: real -> real)
    requires IsDecay(decay) && 0.0 <= d < e && TierPoints(d) == TierPoints(e)
    ensures ShapingTerm(d, decay) > ShapingTerm(e, decay)
  {}

  /** Shaped points order distances strictly for every gain up to one tier gap. */
  lemma ShapedPointsDecrease(d: real, e: real, gain: real, decay: real -> real)
    requires IsDecay(decay) && 0.0 < gain <= 1.0 && 0.0 <= d < e
    ensures ShapedPoints(d, gain, decay) > ShapedPoints(e, gain, decay)
  {
    hide ShapingTerm;
    ShapingInUnit(d, decay);
    ShapingInUnit(e, decay);
    if TierPoints(d) == TierPoints(e) {
      ShapingDecreases(d, e, decay);
      GainScales(ShapingTerm(d, decay), ShapingTerm(e, decay), gain);
    } else {
      GainBelowTier(ShapingTerm(d, decay), ShapingTerm(e, decay), gain, 1.0);
      assert TierPoints(d) >= TierPoints(e) + 1;
    }
  }

  lemma GainScales(m: real, n: real, gain: real)
    requires gain > 0.0 && m > n
    ensures gain * m > gain * n
  {}

  /** A shaping sum of at most n, scaled by a gain of at most 1 / n, is less than one tier above any positive one. */
  lemma GainBelowTier(m: real, k: real, gain: real, n: real)
    requires gain > 0.0 && m > 0.0 && 0.0 <= k <= n && n * gain <= 1.0
    ensures gain * k < 1.0 + gain * m
  {}

  /** A larger gain inverts the step between two tiers. */
  lemma ShapedPointsInvert(gain: real, decay: real -> real)
    requires IsDecay(decay) && gain > 1.0
    ensures exists d, e :: 0.0 <= d < e && ShapedPoints(d, gain, decay) < ShapedPoints(e, gain, decay)
  {
    var r := (gain - 1.0) / (4.0 * gain);
    assert r * (4.0 * gain) == gain - 1.0;
    var d := 1.5 - r;
    assert 0.0 < r < 0.5 by {
      if r <= 0.0 { ProductNonNeg(-r, 4.0 * gain); }
      if r >= 0.5 { ProductLe(0.5, r, 4.0 * gain); }
    }
    assert ShapingTerm(d, decay) == r / 0.5 == 2.0 * r;
    assert gain * (2.0 * r) == 0.5 * (gain - 1.0);
    assert ShapedPoints(d, gain, decay) < ShapedPoints(1.5, gain, decay);
  }

  // ---- whole tests: official order against search order -------------------------------------------

  function TierSum(distances: seq<real>): int {
    if distances == [] then 0 else TierSum(distances[..|distances| - 1]) + TierPoints(distances[|distances| - 1])
  }

  function ShapingSum(distances: seq<real>, decay: real -> real): real {
    if distances == [] then 0.0
    else ShapingSum(distances[..|distances| - 1], decay) + ShapingTerm(distances[|distances| - 1], decay)
  }

  ghost predicate NonNegative(xs: seq<real>) { forall i :: 0 <= i < |xs| ==> xs[i] >= 0.0 }

  lemma {:induction false} SumOfPoints(distances: seq<real>)
    ensures Sum(PointsOf(distances)) == TierSum(distances) as real
  {
    if distances != [] {
      var n := |distances| - 1;
      SumOfPoints(distances[..n]);
      assert PointsOf(distances)[..n] == PointsOf(distances[..n]);
    }
  }

  lemma {:induction false} SumOfShaped(distances: seq<real>, gain: real, decay: real -> real)
    ensures Sum(ShapedOf(distances, gain, decay)) == TierSum(distances) as real + gain * ShapingSum(distances, decay)
  {
    hide ShapingTerm, TierPoints;
    if distances != [] {
      var n := |distances| - 1;
      SumOfShaped(distances[..n], gain, decay);
      assert ShapedOf(distances, gain, decay)[..n] == ShapedOf(distances[..n], gain, decay);
      ShapedStep(distances, gain, decay);
    }
  }

  lemma ShapedStep(distances: seq<real>, gain: real, decay: real -> real)
    requires distances != []
    ensures var n := |distances| - 1;
            gain * ShapingSum(distances, decay) ==
              gain * ShapingSum(distances[..n], decay) + gain * ShapingTerm(distances[n], decay)
  {}

  lemma {:induction false} ShapingSumBounds(distances: seq<real>, decay: real -> real)
    requires IsDecay(decay) && NonNegative(distances)
    ensures 0.0 <= ShapingSum(distances, decay) <= |distances| as real
    ensures distances != [] ==> ShapingSum(distances, decay) > 0.0
  {
    if distances != [] {
      ShapingSumBounds(distances[..|distances| - 1], decay);
      ShapingInUnit(distances[|distances| - 1], decay);
    }
  }

  // ---- the formula of the competition -----------------------------------------------------------

  /** How many runs came nearer than the bound. */
  ghost function Nearer(distances: seq<real>, bound: real): nat {
    if distances == [] then 0
    else Nearer(distances[..|distances| - 1], bound) + if distances[|distances| - 1] < bound then 1 else 0
  }

  /** Points per run: five below 0.25 m, two below 1 m, one below 1.5 m, none beyond. */
  lemma {:induction false} PointsByTier(distances: seq<real>)
    ensures TierSum(distances) == 3 * Nearer(distances, 0.25) + Nearer(distances, 1.0) + Nearer(distances, 1.5)
  {
    if distances != [] { PointsByTier(distances[..|distances| - 1]); }
  }

  /** Within a tier the nudge falls in a straight line from one at the near bound to zero at the far one. */
  lemma NudgeByTier(d: real, decay: real -> real)
    ensures d < 0.25 ==> 0.25 * ShapingTerm(d, decay) == 0.25 - d
    ensures 0.25 <= d < 1.0 ==> 0.75 * ShapingTerm(d, decay) == 1.0 - d
    ensures 1.0 <= d < 1.5 ==> 0.5 * ShapingTerm(d, decay) == 1.5 - d
    ensures 1.5 <= d ==> ShapingTerm(d, decay) == decay(d - 1.5)
  {}

  /**
   The score times the squared number of obstacles and the total flight time in seconds is 600 times the points: ten
   times the mean points over squared obstacles and mean minutes.
   */
  ghost predicate FollowsFormula(score: real, distances: seq<real>, count: nat, durations: seq<real>) {
    score * (count * count) as real * Sum(durations) ==
    600.0 * (3 * Nearer(distances, 0.25) + Nearer(distances, 1.0) + Nearer(distances, 1.5)) as real
  }

  lemma OfficialFormula(distances: seq<real>, count: nat, durations: seq<real>)
    requires Scorable(distances, count, durations) && distances != []
    ensures FollowsFormula(OfficialTestScore(distances, count, durations), distances, count, durations)
  {
    hide Sum, PointsOf, TierSum, OfficialTestScore, Nearer;
    SumOfPoints(distances);
    PointsByTier(distances);
    OfficialIsScaled(distances, count, durations);
    ScaledScore(OfficialTestScore(distances, count, durations), PointsOf(distances), count, durations);
  }

  /** The search score has shaped points in place of the points, and incompleteFactor exactly for stuck tests. */
  lemma SearchFormula(distances: seq<real>, count: nat, durations: seq<real>, gain: real, decay: real -> real,
                      incompleteFactor: real)
    requires Scorable(distances, count, durations) && distances != []
    ensures SearchTestScore(distances, count, durations, gain, decay, false, incompleteFactor)
              * (count * count) as real * Sum(durations) ==
            600.0 * (TierSum(distances) as real + gain * ShapingSum(distances, decay))
    ensures SearchTestScore(distances, count, durations, gain, decay, true, incompleteFactor) ==
            SearchTestScore(distances, count, durations, gain, decay, false, incompleteFactor) * incompleteFactor
  {
    hide Sum, ShapedOf, TierSum, ShapingSum, SearchTestScore;
    SumOfShaped(distances, gain, decay);
    SearchIsScaled(distances, count, durations, gain, decay, incompleteFactor);
    ScaledScore(SearchTestScore(distances, count, durations, gain, decay, false, incompleteFactor),
                ShapedOf(distances, gain, decay), count, durations);
  }

  lemma SearchIsScaled(distances: seq<real>, count: nat, durations: seq<real>, gain: real, decay: real -> real,
                       incompleteFactor: real)
    requires Scorable(distances, count, durations) && distances != []
    ensures SearchTestScore(distances, count, durations, gain, decay, false, incompleteFactor) ==
            ScoreFromPoints(Mean(ShapedOf(distances, gain, decay)), count, durations)
    ensures SearchTestScore(distances, count, durations, gain, decay, true, incompleteFactor) ==
            ScoreFromPoints(Mean(ShapedOf(distances, gain, decay)), count, durations) * incompleteFactor
  {
    hide Mean, ShapedOf, Weight;
  }

  lemma OfficialIsScaled(distances: seq<real>, count: nat, durations: seq<real>)
    requires Scorable(distances, count, durations) && distances != []
    ensures OfficialTestScore(distances, count, durations) ==
            ScoreFromPoints(Mean(PointsOf(distances)), count, durations)
  {}

  lemma ScaledScore(score: real, points: seq<real>, count: nat, durations: seq<real>)
    requires |points| == |durations| > 0 && count > 0 && forall i :: 0 <= i < |durations| ==> durations[i] > 0.0
    requires score == ScoreFromPoints(Mean(points), count, durations)
    ensures score * (count * count) as real * Sum(durations) == 600.0 * Sum(points)
  {
    hide Sum, Mean, Weight;
    var n := |durations| as real;
    var p, m, w := Mean(points), Mean(durations), Weight(count, durations);
    MeanTimesLength(points);
    MeanTimesLength(durations);
    WeightOfMean(count, durations, m);
    QuotientTimes(p * 10.0, w, score);
    FormulaScalars(score, (count * count) as real, Sum(durations), Sum(points), n, p, m, w);
  }

  lemma MeanTimesLength(xs: seq<real>)
    requires xs != []
    ensures Mean(xs) * |xs| as real == Sum(xs)
  {
    hide Sum;
    QuotientTimes(Sum(xs), |xs| as real, Mean(xs));
  }

  lemma WeightOfMean(count: nat, durations: seq<real>, m: real)
    requires count > 0 && durations != [] && m == Mean(durations)
    requires forall i :: 0 <= i < |durations| ==> durations[i] > 0.0
    ensures Weight(count, durations) * 60.0 == (count * count) as real * m
  {
    hide Mean;
    var minutes := m / 60.0;
    assert minutes * 60.0 == m;
  }

  lemma QuotientTimes(x: real, w: real, r: real)
    requires w > 0.0 && r == x / w
    ensures r * w == x
  {}

  lemma FormulaScalars(score: real, cc: real, t: real, s: real, n: real, p: real, m: real, w: real)
    requires p * n == s && m * n == t && w * 60.0 == cc * m && score * w == p * 10.0
    ensures score * cc * t == 600.0 * s
  {
    var k := score * cc;
    assert k * m == score * (cc * m) == 60.0 * (score * w);
    assert k * t == (k * m) * n;
    assert (600.0 * p) * n == 600.0 * (p * n);
  }

  /** The runs of one completing test: a distance and a duration each. */
  datatype Flown = Flown(distances: seq<real>, durations: seq<real>)

  /** Two tests with n runs each, the same obstacle count and the same mean duration. */
  ghost predicate Comparable(n: nat, a: Flown, b: Flown, count: nat) {
    && |a.distances| == n && |b.distances| == n && n > 0
    && Scorable(a.distances, count, a.durations) && Scorable(b.distances, count, b.durations)
    && NonNegative(a.distances) && NonNegative(b.distances) && Mean(a.durations) == Mean(b.durations)
  }

  /** The official score of the first strictly beats the other's. */
  predicate OfficiallyBetter(a: Flown, b: Flown, count: nat)
    requires Scorable(a.distances, count, a.durations) && Scorable(b.distances, count, b.durations)
  {
    OfficialTestScore(a.distances, count, a.durations) > OfficialTestScore(b.distances, count, b.durations)
  }

  predicate SearchBetter(a: Flown, b: Flown, count: nat, gain: real, decay: real -> real)
    requires Scorable(a.distances, count, a.durations) && Scorable(b.distances, count, b.durations)
  {
    SearchTestScore(a.distances, count, a.durations, gain, decay, false, 1.0)
      > SearchTestScore(b.distances, count, b.durations, gain, decay, false, 1.0)
  }

  /** With equal run counts, obstacle counts and mean durations, both scores compare the sums of their points. */
  lemma ScoresCompareSums(n: nat, a: Flown, b: Flown, count: nat, gain: real, decay: real -> real)
    requires Comparable(n, a, b, count)
    ensures OfficiallyBetter(a, b, count) <==> TierSum(a.distances) > TierSum(b.distances)
    ensures SearchBetter(a, b, count, gain, decay) <==>
            TierSum(a.distances) as real + gain * ShapingSum(a.distances, decay)
              > TierSum(b.distances) as real + gain * ShapingSum(b.distances, decay)
  {
    hide Sum, PointsOf, ShapedOf, TierSum, ShapingSum, Weight;
    var x, y := a.distances, b.distances;
    SumOfPoints(x);
    SumOfPoints(y);
    SumOfShaped(x, gain, decay);
    SumOfShaped(y, gain, decay);
    WeightReadsMean(count, a.durations, b.durations);
    ScaledOrder(Sum(PointsOf(x)), Sum(PointsOf(y)), n as real, Weight(count, a.durations));
    ScaledOrder(Sum(ShapedOf(x, gain, decay)), Sum(ShapedOf(y, gain, decay)), n as real, Weight(count, a.durations));
  }

  lemma WeightReadsMean(count: nat, d: seq<real>, e: seq<real>)
    requires count > 0 && d != [] && e != [] && Mean(d) == Mean(e)
    requires forall i :: 0 <= i < |d| ==> d[i] > 0.0
    requires forall i :: 0 <= i < |e| ==> e[i] > 0.0
    ensures Weight(count, d) == Weight(count, e)
  {
    hide Mean;
  }

  lemma ScaledOrder(x: real, y: real, n: real, weight: real)
    requires n > 0.0 && weight > 0.0
    ensures ((x / n) * 10.0) / weight > ((y / n) * 10.0) / weight <==> x > y
  {
    QuotientOrder(x, y, n);
    QuotientOrder((x / n) * 10.0, (y / n) * 10.0, weight);
  }

  lemma QuotientOrder(x: real, y: real, n: real)
    requires n > 0.0
    ensures x / n > y / n <==> x > y
  {}

  /** Shaping never inverts an official order between tests of n runs as long as n times the gain is at most one. */
  lemma ShapingKeepsOrder(n: nat, a: Flown, b: Flown, count: nat, gain: real, decay: real -> real)
    requires Comparable(n, a, b, count) && IsDecay(decay) && gain > 0.0 && n as real * gain <= 1.0
    requires OfficiallyBetter(a, b, count)
    ensures SearchBetter(a, b, count, gain, decay)
  {
    hide TierSum, ShapingSum, SearchBetter, OfficiallyBetter, Mean;
    ScoresCompareSums(n, a, b, count, gain, decay);
    ShapingSumBounds(a.distances, decay);
    ShapingSumBounds(b.distances, decay);
    GainBelowTier(ShapingSum(a.distances, decay), ShapingSum(b.distances, decay), gain, n as real);
  }

  /** All but the last run at distance d, the last at e. */
  function TwoValued(n: nat, d: real, e: real): (xs: seq<real>)
    requires n > 0
    ensures |xs| == n
  {
    seq(n - 1, i => d) + [e]
  }

  lemma {:induction false} ConstantSums(n: nat, d: real, decay: real -> real)
    ensures TierSum(seq(n, i => d)) == n * TierPoints(d)
    ensures ShapingSum(seq(n, i => d), decay) == n as real * ShapingTerm(d, decay)
  {
    if n > 0 {
      ConstantSums(n - 1, d, decay);
      assert seq(n, i => d)[..n - 1] == seq(n - 1, i => d);
      assert n as real == (n - 1) as real + 1.0;
    }
  }

  /** Beyond that bound some pair of tests is inverted, for every number of runs and all durations. */
  lemma ShapingInvertsOrder(n: nat, count: nat, durations: seq<real>, gain: real, decay: real -> real)
      returns (a: Flown, b: Flown)
    requires IsDecay(decay) && n > 0 && count > 0 && |durations| == n && forall i :: 0 <= i < n ==> durations[i] > 0.0
    requires gain > 0.0 && n as real * gain > 1.0
    ensures a.durations == durations == b.durations && Comparable(n, a, b, count)
    ensures OfficiallyBetter(a, b, count) && !SearchBetter(a, b, count, gain, decay)
  {
    hide TierSum, ShapingSum, OfficiallyBetter, SearchBetter, ShapingTerm, TierPoints, Mean;
    // Every run of a sits just inside the far end of its tier, every run of b at the near end of its own.
    var ng := n as real * gain;
    var mu := (ng - 1.0) / (2.0 * ng);
    InvertingFraction(ng, mu);
    a := Flown(TwoValued(n, 1.5 - 0.5 * mu, 1.0 - 0.75 * mu), durations);
    b := Flown(TwoValued(n, 1.0, 1.0), durations);
    TwoValuedSums(n, 1.5 - 0.5 * mu, 1.0 - 0.75 * mu, decay);
    TwoValuedSums(n, 1.0, 1.0, decay);
    TierEnds(mu, decay);
    ScoresCompareSums(n, a, b, count, gain, decay);
    InvertingSums(n as real, gain, mu, ng);
  }

  lemma TierEnds(mu: real, decay: real -> real)
    requires 0.0 < mu < 1.0
    ensures TierPoints(1.5 - 0.5 * mu) == 1 && TierPoints(1.0 - 0.75 * mu) == 2 && TierPoints(1.0) == 1
    ensures ShapingTerm(1.5 - 0.5 * mu, decay) == mu && ShapingTerm(1.0 - 0.75 * mu, decay) == mu
    ensures ShapingTerm(1.0, decay) == 1.0
  {}

  lemma TwoValuedSums(n: nat, d: real, e: real, decay: real -> real)
    requires n > 0
    ensures TierSum(TwoValued(n, d, e)) == (n - 1) * TierPoints(d) + TierPoints(e)
    ensures ShapingSum(TwoValued(n, d, e), decay) == (n as real - 1.0) * ShapingTerm(d, decay) + ShapingTerm(e, decay)
  {
    var xs := TwoValued(n, d, e);
    assert xs[..n - 1] == seq(n - 1, i => d);
    ConstantSums(n - 1, d, decay);
    assert (n - 1) as real == n as real - 1.0;
  }

  lemma InvertingSums(n: real, gain: real, mu: real, ng: real)
    requires ng == n * gain && ng > 1.0 && mu * (2.0 * ng) == ng - 1.0
    ensures n + 1.0 + gain * ((n - 1.0) * mu + mu) <= n + gain * ((n - 1.0) * 1.0 + 1.0)
  {}

  lemma InvertingFraction(ng: real, mu: real)
    requires ng > 1.0 && mu == (ng - 1.0) / (2.0 * ng)
    ensures 0.0 < mu < 1.0 && mu * (2.0 * ng) == ng - 1.0
  {}

  /**
   So the search score respects the official order between tests of n runs exactly when n times the gain is at most
   one.
   */
  lemma ShapingIsSafeExactly(n: nat, count: nat, gain: real, decay: real -> real)
    requires IsDecay(decay) && n > 0 && count > 0 && gain > 0.0
    ensures n as real * gain <= 1.0 <==>
            forall a, b :: Comparable(n, a, b, count) && OfficiallyBetter(a, b, count) ==>
                SearchBetter(a, b, count, gain, decay)
  {
    hide OfficiallyBetter, SearchBetter, IsDecay;
    if n as real * gain <= 1.0 {
      forall a, b | Comparable(n, a, b, count) && OfficiallyBetter(a, b, count)
        ensures SearchBetter(a, b, count, gain, decay)
      {
        ShapingKeepsOrder(n, a, b, count, gain, decay);
      }
    } else {
      var a, b := ShapingInvertsOrder(n, count, seq(n, i => 60.0), gain, decay);
    }
  }
}
