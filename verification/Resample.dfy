/** Arc-length resampling of a flight path (suite.py), against the definition of the point at a given arc length. */
module Resample {
  import opened Plane
  import opened Mission

  /** The length of the path up to its i-th point. */
  function ArcLength(points: seq<Vec>, dist: (Vec, Vec) -> real, i: nat): real
    requires i < |points|
  {
    if i == 0 then 0.0 else ArcLength(points, dist, i - 1) + dist(points[i - 1], points[i])
  }

  /** p is the point a fraction f into segment i, and that is at arc length s. */
  ghost predicate OnArcAt(points: seq<Vec>, dist: (Vec, Vec) -> real, s: real, p: Vec, i: nat, f: real) {
    && i + 1 < |points| && 0.0 <= f <= 1.0
    && p == Lerp(points[i], points[i + 1], f)
    && s == Along(ArcLength(points, dist, i), ArcLength(points, dist, i + 1), f)
  }

  /** p is the point of the polyline at arc length s. */
  ghost predicate OnArc(points: seq<Vec>, dist: (Vec, Vec) -> real, s: real, p: Vec) {
    exists i, f :: OnArcAt(points, dist, s, p, i, f)
  }

  /** The arc length of the k-th of n evenly spaced points. */
  function Target(total: real, k: nat, n: nat): real
    requires n >= 2
  {
    total * k as real / (n - 1) as real
  }

  lemma TargetOrder(total: real, k: nat, n: nat)
    requires n >= 2 && k < n && total > 0.0
    ensures 0.0 <= Target(total, k, n) <= total
    ensures Target(total, 0, n) == 0.0 && Target(total, n - 1, n) == total
    ensures k + 1 < n ==> Target(total, k, n) <= Target(total, k + 1, n)
  {
    var m := (n - 1) as real;
    ShareOf(total, 0.0, k as real, m);
    ShareOf(total, k as real, m, m);
    if k + 1 < n { ShareOf(total, k as real, (k + 1) as real, m); }
    WholeOf(total, m);
    NothingOf(total, m);
  }

  /** Shares of a length grow with their number of parts. */
  lemma ShareOf(total: real, i: real, j: real, m: real)
    requires total > 0.0 && m > 0.0 && i <= j
    ensures total * i / m <= total * j / m
  {
    var x, y := total * i, total * j;
    ScaledLe(total, i, j, x, y);
    QuotientLe(x, y, m);
  }

  lemma ScaledLe(k: real, i: real, j: real, x: real, y: real)
    requires k > 0.0 && i <= j && x == k * i && y == k * j
    ensures x <= y
  {
    if i < j {
      ProductSign(k, j - i, k * (j - i));
      assert k * (j - i) == y - x;
    }
  }

  lemma WholeOf(total: real, m: real)
    requires m > 0.0
    ensures total * m / m == total
  {}

  lemma NothingOf(total: real, m: real)
    requires m > 0.0
    ensures total * 0.0 / m == 0.0
  {}

  lemma QuotientLe(x: real, y: real, m: real)
    requires m > 0.0 && x <= y
    ensures x / m <= y / m
  {}

  lemma {:induction false} ArcGrows(points: seq<Vec>, dist: (Vec, Vec) -> real, i: nat, j: nat)
    requires Euclidean(dist) && i <= j < |points|
    ensures ArcLength(points, dist, i) <= ArcLength(points, dist, j)
    decreases j - i
  {
    hide Euclidean;
    if i < j {
      ArcGrows(points, dist, i, j - 1);
      NoDistance(dist, points[j - 1], points[j]);
    }
  }

  lemma NoDistance(dist: (Vec, Vec) -> real, p: Vec, q: Vec)
    requires Euclidean(dist)
    ensures dist(p, q) >= 0.0 && (dist(p, q) == 0.0 ==> p == q)
  {
    var d, sq := dist(p, q), DistSq(q, p);
    assert d >= 0.0 && d * d == sq;
    if d == 0.0 { SamePoint(p, q, sq); }
  }

  lemma SamePoint(p: Vec, q: Vec, sq: real)
    requires sq == DistSq(q, p) && sq == 0.0
    ensures p == q
  {
    hide NormSq;
    var z := Sub(q, p);
    NormSqSign(z, sq);
    assert z == Vec(0.0, 0.0);
  }

  /** A stretch of the path without length stays at one point. */
  lemma {:induction false} FlatStretch(points: seq<Vec>, dist: (Vec, Vec) -> real, i: nat, j: nat)
    requires Euclidean(dist) && i <= j < |points| && ArcLength(points, dist, i) == ArcLength(points, dist, j)
    ensures points[i] == points[j]
    decreases j - i
  {
    hide Euclidean;
    if i < j {
      ArcGrows(points, dist, i, j - 1);
      ArcGrows(points, dist, j - 1, j);
      FlatStretch(points, dist, i, j - 1);
      NoDistance(dist, points[j - 1], points[j]);
    }
  }

  lemma AlongBetween(a: real, b: real, f: real)
    requires a <= b && 0.0 <= f <= 1.0
    ensures a <= Along(a, b, f) <= b
    ensures a < b && Along(a, b, f) == a ==> f == 0.0
    ensures a < b && Along(a, b, f) == b ==> f == 1.0
  {
    ProductNonNeg(f, b - a);
    ProductLe(f, 1.0, b - a);
    if a < b && f > 0.0 { ProductSign(f, b - a, f * (b - a)); }
    if a < b && f < 1.0 { ProductSign(1.0 - f, b - a, (b - a) - f * (b - a)); }
  }

  /** At the end of its arc interval a point is the end point of its segment. */
  lemma AtFarEnd(points: seq<Vec>, dist: (Vec, Vec) -> real, s: real, p: Vec, i: nat, f: real)
    requires Euclidean(dist) && OnArcAt(points, dist, s, p, i, f) && s == ArcLength(points, dist, i + 1)
    ensures p == points[i + 1]
  {
    hide Euclidean, ArcLength;
    ArcGrows(points, dist, i, i + 1);
    if ArcLength(points, dist, i) == ArcLength(points, dist, i + 1) {
      FlatStretch(points, dist, i, i + 1);
      LerpSame(points[i], f);
    } else {
      AlongBetween(ArcLength(points, dist, i), ArcLength(points, dist, i + 1), f);
    }
  }

  lemma LerpSame(p: Vec, f: real)
    ensures Lerp(p, p, f) == p
  {}

  lemma AtNearEnd(points: seq<Vec>, dist: (Vec, Vec) -> real, s: real, p: Vec, i: nat, f: real)
    requires Euclidean(dist) && OnArcAt(points, dist, s, p, i, f) && s == ArcLength(points, dist, i)
    ensures p == points[i]
  {
    hide Euclidean, ArcLength;
    ArcGrows(points, dist, i, i + 1);
    if ArcLength(points, dist, i) == ArcLength(points, dist, i + 1) {
      FlatStretch(points, dist, i, i + 1);
      LerpSame(points[i], f);
    } else {
      AlongBetween(ArcLength(points, dist, i), ArcLength(points, dist, i + 1), f);
    }
  }

  lemma SameFraction(a: real, b: real, f: real, g: real)
    requires a < b && Along(a, b, f) == Along(a, b, g)
    ensures f == g
  {}

  lemma ArcPointOrdered(points: seq<Vec>, dist: (Vec, Vec) -> real, s: real, p: Vec, i: nat, f: real, q: Vec, j: nat,
                        g: real)
    requires Euclidean(dist) && OnArcAt(points, dist, s, p, i, f) && OnArcAt(points, dist, s, q, j, g) && i <= j
    ensures p == q
  {
    hide Euclidean, ArcLength;
    ArcGrows(points, dist, i, i + 1);
    ArcGrows(points, dist, j, j + 1);
    AlongBetween(ArcLength(points, dist, i), ArcLength(points, dist, i + 1), f);
    AlongBetween(ArcLength(points, dist, j), ArcLength(points, dist, j + 1), g);
    if i < j {
      ArcGrows(points, dist, i + 1, j);
      AtFarEnd(points, dist, s, p, i, f);
      AtNearEnd(points, dist, s, q, j, g);
      FlatStretch(points, dist, i + 1, j);
    } else if ArcLength(points, dist, i) == ArcLength(points, dist, i + 1) {
      AtNearEnd(points, dist, s, p, i, f);
      AtNearEnd(points, dist, s, q, i, g);
    } else {
      SameFraction(ArcLength(points, dist, i), ArcLength(points, dist, i + 1), f, g);
    }
  }

  /** The polyline has exactly one point at each arc length, repeated points or not. */
  lemma ArcPointUnique(points: seq<Vec>, dist: (Vec, Vec) -> real, s: real, p: Vec, q: Vec)
    requires Euclidean(dist) && OnArc(points, dist, s, p) && OnArc(points, dist, s, q)
    ensures p == q
  {
    var i, f :| OnArcAt(points, dist, s, p, i, f);
    var j, g :| OnArcAt(points, dist, s, q, j, g);
    if i <= j {
      ArcPointOrdered(points, dist, s, p, i, f, q, j, g);
    } else {
      ArcPointOrdered(points, dist, s, q, j, g, p, i, f);
    }
  }

  lemma EndsAreOnArc(points: seq<Vec>, dist: (Vec, Vec) -> real)
    requires |points| >= 2
    ensures OnArc(points, dist, 0.0, points[0])
    ensures OnArc(points, dist, ArcLength(points, dist, |points| - 1), points[|points| - 1])
  {
    assert OnArcAt(points, dist, 0.0, points[0], 0, 0.0);
    assert OnArcAt(points, dist, ArcLength(points, dist, |points| - 1), points[|points| - 1], |points| - 2, 1.0);
  }

  /** The interpolation of one output point inside the segment the pointer has reached. */
  lemma Interpolated(points: seq<Vec>, dist: (Vec, Vec) -> real, target: real, i: nat, f: real)
    requires i + 1 < |points| && ArcLength(points, dist, i) <= target <= ArcLength(points, dist, i + 1)
    requires var span := ArcLength(points, dist, i + 1) - ArcLength(points, dist, i);
             f == if span > 0.0 then (target - ArcLength(points, dist, i)) / span else 0.0
    ensures OnArcAt(points, dist, target, Lerp(points[i], points[i + 1], f), i, f)
  {
    var span := ArcLength(points, dist, i + 1) - ArcLength(points, dist, i);
    if span > 0.0 {
      var t := Fraction(target - ArcLength(points, dist, i), span);
    }
  }

  lemma StartLength(points: seq<Vec>, dist: (Vec, Vec) -> real)
    requires points != []
    ensures ArcLength(points, dist, 0) == 0.0
  {}

  method CumulativeLengths(points: seq<Vec>, dist: (Vec, Vec) -> real) returns (cumulative: seq<real>)
    requires points != []
    ensures |cumulative| == |points|
    ensures forall j :: 0 <= j < |points| ==> cumulative[j] == ArcLength(points, dist, j)
  {
    cumulative := [0.0];
    for i := 0 to |points| - 1
      invariant |cumulative| == i + 1
      invariant forall j :: 0 <= j <= i ==> cumulative[j] == ArcLength(points, dist, j)
    {
      cumulative := cumulative + [cumulative[i] + dist(points[i], points[i + 1])];
    }
  }

  /** n points spaced evenly along the polyline, found with one pointer that only moves forward. */
  method Resample(points: seq<Vec>, n: nat, dist: (Vec, Vec) -> real) returns (result: seq<Vec>)
    requires Euclidean(dist) && (n != 1 || points == [] || ArcLength(points, dist, |points| - 1) == 0.0)
    ensures points == [] ==> result == []
    ensures points != [] ==> |result| == n
    ensures points != [] && ArcLength(points, dist, |points| - 1) == 0.0 ==>
              forall k :: 0 <= k < n ==> result[k] == points[0]
    ensures points != [] && ArcLength(points, dist, |points| - 1) > 0.0 && n > 0 ==>
              && (forall k :: 0 <= k < n ==>
                    OnArc(points, dist, Target(ArcLength(points, dist, |points| - 1), k, n), result[k]))
              && result[0] == points[0] && result[n - 1] == points[|points| - 1]
  {
    hide Euclidean, Target, ArcLength, OnArcAt;
    if points == [] { return []; }
    StartLength(points, dist);
    if |points| == 1 { return seq(n, k => points[0]); }
    var cumulative := CumulativeLengths(points, dist);
    var total := cumulative[|points| - 1];
    ArcGrows(points, dist, 0, |points| - 1);
    if total <= 0.0 { return seq(n, k => points[0]); }
    result := [];
    var segment := 0;
    if n > 0 { TargetOrder(total, 0, n); }
    for k := 0 to n
      invariant |result| == k && segment + 1 < |points|
      invariant k < n ==> cumulative[segment] <= Target(total, k, n)
      invariant forall j :: 0 <= j < k ==> OnArc(points, dist, Target(total, j, n), result[j])
    {
      var target := Target(total, k, n);
      TargetOrder(total, k, n);
      while segment < |points| - 2 && cumulative[segment + 1] < target
        invariant segment + 1 < |points| && cumulative[segment] <= target
      {
        segment := segment + 1;
      }
      var a, b := points[segment], points[segment + 1];
      var span := cumulative[segment + 1] - cumulative[segment];
      var f := if span > 0.0 then (target - cumulative[segment]) / span else 0.0;
      Interpolated(points, dist, target, segment, f);
      var p := Lerp(a, b, f);
      assert OnArc(points, dist, target, p) by { assert OnArcAt(points, dist, target, p, segment, f); }
      result := result + [p];
    }
    if n > 0 {
      EndsAreOnArc(points, dist);
      TargetOrder(total, 0, n);
      ArcPointUnique(points, dist, 0.0, result[0], points[0]);
      ArcPointUnique(points, dist, total, result[n - 1], points[|points| - 1]);
    }
  }
}
