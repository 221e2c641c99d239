/** Closed segments of the plane: intersection and distance (geometry.py), with every distance squared. */
module Segments {
  import opened Plane

  const OVERLAP_EPS := 0.000000001
  const DEGENERATE_SQ := 0.000000000000000001

  function Cross(o: Vec, a: Vec, b: Vec): real { Wedge(Sub(a, o), Sub(b, o)) }

  /** The fraction along a-b at which the segment comes closest to p. */
  function ClosestFraction(p: Vec, a: Vec, b: Vec): (t: real)
    ensures 0.0 <= t <= 1.0
  {
    var lengthSquared := DistSq(b, a);
    if lengthSquared <= DEGENERATE_SQ then 0.0
    else Max(0.0, Min(1.0, Dot(Sub(p, a), Sub(b, a)) / lengthSquared))
  }

  function PointToSegmentSq(p: Vec, a: Vec, b: Vec): real {
    DistSq(p, Lerp(a, b, ClosestFraction(p, a, b)))
  }

  predicate ProperCrossing(p1: Vec, p2: Vec, q1: Vec, q2: Vec) {
    Cross(q1, q2, p1) * Cross(q1, q2, p2) < 0.0 && Cross(p1, p2, q1) * Cross(p1, p2, q2) < 0.0
  }

  /** The smallest of the four squared distances from an end point to the other segment. */
  function EndDistanceSq(p1: Vec, p2: Vec, q1: Vec, q2: Vec): (m: real)
    ensures m <= PointToSegmentSq(p1, q1, q2) && m <= PointToSegmentSq(p2, q1, q2)
    ensures m <= PointToSegmentSq(q1, p1, p2) && m <= PointToSegmentSq(q2, p1, p2)
  {
    Min(Min(PointToSegmentSq(p1, q1, q2), PointToSegmentSq(p2, q1, q2)),
        Min(PointToSegmentSq(q1, p1, p2), PointToSegmentSq(q2, p1, p2)))
  }

  predicate SegmentsIntersect(p1: Vec, p2: Vec, q1: Vec, q2: Vec) {
    || ProperCrossing(p1, p2, q1, q2)
    || PointToSegmentSq(p1, q1, q2) < OVERLAP_EPS * OVERLAP_EPS
    || PointToSegmentSq(p2, q1, q2) < OVERLAP_EPS * OVERLAP_EPS
    || PointToSegmentSq(q1, p1, p2) < OVERLAP_EPS * OVERLAP_EPS
    || PointToSegmentSq(q2, p1, p2) < OVERLAP_EPS * OVERLAP_EPS
  }

  function SegmentDistanceSq(a1: Vec, a2: Vec, b1: Vec, b2: Vec): real {
    if SegmentsIntersect(a1, a2, b1, b2) then 0.0 else EndDistanceSq(a1, a2, b1, b2)
  }

  /** Long enough for the projection branch of the point distance. */
  ghost predicate Proper(a: Vec, b: Vec) { DistSq(b, a) > DEGENERATE_SQ }

  /** Two closed segments have a point in common. */
  ghost predicate Meet(p1: Vec, p2: Vec, q1: Vec, q2: Vec) {
    exists t, s :: MeetAt(p1, p2, q1, q2, t, s)
  }

  ghost predicate MeetAt(p1: Vec, p2: Vec, q1: Vec, q2: Vec, t: real, s: real) {
    0.0 <= t <= 1.0 && 0.0 <= s <= 1.0 && Lerp(p1, p2, t) == Lerp(q1, q2, s)
  }

  // ---- the point distance is a minimum over the segment -----------------------------------------

  /** The squared distance to a moving point of the segment is a parabola in its fraction. */
  lemma Parabola(p: Vec, a: Vec, b: Vec, r: real)
    ensures DistSq(p, Lerp(a, b, r)) == DistSq(p, a) - 2.0 * r * Dot(Sub(p, a), Sub(b, a)) + r * r * DistSq(b, a)
  {
    ParabolaAxis(p.x, a.x, b.x, r);
    ParabolaAxis(p.y, a.y, b.y, r);
  }

  lemma ParabolaAxis(p: real, a: real, b: real, r: real)
    ensures (p - Along(a, b, r)) * (p - Along(a, b, r))
         == (p - a) * (p - a) - 2.0 * r * ((p - a) * (b - a)) + r * r * ((b - a) * (b - a))
  {}

  /** A parabola is smallest at its vertex clamped to the interval. */
  lemma ClampedVertex(m: real, l: real, t: real, r: real)
    requires l > 0.0 && 0.0 <= r <= 1.0 && t == Max(0.0, Min(1.0, m / l))
    ensures t * t * l - 2.0 * t * m <= r * r * l - 2.0 * r * m
  {
    var v := m / l;
    assert v * l == m;
    var f := (r - t) * (r + t - 2.0 * v);
    assert f >= 0.0 by {
      if v < 0.0 { ProductNonNeg(r - t, r + t - 2.0 * v); }
      else if v > 1.0 { ProductNonNeg(t - r, 2.0 * v - r - t); }
      else { SquareNonNeg(r - t); }
    }
    ProductNonNeg(f, l);
    calc {
      f * l;
      (r * r - t * t) * l - 2.0 * (r - t) * (v * l);
      r * r * l - t * t * l - 2.0 * r * m + 2.0 * t * m;
    }
  }

  lemma PointDistanceIsMinimum(p: Vec, a: Vec, b: Vec, r: real)
    requires Proper(a, b) && 0.0 <= r <= 1.0
    ensures PointToSegmentSq(p, a, b) <= DistSq(p, Lerp(a, b, r))
  {
    var t := ClosestFraction(p, a, b);
    Parabola(p, a, b, r);
    Parabola(p, a, b, t);
    ClampedVertex(Dot(Sub(p, a), Sub(b, a)), DistSq(b, a), t, r);
  }

  // ---- sliding a pair of points to an end of one segment ----------------------------------------

  ghost predicate AtEnd(t: real, s: real) {
    0.0 <= t <= 1.0 && 0.0 <= s <= 1.0 && (t == 0.0 || t == 1.0 || s == 0.0 || s == 1.0)
  }

  /** From fractions inside the unit square towards a pair outside it, stop where one segment ends. */
  lemma SlideToEnd(t: real, s: real, t1: real, s1: real) returns (k: real)
    requires 0.0 <= t <= 1.0 && 0.0 <= s <= 1.0
    requires !(0.0 <= t1 <= 1.0 && 0.0 <= s1 <= 1.0)
    ensures 0.0 <= k <= 1.0 && AtEnd(Along(t, t1, k), Along(s, s1, k))
  {
    k := Clip(Vec(t - 0.5, s - 0.5), Vec(t1 - 0.5, s1 - 0.5), 0.5, 0.5);
    AlongShift(t, t1, k, 0.5);
    AlongShift(s, s1, k, 0.5);
  }

  lemma AlongShift(a: real, b: real, k: real, c: real)
    ensures Along(a - c, b - c, k) == Along(a, b, k) - c
  {}

  /** The offset between the two moving points is affine in the move. */
  lemma OffsetAffine(p1: Vec, p2: Vec, q1: Vec, q2: Vec, t: real, s: real, t1: real, s1: real, k: real)
    ensures Sub(Lerp(p1, p2, Along(t, t1, k)), Lerp(q1, q2, Along(s, s1, k)))
         == Lerp(Sub(Lerp(p1, p2, t), Lerp(q1, q2, s)), Sub(Lerp(p1, p2, t1), Lerp(q1, q2, s1)), k)
  {
    OffsetAffineAxis(p1.x, p2.x, q1.x, q2.x, t, s, t1, s1, k);
    OffsetAffineAxis(p1.y, p2.y, q1.y, q2.y, t, s, t1, s1, k);
  }

  lemma OffsetAffineAxis(p1: real, p2: real, q1: real, q2: real, t: real, s: real, t1: real, s1: real, k: real)
    ensures Along(p1, p2, Along(t, t1, k)) - Along(q1, q2, Along(s, s1, k))
         == Along(Along(p1, p2, t) - Along(q1, q2, s), Along(p1, p2, t1) - Along(q1, q2, s1), k)
  {
    AlongNested(p1, p2, t, t1, k);
    AlongNested(q1, q2, s, s1, k);
  }

  lemma AlongNested(a: real, b: real, t: real, t1: real, k: real)
    ensures Along(a, b, Along(t, t1, k)) == Along(Along(a, b, t), Along(a, b, t1), k)
  {}

  /** Where the carrying lines meet, when they are not parallel. */
  lemma LineMeeting(p1: Vec, p2: Vec, q1: Vec, q2: Vec) returns (t: real, s: real)
    requires Wedge(Sub(p2, p1), Sub(q2, q1)) != 0.0
    ensures Lerp(p1, p2, t) == Lerp(q1, q2, s)
    ensures t == Wedge(Sub(q1, p1), Sub(q2, q1)) / Wedge(Sub(p2, p1), Sub(q2, q1))
    ensures s == Wedge(Sub(q1, p1), Sub(p2, p1)) / Wedge(Sub(p2, p1), Sub(q2, q1))
  {
    var u, v, d := Sub(p2, p1), Sub(q2, q1), Sub(q1, p1);
    var k := Wedge(u, v);
    t, s := Wedge(d, v) / k, Wedge(d, u) / k;
    Cramer(u, v, d, t, s);
  }

  lemma Cramer(u: Vec, v: Vec, d: Vec, t: real, s: real)
    requires Wedge(u, v) != 0.0 && t == Wedge(d, v) / Wedge(u, v) && s == Wedge(d, u) / Wedge(u, v)
    ensures t * u.x - s * v.x == d.x && t * u.y - s * v.y == d.y
  {}

  lemma CancelFactor(k: real, a: real, b: real)
    requires k != 0.0 && k * a == k * b
    ensures a == b
  {}

  /** Parallel directions are multiples of each other. */
  lemma ParallelRatio(u: Vec, v: Vec) returns (r: real)
    requires Wedge(u, v) == 0.0 && NormSq(v) != 0.0
    ensures u.x == r * v.x && u.y == r * v.y
  {
    r := Dot(u, v) / NormSq(v);
    assert r * NormSq(v) == Dot(u, v);
    CancelFactor(NormSq(v), u.x, r * v.x) by {
      calc {
        NormSq(v) * (r * v.x);
        (r * NormSq(v)) * v.x;
        (u.x * v.x + u.y * v.y) * v.x;
        { assert u.x * v.y == u.y * v.x; }
        u.x * (v.x * v.x) + (u.x * v.y) * v.y;
        NormSq(v) * u.x;
      }
    }
    CancelFactor(NormSq(v), u.y, r * v.y) by {
      calc {
        NormSq(v) * (r * v.y);
        (r * NormSq(v)) * v.y;
        (u.x * v.x + u.y * v.y) * v.y;
        { assert u.x * v.y == u.y * v.x; }
        (u.y * v.x) * v.x + u.y * (v.y * v.y);
        NormSq(v) * u.y;
      }
    }
  }

  /** On parallel segments both points can slide along without changing their offset. */
  lemma ParallelSlide(p1: Vec, p2: Vec, q1: Vec, q2: Vec, t: real, s: real) returns (t1: real, s1: real)
    requires Wedge(Sub(p2, p1), Sub(q2, q1)) == 0.0 && Proper(q1, q2) && 0.0 <= t <= 1.0
    ensures t1 > 1.0
    ensures Sub(Lerp(p1, p2, t1), Lerp(q1, q2, s1)) == Sub(Lerp(p1, p2, t), Lerp(q1, q2, s))
  {
    var u, v := Sub(p2, p1), Sub(q2, q1);
    var r := ParallelRatio(u, v);
    t1, s1 := t + 2.0, s + 2.0 * r;
    SlideAxis(p1.x, p2.x, q1.x, q2.x, t, s, r);
    SlideAxis(p1.y, p2.y, q1.y, q2.y, t, s, r);
  }

  lemma SlideAxis(p1: real, p2: real, q1: real, q2: real, t: real, s: real, r: real)
    requires p2 - p1 == r * (q2 - q1)
    ensures Along(p1, p2, t + 2.0) - Along(q1, q2, s + 2.0 * r) == Along(p1, p2, t) - Along(q1, q2, s)
  {}

  /** Any two points can be brought, without moving apart, to an end of one of two segments that do not meet. */
  lemma CloserAtEnd(p1: Vec, p2: Vec, q1: Vec, q2: Vec, t: real, s: real) returns (t': real, s': real)
    requires Proper(p1, p2) && Proper(q1, q2) && !Meet(p1, p2, q1, q2)
    requires 0.0 <= t <= 1.0 && 0.0 <= s <= 1.0
    ensures AtEnd(t', s')
    ensures DistSq(Lerp(p1, p2, t'), Lerp(q1, q2, s')) <= DistSq(Lerp(p1, p2, t), Lerp(q1, q2, s))
  {
    var w := Sub(Lerp(p1, p2, t), Lerp(q1, q2, s));
    var t1, s1;
    if Wedge(Sub(p2, p1), Sub(q2, q1)) != 0.0 {
      t1, s1 := LineMeeting(p1, p2, q1, q2);
      assert !MeetAt(p1, p2, q1, q2, t1, s1);
    } else {
      t1, s1 := ParallelSlide(p1, p2, q1, q2, t, s);
    }
    var k := SlideToEnd(t, s, t1, s1);
    t', s' := Along(t, t1, k), Along(s, s1, k);
    OffsetAffine(p1, p2, q1, q2, t, s, t1, s1, k);
    var w1 := Sub(Lerp(p1, p2, t1), Lerp(q1, q2, s1));
    assert w1 == w || w1 == Vec(0.0, 0.0);
    if w1 == w {
      assert Lerp(w, w1, k) == w;
    } else {
      assert Lerp(w, w1, k) == Scale(1.0 - k, w);
      NormSqShrinks(1.0 - k, w);
    }
  }

  /** At an end, the end-point distances bound the squared distance from below. */
  lemma EndBound(p1: Vec, p2: Vec, q1: Vec, q2: Vec, t: real, s: real)
    requires Proper(p1, p2) && Proper(q1, q2) && AtEnd(t, s)
    ensures EndDistanceSq(p1, p2, q1, q2) <= DistSq(Lerp(p1, p2, t), Lerp(q1, q2, s))
  {
    DistSqSymmetric(Lerp(p1, p2, t), Lerp(q1, q2, s));
    if t == 0.0 { PointDistanceIsMinimum(p1, q1, q2, s); }
    else if t == 1.0 { PointDistanceIsMinimum(p2, q1, q2, s); }
    else if s == 0.0 { PointDistanceIsMinimum(q1, p1, p2, t); }
    else { PointDistanceIsMinimum(q2, p1, p2, t); }
  }

  // ---- the theorems -----------------------------------------------------------------------------

  /** The sign test only fires when a common point exists, strictly inside both segments. */
  lemma ProperCrossingMeets(p1: Vec, p2: Vec, q1: Vec, q2: Vec) returns (t: real, s: real)
    requires ProperCrossing(p1, p2, q1, q2)
    ensures MeetAt(p1, p2, q1, q2, t, s) && 0.0 < t < 1.0 && 0.0 < s < 1.0
  {
    var u, v, d := Sub(p2, p1), Sub(q2, q1), Sub(q1, p1);
    var k := Wedge(u, v);
    var d1, d2, d3, d4 := Cross(q1, q2, p1), Cross(q1, q2, p2), Cross(p1, p2, q1), Cross(p1, p2, q2);
    CrossTerms(p1, p2, q1, q2);
    OppositeSigns(d1, d2);
    OppositeSigns(d3, d4);
    t, s := LineMeeting(p1, p2, q1, q2);
    InsideQuotient(d1, k, t);
    InsideQuotient(-d3, k, s);
  }

  /** The four turn values in terms of the two directions and the offset of the starts. */
  lemma CrossTerms(p1: Vec, p2: Vec, q1: Vec, q2: Vec)
    ensures var u, v, d := Sub(p2, p1), Sub(q2, q1), Sub(q1, p1);
            && Cross(q1, q2, p1) == Wedge(d, v) && Cross(q1, q2, p2) == Wedge(d, v) - Wedge(u, v)
            && Cross(p1, p2, q1) == -Wedge(d, u) && Cross(p1, p2, q2) == Wedge(u, v) - Wedge(d, u)
  {}

  lemma OppositeSigns(a: real, b: real)
    requires a * b < 0.0
    ensures (a < 0.0 && b > 0.0) || (a > 0.0 && b < 0.0)
  {}

  lemma InsideQuotient(part: real, whole: real, t: real)
    requires 0.0 < part < whole || whole < part < 0.0
    requires t == part / whole
    ensures 0.0 < t < 1.0
  {
    var f := Fraction(part, whole);
    assert t * whole == part;
    assert t != 1.0 && t != 0.0;
  }

  /** Segments with a common point are reported as intersecting. */
  lemma MeetingIsReported(p1: Vec, p2: Vec, q1: Vec, q2: Vec, t: real, s: real)
    requires Proper(p1, p2) && Proper(q1, q2) && MeetAt(p1, p2, q1, q2, t, s)
    ensures SegmentsIntersect(p1, p2, q1, q2)
  {
    if AtEnd(t, s) {
      MeetingAtEnd(p1, p2, q1, q2, t, s);
    } else if Wedge(Sub(p2, p1), Sub(q2, q1)) != 0.0 {
      TransversalMeeting(p1, p2, q1, q2, t, s);
    } else {
      var t', s' := ParallelMeeting(p1, p2, q1, q2, t, s);
      MeetingAtEnd(p1, p2, q1, q2, t', s');
    }
  }

  lemma ParallelMeeting(p1: Vec, p2: Vec, q1: Vec, q2: Vec, t: real, s: real) returns (t': real, s': real)
    requires Proper(q1, q2) && MeetAt(p1, p2, q1, q2, t, s) && Wedge(Sub(p2, p1), Sub(q2, q1)) == 0.0
    ensures AtEnd(t', s') && MeetAt(p1, p2, q1, q2, t', s')
  {
    var t1, s1 := ParallelSlide(p1, p2, q1, q2, t, s);
    var k := SlideToEnd(t, s, t1, s1);
    t', s' := Along(t, t1, k), Along(s, s1, k);
    OffsetAffine(p1, p2, q1, q2, t, s, t1, s1, k);
    var z := Sub(Lerp(p1, p2, t), Lerp(q1, q2, s));
    assert z == Vec(0.0, 0.0) && Lerp(z, z, k) == z;
  }

  lemma MeetingAtEnd(p1: Vec, p2: Vec, q1: Vec, q2: Vec, t: real, s: real)
    requires Proper(p1, p2) && Proper(q1, q2) && AtEnd(t, s) && MeetAt(p1, p2, q1, q2, t, s)
    ensures SegmentsIntersect(p1, p2, q1, q2)
  {
    EndBound(p1, p2, q1, q2, t, s);
    NearEnd(p1, p2, q1, q2);
  }

  /** Apart from the sign test, the intersection test asks whether the end-point distance is below the tolerance. */
  lemma NearEnd(p1: Vec, p2: Vec, q1: Vec, q2: Vec)
    ensures SegmentsIntersect(p1, p2, q1, q2)
       <==> ProperCrossing(p1, p2, q1, q2) || EndDistanceSq(p1, p2, q1, q2) < OVERLAP_EPS * OVERLAP_EPS
  {}

  lemma TransversalMeeting(p1: Vec, p2: Vec, q1: Vec, q2: Vec, t: real, s: real)
    requires MeetAt(p1, p2, q1, q2, t, s) && Wedge(Sub(p2, p1), Sub(q2, q1)) != 0.0
    requires 0.0 < t < 1.0 && 0.0 < s < 1.0
    ensures ProperCrossing(p1, p2, q1, q2)
  {
    var u, v, d := Sub(p2, p1), Sub(q2, q1), Sub(q1, p1);
    var k := Wedge(u, v);
    assert d.x == t * u.x - s * v.x && d.y == t * u.y - s * v.y;
    var d1, d2, d3, d4 := Cross(q1, q2, p1), Cross(q1, q2, p2), Cross(p1, p2, q1), Cross(p1, p2, q2);
    WedgeOfCombination(u, v, d, t, s);
    CrossTerms(p1, p2, q1, q2);
    SignsAlong(t, k, d1, d2);
    SignsAlong(s, k, -d3, -d4);
  }

  lemma WedgeOfCombination(u: Vec, v: Vec, d: Vec, t: real, s: real)
    requires d.x == t * u.x - s * v.x && d.y == t * u.y - s * v.y
    ensures Wedge(d, v) == t * Wedge(u, v) && Wedge(d, u) == s * Wedge(u, v)
  {}

  lemma SignsAlong(t: real, k: real, a: real, b: real)
    requires 0.0 < t < 1.0 && k != 0.0 && a == t * k && b == a - k
    ensures a * b < 0.0
  {
    if k > 0.0 {
      ProductSign(t, k, a);
      ProductSign(1.0 - t, k, -b);
      ProductSign(a, -b, -(a * b));
    } else {
      ProductSign(t, -k, -a);
      ProductSign(1.0 - t, -k, b);
      ProductSign(-a, b, -(a * b));
    }
  }

  /** No pair of points of the two segments is closer than the reported distance. */
  lemma SegmentDistanceIsLowerBound(p1: Vec, p2: Vec, q1: Vec, q2: Vec, t: real, s: real)
    requires Proper(p1, p2) && Proper(q1, q2) && 0.0 <= t <= 1.0 && 0.0 <= s <= 1.0
    ensures SegmentDistanceSq(p1, p2, q1, q2) <= DistSq(Lerp(p1, p2, t), Lerp(q1, q2, s))
  {
    NormSqNonNeg(Sub(Lerp(p1, p2, t), Lerp(q1, q2, s)));
    if !SegmentsIntersect(p1, p2, q1, q2) {
      if Meet(p1, p2, q1, q2) {
        var t0, s0 :| MeetAt(p1, p2, q1, q2, t0, s0);
        MeetingIsReported(p1, p2, q1, q2, t0, s0);
      }
      var t', s' := CloserAtEnd(p1, p2, q1, q2, t, s);
      EndBound(p1, p2, q1, q2, t', s');
    }
  }

  /** Some pair of points attains the reported distance, or lies below the touch tolerance when it is zero. */
  lemma SegmentDistanceIsAttained(p1: Vec, p2: Vec, q1: Vec, q2: Vec) returns (t: real, s: real)
    ensures 0.0 <= t <= 1.0 && 0.0 <= s <= 1.0
    ensures var d := DistSq(Lerp(p1, p2, t), Lerp(q1, q2, s));
            if SegmentsIntersect(p1, p2, q1, q2) then d < OVERLAP_EPS * OVERLAP_EPS
            else d == SegmentDistanceSq(p1, p2, q1, q2) && d >= OVERLAP_EPS * OVERLAP_EPS
  {
    NearEnd(p1, p2, q1, q2);
    if ProperCrossing(p1, p2, q1, q2) {
      t, s := ProperCrossingMeets(p1, p2, q1, q2);
      assert Sub(Lerp(p1, p2, t), Lerp(q1, q2, s)) == Vec(0.0, 0.0);
    } else {
      t, s := EndDistanceIsAttained(p1, p2, q1, q2);
    }
  }

  lemma EndDistanceIsAttained(p1: Vec, p2: Vec, q1: Vec, q2: Vec) returns (t: real, s: real)
    ensures 0.0 <= t <= 1.0 && 0.0 <= s <= 1.0
    ensures DistSq(Lerp(p1, p2, t), Lerp(q1, q2, s)) == EndDistanceSq(p1, p2, q1, q2)
  {
    var m := EndDistanceSq(p1, p2, q1, q2);
    if m == PointToSegmentSq(p1, q1, q2) {
      t, s := 0.0, ClosestFraction(p1, q1, q2);
      assert Lerp(p1, p2, t) == p1;
    } else if m == PointToSegmentSq(p2, q1, q2) {
      t, s := 1.0, ClosestFraction(p2, q1, q2);
      assert Lerp(p1, p2, t) == p2;
    } else if m == PointToSegmentSq(q1, p1, p2) {
      t, s := ClosestFraction(q1, p1, p2), 0.0;
      assert Lerp(q1, q2, s) == q1;
      DistSqSymmetric(Lerp(p1, p2, t), q1);
    } else {
      t, s := ClosestFraction(q2, p1, p2), 1.0;
      assert Lerp(q1, q2, s) == q2;
      DistSqSymmetric(Lerp(p1, p2, t), q2);
    }
  }
}
