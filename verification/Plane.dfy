/** Vectors of the ground plane, points of a segment, and clipping to a centred box. */
module Plane {

  datatype Vec = Vec(x: real, y: real)

  function Add(a: Vec, b: Vec): Vec { Vec(a.x + b.x, a.y + b.y) }

  function Sub(a: Vec, b: Vec): Vec { Vec(a.x - b.x, a.y - b.y) }

  function Scale(k: real, a: Vec): Vec { Vec(k * a.x, k * a.y) }

  function Dot(a: Vec, b: Vec): real { a.x * b.x + a.y * b.y }

  /** The z component of the product of two plane vectors. */
  function Wedge(a: Vec, b: Vec): real { a.x * b.y - a.y * b.x }

  function NormSq(a: Vec): real { Dot(a, a) }

  function DistSq(a: Vec, b: Vec): real { NormSq(Sub(a, b)) }

  /** The point a fraction t of the way from a to b. */
  function Lerp(a: Vec, b: Vec, t: real): Vec { Vec(Along(a.x, b.x, t), Along(a.y, b.y, t)) }

  function Along(a: real, b: real, t: real): real { a + t * (b - a) }

  function Abs(r: real): (a: real)
    ensures a >= 0.0 && (a == r || a == -r) && r <= a && -r <= a
  {
    if r < 0.0 then -r else r
  }

  function Min(a: real, b: real): real { if a <= b then a else b }

  function Max(a: real, b: real): real { if a >= b then a else b }

  lemma SquareNonNeg(a: real)
    ensures a * a >= 0.0
  {}

  lemma ProductNonNeg(a: real, b: real)
    requires a >= 0.0 && b >= 0.0
    ensures a * b >= 0.0
  {}

  lemma ProductLe(a: real, b: real, k: real)
    requires a <= b && k >= 0.0
    ensures a * k <= b * k
  {}

  lemma SquareLe(a: real, b: real)
    requires -b <= a <= b
    ensures a * a <= b * b
  {}

  lemma RootLe(a: real, b: real)
    requires b >= 0.0 && a * a <= b * b
    ensures -b <= a <= b
  {
    if a > b { ProductPos(a - b, a + b); }
    if a < -b { ProductPos(-b - a, b - a); }
  }

  lemma ProductPos(a: real, b: real)
    requires a > 0.0 && b > 0.0
    ensures a * b > 0.0
  {}

  lemma ProductSign(a: real, b: real, c: real)
    requires a > 0.0 && b > 0.0 && c == a * b
    ensures c > 0.0
  {}

  lemma NormSqNonNeg(a: Vec)
    ensures NormSq(a) >= 0.0
  {}

  /** A square is passed by value: the solver drops a bare comparison of a square with zero. */
  lemma SquareSign(r: real, c: real)
    requires c == r * r
    ensures c >= 0.0 && (r != 0.0 ==> c > 0.0)
  {
    EqualFactors(r, r, c);
  }

  lemma EqualFactors(a: real, b: real, c: real)
    requires a == b && c == a * b
    ensures c >= 0.0 && (a != 0.0 ==> c > 0.0)
  {
    if a > 0.0 {
      ProductSign(a, b, c);
    } else if a < 0.0 {
      NegatedFactors(a, b);
      ProductSign(-a, -b, c);
    }
  }

  lemma SquareOfProduct(a: real, b: real)
    ensures (a * b) * (a * b) == (a * a) * (b * b)
  {}

  lemma NegatedFactors(a: real, b: real)
    ensures (-a) * (-b) == a * b
  {}

  lemma NormSqSign(a: Vec, c: real)
    requires c == NormSq(a)
    ensures c >= 0.0 && (a != Vec(0.0, 0.0) ==> c > 0.0)
  {
    SquareSign(a.x, a.x * a.x);
    SquareSign(a.y, a.y * a.y);
  }

  lemma DistSqNonNeg(a: Vec, b: Vec)
    ensures DistSq(a, b) >= 0.0
  {}

  lemma DistSqSymmetric(a: Vec, b: Vec)
    ensures DistSq(a, b) == DistSq(b, a)
  {}

  lemma NormSqScale(k: real, a: Vec)
    ensures NormSq(Scale(k, a)) == k * k * NormSq(a)
  {}

  /** Shrinking a vector towards zero never makes it longer. */
  lemma NormSqShrinks(k: real, a: Vec)
    requires 0.0 <= k <= 1.0
    ensures NormSq(Scale(k, a)) <= NormSq(a)
  {
    NormSqScale(k, a);
    NormSqNonNeg(a);
    SquareLe(k, 1.0);
    ProductLe(k * k, 1.0, NormSq(a));
  }

  /** The squared projection on a unit vector is at most the squared length. */
  lemma ProjectionBound(w: Vec, n: Vec)
    requires NormSq(n) == 1.0
    ensures Dot(w, n) * Dot(w, n) <= NormSq(w)
  {
    calc {
      Dot(w, n) * Dot(w, n) + Wedge(w, n) * Wedge(w, n);
      (w.x * n.x) * (w.x * n.x) + (w.y * n.y) * (w.y * n.y) + (w.x * n.y) * (w.x * n.y) + (w.y * n.x) * (w.y * n.x);
      (w.x * w.x) * (n.x * n.x) + (w.y * w.y) * (n.y * n.y) + (w.x * w.x) * (n.y * n.y) + (w.y * w.y) * (n.x * n.x);
      (w.x * w.x) * (n.x * n.x + n.y * n.y) + (w.y * w.y) * (n.x * n.x + n.y * n.y);
      NormSq(w);
    }
    SquareNonNeg(Wedge(w, n));
  }

  /** Between two inside positions the coordinate stays inside. */
  lemma StaysInside(from: real, to: real, h: real, mu: real, k: real)
    requires -h <= from <= h && -h <= Along(from, to, mu) <= h && 0.0 <= k <= mu
    ensures -h <= Along(from, to, k) <= h
  {
    var d := to - from;
    PartOfTheWay(d, k, mu, k * d, mu * d);
  }

  /** A smaller part of a way ends between its start and the end of the larger part. */
  lemma PartOfTheWay(d: real, k: real, mu: real, x: real, y: real)
    requires 0.0 <= k <= mu && x == k * d && y == mu * d
    ensures 0.0 <= x <= y || y <= x <= 0.0
  {
    if d >= 0.0 {
      ProductLe(0.0, k, d);
      ProductLe(k, mu, d);
    } else {
      NegatedFactor(k, d);
      NegatedFactor(mu, d);
      ProductLe(0.0, k, -d);
      ProductLe(k, mu, -d);
    }
  }

  lemma NegatedFactor(a: real, b: real)
    ensures a * (-b) == -(a * b)
  {}

  /** From inside [-h, h], the largest fraction of the way at which the coordinate is still inside. */
  lemma ExitFraction(from: real, to: real, h: real) returns (mu: real)
    requires -h <= from <= h
    ensures 0.0 <= mu <= 1.0 && -h <= Along(from, to, mu) <= h
    ensures Abs(to) > h ==> Abs(Along(from, to, mu)) == h
    ensures Abs(to) <= h ==> mu == 1.0
  {
    if Abs(to) <= h {
      mu := 1.0;
    } else {
      var edge := if to > h then h else -h;
      mu := Fraction(edge - from, to - from);
    }
  }

  /** The quotient of a part and a whole of the same sign lies in [0, 1]. */
  lemma Fraction(part: real, whole: real) returns (t: real)
    requires 0.0 <= part <= whole || whole <= part <= 0.0
    requires whole != 0.0
    ensures 0.0 <= t <= 1.0 && t * whole == part && t == part / whole
  {
    t := part / whole;
    assert t * whole == part;
    if whole > 0.0 {
      if t < 0.0 { ProductPos(-t, whole); }
      if t > 1.0 { ProductPos(t - 1.0, whole); }
    } else {
      if t < 0.0 { ProductPos(-t, -whole); }
      if t > 1.0 { ProductPos(t - 1.0, -whole); }
    }
  }

  ghost predicate InBox(p: Vec, hx: real, hy: real) {
    -hx <= p.x <= hx && -hy <= p.y <= hy
  }

  /** A straight move from inside a centred box to outside it meets the border. */
  lemma Clip(from: Vec, to: Vec, hx: real, hy: real) returns (k: real)
    requires InBox(from, hx, hy) && !InBox(to, hx, hy)
    ensures 0.0 <= k <= 1.0
    ensures InBox(Lerp(from, to, k), hx, hy)
    ensures Abs(Lerp(from, to, k).x) == hx || Abs(Lerp(from, to, k).y) == hy
  {
    var kx := ExitFraction(from.x, to.x, hx);
    var ky := ExitFraction(from.y, to.y, hy);
    k := Min(kx, ky);
    StaysInside(from.x, to.x, hx, kx, k);
    StaysInside(from.y, to.y, hy, ky, k);
  }
}
