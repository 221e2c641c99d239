/**
 The arithmetic of the separating axis theorem for two rectangles.

 One rectangle has half sides a and b along the coordinate axes; the other has half sides p and q along the unit
 vectors (c, s) and (-s, c) and its centre at (dx, dy). The centre has the coordinates e = dx c + dy s and
 f = dy c - dx s along the second rectangle's own sides.
 */
module Shadows {
  import opened Plane

  ghost predicate Within(d: real, m: real) { -m <= d <= m }

  ghost predicate Sides(a: real, b: real, p: real, q: real, c: real, s: real) {
    a >= 0.0 && b >= 0.0 && p >= 0.0 && q >= 0.0 && c * c + s * s == 1.0
  }

  ghost predicate Placed(c: real, s: real, dx: real, dy: real, e: real, f: real) {
    e == dx * c + dy * s && f == dy * c - dx * s
  }

  /** None of the four edge normals separates the two shadows on it; k and l are the absolute values of c and s. */
  ghost predicate NoGap(a: real, b: real, p: real, q: real, k: real, l: real, dx: real, dy: real, e: real, f: real) {
    && Within(dx, a + p * k + q * l) && Within(dy, b + p * l + q * k)
    && Within(e, p + a * k + b * l) && Within(f, q + a * l + b * k)
  }

  /** (x, y) lies in both rectangles. */
  ghost predicate Common(a: real, b: real, p: real, q: real, c: real, s: real, e: real, f: real, x: real, y: real) {
    Within(x, a) && Within(y, b) && Within(x * c + y * s - e, p) && Within(y * c - x * s - f, q)
  }

  lemma CommonInBoxes(a: real, b: real, p: real, q: real, c: real, s: real, e: real, f: real, x: real, y: real)
    requires Common(a, b, p, q, c, s, e, f, x, y)
    ensures InBox(Vec(x, y), a, b) && InBox(Vec(x * c + y * s - e, y * c - x * s - f), p, q)
  {}

  /** The upper bounds that eliminating y leaves on x. */
  ghost predicate Below(a: real, b: real, p: real, q: real, c: real, s: real, dx: real, e: real, f: real, x: real) {
    x <= a && c * x <= p + e + b * s && s * x <= b * c + q - f && x <= dx + p * c + q * s
  }

  /** The lower bounds that eliminating y leaves on x. */
  ghost predicate Above(a: real, b: real, p: real, q: real, c: real, s: real, dx: real, e: real, f: real, x: real) {
    x >= -a && c * x >= e - p - b * s && s * x >= -(b * c + q + f) && x >= dx - p * c - q * s
  }

  ghost predicate Quadrant(a: real, b: real, p: real, q: real, c: real, s: real, dx: real, dy: real, e: real, f: real) {
    && Sides(a, b, p, q, c, s) && c > 0.0 && s > 0.0
    && Placed(c, s, dx, dy, e, f) && NoGap(a, b, p, q, c, s, dx, dy, e, f)
  }

  lemma LeByFactor(k: real, x: real, y: real)
    requires k > 0.0 && k * x <= k * y
    ensures x <= y
  {}

  /** The displacement in the first frame, rebuilt from the rotated coordinates. */
  lemma Rebuild(dx: real, dy: real, c: real, s: real, e: real, f: real)
    requires c * c + s * s == 1.0 && e == dx * c + dy * s && f == dy * c - dx * s
    ensures s * e + c * f == dy && c * e - s * f == dx
  {}

  /** A side split by the Pythagorean identity. */
  lemma Split(k: real, c: real, s: real)
    requires c * c + s * s == 1.0
    ensures k * (c * c) + k * (s * s) == k
  {}

  lemma SquareTerm(k: real, c: real, r: real)
    requires k >= 0.0 && r == k * (c * c)
    ensures r >= 0.0
  {}

  // Each bound below is a sum of non-negative terms: a square times a side and a slack of the second shadow test,
  // dy + b + p s + q c >= 0 or b + p s + q c - dy >= 0.

  lemma FourthLowC(b: real, p: real, q: real, c: real, s: real, dx: real, dy: real, slack: real)
    requires c * c + s * s == 1.0 && p >= 0.0 && s > 0.0 && slack == dy + b + p * s + q * c && slack >= 0.0
    ensures c * (dx - p * c - q * s) <= p + (dx * c + dy * s) + b * s
  {
    ProductNonNeg(s, slack);
    SquareTerm(p, c, p * (c * c));
    Split(p, c, s);
    assert p * (c * c) + p * (s * s) + (dx * c + dy * s) + b * s - c * (dx - p * c - q * s)
        == 2.0 * (p * (c * c)) + s * (dy + b + p * s + q * c);
  }

  lemma FourthLowS(b: real, p: real, q: real, c: real, s: real, dx: real, dy: real, slack: real)
    requires c * c + s * s == 1.0 && q >= 0.0 && c > 0.0 && slack == b + p * s + q * c - dy && slack >= 0.0
    ensures s * (dx - p * c - q * s) <= b * c + q - (dy * c - dx * s)
  {
    ProductNonNeg(c, slack);
    SquareTerm(q, s, q * (s * s));
    Split(q, c, s);
    assert b * c + q * (c * c) + q * (s * s) - (dy * c - dx * s) - s * (dx - p * c - q * s)
        == 2.0 * (q * (s * s)) + c * (b + p * s + q * c - dy);
  }

  lemma SecondLowS(b: real, p: real, q: real, c: real, s: real, dy: real, e: real, f: real, x: real)
    requires c * c + s * s == 1.0 && c > 0.0 && s * e + c * f == dy && c * x == e - p - b * s
    requires dy <= b + p * s + q * c
    ensures s * x <= b * c + q - f
  {
    Split(b, c, s);
    assert c * (b * c + q - f) - s * (c * x) == b * (c * c) + b * (s * s) + q * c + p * s - (s * e + c * f);
    assert c * (s * x) == s * (c * x);
    LeByFactor(c, s * x, b * c + q - f);
  }

  lemma SecondLowX(b: real, p: real, q: real, c: real, s: real, dx: real, dy: real, slack: real, x: real)
    requires c * c + s * s == 1.0 && c > 0.0 && s > 0.0 && p >= 0.0 && c * x == (dx * c + dy * s) - p - b * s
    requires slack == b + p * s + q * c - dy && slack >= 0.0
    ensures x <= dx + p * c + q * s
  {
    ProductNonNeg(s, slack);
    SquareTerm(p, c, p * (c * c));
    Split(p, c, s);
    assert c * (dx + p * c + q * s) - ((dx * c + dy * s) - (p * (c * c) + p * (s * s)) - b * s)
        == 2.0 * (p * (c * c)) + s * (b + p * s + q * c - dy);
    LeByFactor(c, x, dx + p * c + q * s);
  }

  lemma ThirdLowC(b: real, p: real, q: real, c: real, s: real, dy: real, e: real, f: real, x: real)
    requires c * c + s * s == 1.0 && s > 0.0 && s * e + c * f == dy && s * x == -(b * c + q + f)
    requires -(b + p * s + q * c) <= dy
    ensures c * x <= p + e + b * s
  {
    Split(b, c, s);
    assert s * (p + e + b * s) - c * (s * x) == b * (c * c) + b * (s * s) + p * s + q * c + (s * e + c * f);
    assert s * (c * x) == c * (s * x);
    LeByFactor(s, c * x, p + e + b * s);
  }

  lemma ThirdLowX(b: real, p: real, q: real, c: real, s: real, dx: real, dy: real, slack: real, x: real)
    requires c * c + s * s == 1.0 && c > 0.0 && s > 0.0 && q >= 0.0 && s * x == -(b * c + q + (dy * c - dx * s))
    requires slack == dy + b + p * s + q * c && slack >= 0.0
    ensures x <= dx + p * c + q * s
  {
    ProductNonNeg(c, slack);
    SquareTerm(q, s, q * (s * s));
    Split(q, c, s);
    assert s * (dx + p * c + q * s) + (b * c + q * (c * c) + q * (s * s) + (dy * c - dx * s))
        == 2.0 * (q * (s * s)) + c * (dy + b + p * s + q * c);
    LeByFactor(s, x, dx + p * c + q * s);
  }

  lemma FirstLow(a: real, b: real, p: real, q: real, c: real, s: real, dx: real, dy: real, e: real, f: real)
    requires Quadrant(a, b, p, q, c, s, dx, dy, e, f)
    ensures Below(a, b, p, q, c, s, dx, e, f, -a)
  {}

  lemma SecondLow(a: real, b: real, p: real, q: real, c: real, s: real, dx: real, dy: real, e: real, f: real, x: real)
    requires Quadrant(a, b, p, q, c, s, dx, dy, e, f) && c * x == e - p - b * s
    ensures Below(a, b, p, q, c, s, dx, e, f, x)
  {
    hide Quadrant, Below;
    SecondLowNear(a, b, p, q, c, s, dx, dy, e, f, x);
    SecondLowAside(a, b, p, q, c, s, dx, dy, e, f, x);
    SecondLowAcross(a, b, p, q, c, s, dx, dy, e, f, x);
    IsBelow(a, b, p, q, c, s, dx, e, f, x);
  }

  lemma SecondLowNear(a: real, b: real, p: real, q: real, c: real, s: real, dx: real, dy: real, e: real, f: real,
                      x: real)
    requires Quadrant(a, b, p, q, c, s, dx, dy, e, f) && c * x == e - p - b * s
    ensures x <= a && c * x <= p + e + b * s
  {
    hide Placed;
    ProductNonNeg(b, s);
    LeByFactor(c, x, a);
  }

  lemma SecondLowAside(a: real, b: real, p: real, q: real, c: real, s: real, dx: real, dy: real, e: real, f: real,
                       x: real)
    requires Quadrant(a, b, p, q, c, s, dx, dy, e, f) && c * x == e - p - b * s
    ensures s * x <= b * c + q - f
  {
    Rebuild(dx, dy, c, s, e, f);
    SecondLowS(b, p, q, c, s, dy, e, f, x);
  }

  lemma SecondLowAcross(a: real, b: real, p: real, q: real, c: real, s: real, dx: real, dy: real, e: real, f: real,
                        x: real)
    requires Quadrant(a, b, p, q, c, s, dx, dy, e, f) && c * x == e - p - b * s
    ensures x <= dx + p * c + q * s
  {
    SecondLowX(b, p, q, c, s, dx, dy, b + p * s + q * c - dy, x);
  }

  lemma IsBelow(a: real, b: real, p: real, q: real, c: real, s: real, dx: real, e: real, f: real, x: real)
    requires x <= a && c * x <= p + e + b * s && s * x <= b * c + q - f && x <= dx + p * c + q * s
    ensures Below(a, b, p, q, c, s, dx, e, f, x)
  {}

  lemma ThirdLow(a: real, b: real, p: real, q: real, c: real, s: real, dx: real, dy: real, e: real, f: real, x: real)
    requires Quadrant(a, b, p, q, c, s, dx, dy, e, f) && s * x == -(b * c + q + f)
    ensures Below(a, b, p, q, c, s, dx, e, f, x)
  {
    ProductNonNeg(b, c);
    LeByFactor(s, x, a);
    Rebuild(dx, dy, c, s, e, f);
    ThirdLowC(b, p, q, c, s, dy, e, f, x);
    ThirdLowX(b, p, q, c, s, dx, dy, dy + b + p * s + q * c, x);
  }

  lemma FourthLow(a: real, b: real, p: real, q: real, c: real, s: real, dx: real, dy: real, e: real, f: real)
    requires Quadrant(a, b, p, q, c, s, dx, dy, e, f)
    ensures Below(a, b, p, q, c, s, dx, e, f, dx - p * c - q * s)
  {
    ProductNonNeg(p, c);
    ProductNonNeg(q, s);
    FourthLowC(b, p, q, c, s, dx, dy, dy + b + p * s + q * c);
    FourthLowS(b, p, q, c, s, dx, dy, b + p * s + q * c - dy);
  }

  lemma Quotient(v: real, k: real) returns (x: real)
    requires k > 0.0
    ensures k * x == v
  {
    x := v / k;
  }

  lemma ScaledLe(k: real, x: real, y: real)
    requires k > 0.0 && x <= y
    ensures k * x <= k * y
  {}

  /** Some x meets all lower and all upper bounds. */
  lemma PickX(a: real, b: real, p: real, q: real, c: real, s: real, dx: real, dy: real, e: real, f: real)
      returns (x: real)
    requires Quadrant(a, b, p, q, c, s, dx, dy, e, f)
    ensures Above(a, b, p, q, c, s, dx, e, f, x) && Below(a, b, p, q, c, s, dx, e, f, x)
  {
    var x2 := Quotient(e - p - b * s, c);
    var x3 := Quotient(-(b * c + q + f), s);
    SecondLow(a, b, p, q, c, s, dx, dy, e, f, x2);
    ThirdLow(a, b, p, q, c, s, dx, dy, e, f, x3);
    FirstLow(a, b, p, q, c, s, dx, dy, e, f);
    FourthLow(a, b, p, q, c, s, dx, dy, e, f);
    x := Largest(a, b, p, q, c, s, dx, e, f, x2, x3, dx - p * c - q * s);
  }

  lemma Largest(a: real, b: real, p: real, q: real, c: real, s: real, dx: real, e: real, f: real,
                x2: real, x3: real, x4: real) returns (x: real)
    requires c > 0.0 && s > 0.0 && c * x2 == e - p - b * s && s * x3 == -(b * c + q + f) && x4 == dx - p * c - q * s
    requires Below(a, b, p, q, c, s, dx, e, f, -a) && Below(a, b, p, q, c, s, dx, e, f, x2)
    requires Below(a, b, p, q, c, s, dx, e, f, x3) && Below(a, b, p, q, c, s, dx, e, f, x4)
    ensures Above(a, b, p, q, c, s, dx, e, f, x) && Below(a, b, p, q, c, s, dx, e, f, x)
  {
    hide Below, Above;
    x := LargestOf(-a, x2, x3, x4);
    AboveAll(a, b, p, q, c, s, dx, e, f, x2, x3, x4, x);
  }

  lemma AboveAll(a: real, b: real, p: real, q: real, c: real, s: real, dx: real, e: real, f: real,
                 x2: real, x3: real, x4: real, x: real)
    requires c > 0.0 && s > 0.0 && c * x2 == e - p - b * s && s * x3 == -(b * c + q + f) && x4 == dx - p * c - q * s
    requires x >= -a && x >= x2 && x >= x3 && x >= x4
    ensures Above(a, b, p, q, c, s, dx, e, f, x)
  {
    ScaledLe(c, x2, x);
    ScaledLe(s, x3, x);
  }

  lemma LargestOf(x1: real, x2: real, x3: real, x4: real) returns (x: real)
    ensures x >= x1 && x >= x2 && x >= x3 && x >= x4 && (x == x1 || x == x2 || x == x3 || x == x4)
  {
    x := Max(Max(x1, x2), Max(x3, x4));
  }

  /** Three strips of y that meet two by two have a common height. */
  lemma Strip(b: real, p: real, q: real, c: real, s: real, m: real, n: real) returns (y: real)
    requires b >= 0.0 && p >= 0.0 && q >= 0.0 && c > 0.0 && s > 0.0
    requires Within(m, p + b * s) && Within(n, q + b * c) && Within(c * m - s * n, p * c + q * s)
    ensures Within(y, b) && Within(s * y - m, p) && Within(c * y - n, q)
  {
    var y2 := Quotient(m - p, s);
    var y3 := Quotient(n - q, c);
    LeByFactor(s, y2, b);
    LeByFactor(c, y3, b);
    StripPair(p, q, c, s, m, n, y2);
    StripPair(q, p, s, c, n, m, y3);
    y := Highest(b, p, q, c, s, m, n, y2, y3);
  }

  lemma Highest(b: real, p: real, q: real, c: real, s: real, m: real, n: real, y2: real, y3: real) returns (y: real)
    requires b >= 0.0 && p >= 0.0 && q >= 0.0 && c > 0.0 && s > 0.0
    requires s * y2 == m - p && c * y3 == n - q && y2 <= b && y3 <= b
    requires -(b * s) <= m + p && s * y3 <= m + p && -(b * c) <= n + q && c * y2 <= n + q
    ensures Within(y, b) && Within(s * y - m, p) && Within(c * y - n, q)
  {
    y := -b;
    if y2 > y { y := y2; }
    if y3 > y { y := y3; }
    ScaledLe(s, y2, y);
    ScaledLe(c, y3, y);
  }

  lemma StripPair(p: real, q: real, c: real, s: real, m: real, n: real, y: real)
    requires c > 0.0 && s > 0.0 && s * y == m - p && c * m - s * n <= p * c + q * s
    ensures c * y <= n + q
  {}

  lemma Remainder(dx: real, dy: real, c: real, s: real, e: real, f: real, x: real, m: real, n: real)
    requires c * c + s * s == 1.0 && e == dx * c + dy * s && f == dy * c - dx * s && m == e - x * c && n == f + x * s
    ensures c * m - s * n == dx - x
  {}

  /** Given a suitable x, some y completes it to a common point. */
  lemma PickY(a: real, b: real, p: real, q: real, c: real, s: real, dx: real, dy: real, e: real, f: real, x: real)
      returns (y: real)
    requires Quadrant(a, b, p, q, c, s, dx, dy, e, f)
    requires Above(a, b, p, q, c, s, dx, e, f, x) && Below(a, b, p, q, c, s, dx, e, f, x)
    ensures Common(a, b, p, q, c, s, e, f, x, y)
  {
    var m, n := e - x * c, f + x * s;
    Remainder(dx, dy, c, s, e, f, x, m, n);
    y := Strip(b, p, q, c, s, m, n);
  }

  /** Rectangles with parallel sides: the coordinates are chosen one at a time. */
  lemma PickAligned(h: real, k: real, d: real) returns (x: real)
    requires h >= 0.0 && k >= 0.0 && Within(d, h + k)
    ensures Within(x, h) && Within(x - d, k)
  {
    x := Max(-h, d - k);
  }

  lemma UnitCoordinate(c: real)
    requires c >= 0.0 && c * c == 1.0
    ensures c == 1.0
  {
    ScaledUnit(c, c * c);
  }

  lemma ScaledUnit(c: real, d: real)
    requires c >= 0.0 && d == c * c && d == 1.0
    ensures c == 1.0
  {
    if c < 1.0 { ProductLe(c, 1.0, c); }
    if c > 1.0 { ProductLe(1.0, c, c); }
  }

  lemma SameSides(a: real, b: real, p: real, q: real, dx: real, dy: real, e: real, f: real) returns (x: real, y: real)
    requires a >= 0.0 && b >= 0.0 && p >= 0.0 && q >= 0.0
    requires Placed(1.0, 0.0, dx, dy, e, f) && NoGap(a, b, p, q, 1.0, 0.0, dx, dy, e, f)
    ensures Common(a, b, p, q, 1.0, 0.0, e, f, x, y)
  {
    x := PickAligned(a, p, dx);
    y := PickAligned(b, q, dy);
  }

  lemma SwappedSides(a: real, b: real, p: real, q: real, dx: real, dy: real, e: real, f: real)
      returns (x: real, y: real)
    requires a >= 0.0 && b >= 0.0 && p >= 0.0 && q >= 0.0
    requires Placed(0.0, 1.0, dx, dy, e, f) && NoGap(a, b, p, q, 0.0, 1.0, dx, dy, e, f)
    ensures Common(a, b, p, q, 0.0, 1.0, e, f, x, y)
  {
    x := PickAligned(a, q, dx);
    y := PickAligned(b, p, dy);
  }

  /** No separating edge normal: a common point, for a relative angle of the first quadrant. */
  lemma CommonPointQuadrant(a: real, b: real, p: real, q: real, c: real, s: real, dx: real, dy: real, e: real, f: real)
      returns (x: real, y: real)
    requires Sides(a, b, p, q, c, s) && c >= 0.0 && s >= 0.0
    requires Placed(c, s, dx, dy, e, f) && NoGap(a, b, p, q, c, s, dx, dy, e, f)
    ensures Common(a, b, p, q, c, s, e, f, x, y)
  {
    if s == 0.0 {
      UnitCoordinate(c);
      x, y := SameSides(a, b, p, q, dx, dy, e, f);
    } else if c == 0.0 {
      UnitCoordinate(s);
      x, y := SwappedSides(a, b, p, q, dx, dy, e, f);
    } else {
      x := PickX(a, b, p, q, c, s, dx, dy, e, f);
      y := PickY(a, b, p, q, c, s, dx, dy, e, f, x);
    }
  }

  // A turn by a multiple of 90 degrees renames the sides of the second rectangle.

  lemma HalfTurnPlacement(a: real, b: real, p: real, q: real, c: real, s: real, dx: real, dy: real, e: real, f: real)
    requires Sides(a, b, p, q, c, s) && Placed(c, s, dx, dy, e, f)
    ensures Sides(a, b, p, q, -c, -s) && Placed(-c, -s, dx, dy, -e, -f)
  {}

  lemma QuarterTurnPlacement(a: real, b: real, p: real, q: real, c: real, s: real, dx: real, dy: real, e: real, f: real)
    requires Sides(a, b, p, q, c, s) && Placed(c, s, dx, dy, e, f)
    ensures Sides(a, b, q, p, -s, c) && Placed(-s, c, dx, dy, f, -e)
  {}

  lemma HalfTurnGap(a: real, b: real, p: real, q: real, c: real, s: real, dx: real, dy: real, e: real, f: real)
    requires NoGap(a, b, p, q, c, s, dx, dy, e, f)
    ensures NoGap(a, b, p, q, c, s, dx, dy, -e, -f)
  {}

  lemma QuarterTurnGap(a: real, b: real, p: real, q: real, c: real, s: real, dx: real, dy: real, e: real, f: real)
    requires NoGap(a, b, p, q, c, s, dx, dy, e, f)
    ensures NoGap(a, b, q, p, s, c, dx, dy, f, -e)
  {}

  lemma HalfTurnPoint(a: real, b: real, p: real, q: real, c: real, s: real, e: real, f: real, x: real, y: real)
    requires Common(a, b, p, q, -c, -s, -e, -f, x, y)
    ensures Common(a, b, p, q, c, s, e, f, x, y)
  {}

  lemma QuarterTurnPoint(a: real, b: real, p: real, q: real, c: real, s: real, e: real, f: real, x: real, y: real)
    requires Common(a, b, q, p, -s, c, f, -e, x, y)
    ensures Common(a, b, p, q, c, s, e, f, x, y)
  {}

  lemma HalfTurn(a: real, b: real, p: real, q: real, c: real, s: real, dx: real, dy: real, e: real, f: real)
      returns (x: real, y: real)
    requires Sides(a, b, p, q, c, s) && c <= 0.0 && s <= 0.0
    requires Placed(c, s, dx, dy, e, f) && NoGap(a, b, p, q, -c, -s, dx, dy, e, f)
    ensures Common(a, b, p, q, c, s, e, f, x, y)
  {
    hide *;
    HalfTurnPlacement(a, b, p, q, c, s, dx, dy, e, f);
    HalfTurnGap(a, b, p, q, -c, -s, dx, dy, e, f);
    x, y := CommonPointQuadrant(a, b, p, q, -c, -s, dx, dy, -e, -f);
    HalfTurnPoint(a, b, p, q, c, s, e, f, x, y);
  }

  lemma QuarterTurn(a: real, b: real, p: real, q: real, c: real, s: real, dx: real, dy: real, e: real, f: real)
      returns (x: real, y: real)
    requires Sides(a, b, p, q, c, s) && c >= 0.0 && s <= 0.0
    requires Placed(c, s, dx, dy, e, f) && NoGap(a, b, p, q, c, -s, dx, dy, e, f)
    ensures Common(a, b, p, q, c, s, e, f, x, y)
  {
    hide *;
    QuarterTurnPlacement(a, b, p, q, c, s, dx, dy, e, f);
    QuarterTurnGap(a, b, p, q, c, -s, dx, dy, e, f);
    x, y := CommonPointQuadrant(a, b, q, p, -s, c, dx, dy, f, -e);
    QuarterTurnPoint(a, b, p, q, c, s, e, f, x, y);
  }

  lemma ThreeQuarterTurn(a: real, b: real, p: real, q: real, c: real, s: real, dx: real, dy: real, e: real, f: real)
      returns (x: real, y: real)
    requires Sides(a, b, p, q, c, s) && c <= 0.0 && s >= 0.0
    requires Placed(c, s, dx, dy, e, f) && NoGap(a, b, p, q, -c, s, dx, dy, e, f)
    ensures Common(a, b, p, q, c, s, e, f, x, y)
  {
    hide *;
    HalfTurnPlacement(a, b, p, q, c, s, dx, dy, e, f);
    HalfTurnGap(a, b, p, q, -c, s, dx, dy, e, f);
    assert -(-s) == s;
    x, y := QuarterTurn(a, b, p, q, -c, -s, dx, dy, -e, -f);
    HalfTurnPoint(a, b, p, q, c, s, e, f, x, y);
  }

  /** No separating edge normal: a common point, whatever the angle. */
  lemma CommonPoint(a: real, b: real, p: real, q: real, c: real, s: real, dx: real, dy: real, e: real, f: real)
      returns (x: real, y: real)
    requires Sides(a, b, p, q, c, s)
    requires Placed(c, s, dx, dy, e, f) && NoGap(a, b, p, q, Abs(c), Abs(s), dx, dy, e, f)
    ensures Common(a, b, p, q, c, s, e, f, x, y)
  {
    var k, l := Abs(c), Abs(s);
    hide *;
    if c >= 0.0 && s >= 0.0 {
      x, y := CommonPointQuadrant(a, b, p, q, c, s, dx, dy, e, f);
    } else if c <= 0.0 && s <= 0.0 {
      x, y := HalfTurn(a, b, p, q, c, s, dx, dy, e, f);
    } else if s < 0.0 {
      x, y := QuarterTurn(a, b, p, q, c, s, dx, dy, e, f);
    } else {
      x, y := ThreeQuarterTurn(a, b, p, q, c, s, dx, dy, e, f);
    }
  }
}
