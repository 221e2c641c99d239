/**
 Rotated box footprints: overlap, bounds, axes and gaps (geometry.py). Yaw is a unit vector, distances are squared.
 */
module Boxes {
  import opened Plane
  import opened Segments
  import Shadows

  datatype Box = Box(l: real, w: real, h: real, x: real, y: real, z: real, yaw: Vec)

  datatype Bounds = Bounds(xMin: real, xMax: real, yMin: real, yMax: real)

  function Centre(o: Box): Vec { Vec(o.x, o.y) }

  /** The unit axes of the footprint: u along l, v along w. */
  function AxisU(o: Box): Vec { o.yaw }

  function AxisV(o: Box): Vec { Vec(-o.yaw.y, o.yaw.x) }

  /** The corners in order around the box. */
  function LocalCorner(o: Box, i: nat): Vec
    requires i < 4
  {
    Vec(if i < 2 then 0.5 * o.l else -0.5 * o.l, if i == 0 || i == 3 then 0.5 * o.w else -0.5 * o.w)
  }

  function Corner(o: Box, i: nat): Vec
    requires i < 4
  {
    Global(o, LocalCorner(o, i))
  }

  function Next(i: nat): nat { if i == 3 then 0 else i + 1 }

  function ProjectionRadius(o: Box, n: Vec): real {
    0.5 * o.l * Abs(Dot(AxisU(o), n)) + 0.5 * o.w * Abs(Dot(AxisV(o), n))
  }

  /** The signed distance between the shadows of two footprints on the axis n. */
  function ShadowGap(a: Box, b: Box, n: Vec): real {
    Abs(Dot(Sub(Centre(b), Centre(a)), n)) - ProjectionRadius(a, n) - ProjectionRadius(b, n)
  }

  predicate Overlaps(a: Box, b: Box) {
    && ShadowGap(a, b, AxisU(a)) <= -OVERLAP_EPS
    && ShadowGap(a, b, AxisV(a)) <= -OVERLAP_EPS
    && ShadowGap(a, b, AxisU(b)) <= -OVERLAP_EPS
    && ShadowGap(a, b, AxisV(b)) <= -OVERLAP_EPS
  }

  predicate HasOverlap(boxes: seq<Box>) {
    exists i, j :: 0 <= i < j < |boxes| && Overlaps(boxes[i], boxes[j])
  }

  function RotatedHalfExtents(l: real, w: real, yaw: Vec): Vec {
    Vec(0.5 * (l * Abs(yaw.x) + w * Abs(yaw.y)), 0.5 * (l * Abs(yaw.y) + w * Abs(yaw.x)))
  }

  predicate BoxFits(bounds: Bounds, o: Box) {
    var half := RotatedHalfExtents(o.l, o.w, o.yaw);
    bounds.xMin <= o.x - half.x && o.x + half.x <= bounds.xMax && bounds.yMin <= o.y - half.y
      && o.y + half.y <= bounds.yMax
  }

  predicate FitsInBounds(bounds: Bounds, boxes: seq<Box>) {
    forall i :: 0 <= i < |boxes| ==> BoxFits(bounds, boxes[i])
  }

  /** The end points of the long centre line of a wall. */
  function WallAxis(o: Box): (Vec, Vec) {
    var arm := if o.l >= o.w then Scale(0.5 * o.l, AxisU(o)) else Scale(0.5 * o.w, AxisV(o));
    (Sub(Centre(o), arm), Add(Centre(o), arm))
  }

  function EdgeDistanceSq(a: Box, b: Box, i: nat, j: nat): real
    requires i < 4 && j < 4
  {
    SegmentDistanceSq(Corner(a, i), Corner(a, Next(i)), Corner(b, j), Corner(b, Next(j)))
  }

  function MinOf(s: seq<real>): (m: real)
    requires s != []
    ensures m in s && forall k :: 0 <= k < |s| ==> m <= s[k]
  {
    if |s| == 1 then s[0] else Min(s[0], MinOf(s[1..]))
  }

  function FootprintGapSq(a: Box, b: Box): real {
    if Overlaps(a, b) then 0.0 else MinOf(seq(16, k requires 0 <= k < 16 => EdgeDistanceSq(a, b, k / 4, k % 4)))
  }

  // ---- footprints as point sets -----------------------------------------------------------------

  /** The coordinates of a point along the box's own axes. */
  function Local(o: Box, p: Vec): Vec {
    Vec(Dot(Sub(p, Centre(o)), AxisU(o)), Dot(Sub(p, Centre(o)), AxisV(o)))
  }

  function Global(o: Box, a: Vec): Vec {
    Vec(o.x + a.x * o.yaw.x - a.y * o.yaw.y, o.y + a.x * o.yaw.y + a.y * o.yaw.x)
  }

  ghost predicate InFootprint(o: Box, p: Vec) { InBox(Local(o, p), 0.5 * o.l, 0.5 * o.w) }

  ghost predicate IsUnit(v: Vec) { v.x * v.x + v.y * v.y == 1.0 }

  ghost predicate IsBox(o: Box) { IsUnit(o.yaw) && o.l >= 0.0 && o.w >= 0.0 }

  /** Sides long enough for the edges to be proper segments. */
  ghost predicate IsWall(o: Box) { IsUnit(o.yaw) && o.l > OVERLAP_EPS && o.w > OVERLAP_EPS }

  lemma LocalOfGlobal(o: Box, a: Vec)
    requires IsUnit(o.yaw)
    ensures Local(o, Global(o, a)) == a
  {}

  lemma GlobalOfLocal(o: Box, p: Vec)
    requires IsUnit(o.yaw)
    ensures Global(o, Local(o, p)) == p
  {}

  lemma TurnForth(c: real, s: real, x: real, y: real)
    requires c * c + s * s == 1.0
    ensures (x * c + y * s) * c - (y * c - x * s) * s == x
    ensures (x * c + y * s) * s + (y * c - x * s) * c == y
  {}

  lemma GlobalAffine(o: Box, a: Vec, b: Vec, k: real)
    ensures Global(o, Lerp(a, b, k)) == Lerp(Global(o, a), Global(o, b), k)
  {
    AffineAxis(o.x, o.yaw.x, -o.yaw.y, a, b, k);
    AffineAxis(o.y, o.yaw.y, o.yaw.x, a, b, k);
  }

  lemma LocalAffine(o: Box, p: Vec, q: Vec, k: real)
    ensures Local(o, Lerp(p, q, k)) == Lerp(Local(o, p), Local(o, q), k)
  {
    AffineAxis(-(o.x * o.yaw.x + o.y * o.yaw.y), o.yaw.x, o.yaw.y, p, q, k);
    AffineAxis(o.x * o.yaw.y - o.y * o.yaw.x, -o.yaw.y, o.yaw.x, p, q, k);
  }

  /** An affine form of the plane commutes with taking a point of a segment. */
  lemma AffineAxis(d: real, m: real, n: real, a: Vec, b: Vec, k: real)
    ensures d + Lerp(a, b, k).x * m + Lerp(a, b, k).y * n == Along(d + a.x * m + a.y * n, d + b.x * m + b.y * n, k)
  {}

  /** Turning keeps distances. */
  lemma GlobalDistSq(o: Box, a: Vec, b: Vec)
    requires IsUnit(o.yaw)
    ensures DistSq(Global(o, a), Global(o, b)) == DistSq(a, b)
  {}

  // ---- edges ------------------------------------------------------------------------------------

  lemma EdgeIsProper(o: Box, i: nat)
    requires IsWall(o) && i < 4
    ensures Proper(Corner(o, i), Corner(o, Next(i)))
  {
    GlobalDistSq(o, LocalCorner(o, Next(i)), LocalCorner(o, i));
    SquareAbove(o.l);
    SquareAbove(o.w);
  }

  lemma SquareAbove(r: real)
    requires r > OVERLAP_EPS
    ensures r * r > DEGENERATE_SQ
  {}

  lemma EdgeIsInside(o: Box, i: nat, t: real)
    requires IsBox(o) && i < 4 && 0.0 <= t <= 1.0
    ensures InFootprint(o, Lerp(Corner(o, i), Corner(o, Next(i)), t))
  {
    var a, b := LocalCorner(o, i), LocalCorner(o, Next(i));
    GlobalAffine(o, a, b, t);
    LocalOfGlobal(o, Lerp(a, b, t));
    BetweenBounds(a.x, b.x, 0.5 * o.l, t);
    BetweenBounds(a.y, b.y, 0.5 * o.w, t);
  }

  lemma BetweenBounds(a: real, b: real, h: real, t: real)
    requires -h <= a <= h && -h <= b <= h && 0.0 <= t <= 1.0
    ensures -h <= Along(a, b, t) <= h
  {}

  ghost predicate OnBorder(o: Box, p: Vec) {
    InFootprint(o, p) && (Abs(Local(o, p).x) == 0.5 * o.l || Abs(Local(o, p).y) == 0.5 * o.w)
  }

  /** Every border point lies on one of the four edges. */
  lemma BorderIsEdges(o: Box, p: Vec) returns (i: nat, t: real)
    requires IsWall(o) && OnBorder(o, p)
    ensures i < 4 && 0.0 <= t <= 1.0 && p == Lerp(Corner(o, i), Corner(o, Next(i)), t)
  {
    var a := Local(o, p);
    var hl, hw := 0.5 * o.l, 0.5 * o.w;
    if a.x == hl { i := 0; t := Fraction(a.y - hw, -o.w); }
    else if a.x == -hl { i := 2; t := Fraction(a.y + hw, o.w); }
    else if a.y == -hw { i := 1; t := Fraction(a.x - hl, -o.l); }
    else { i := 3; t := Fraction(a.x + hl, o.l); }
    assert a == Lerp(LocalCorner(o, i), LocalCorner(o, Next(i)), t);
    GlobalAffine(o, LocalCorner(o, i), LocalCorner(o, Next(i)), t);
    GlobalOfLocal(o, p);
  }

  /** A straight move that leaves a footprint meets its border. */
  lemma LeavesThroughBorder(o: Box, p: Vec, q: Vec) returns (k: real)
    requires InFootprint(o, p) && !InFootprint(o, q)
    ensures 0.0 <= k <= 1.0 && OnBorder(o, Lerp(p, q, k))
  {
    k := Clip(Local(o, p), Local(o, q), 0.5 * o.l, 0.5 * o.w);
    LocalAffine(o, p, q, k);
  }

  // ---- the separating axis theorem --------------------------------------------------------------

  /** On the axis n, footprint b lies beyond footprint a up to the tolerance. */
  ghost predicate Separates(a: Box, b: Box, n: Vec) {
    forall p, q :: InFootprint(a, p) && InFootprint(b, q) ==> Dot(Sub(q, p), n) > -OVERLAP_EPS
  }

  ghost predicate EdgeNormal(o: Box, n: Vec) {
    n == AxisU(o) || n == AxisV(o) || n == Scale(-1.0, AxisU(o)) || n == Scale(-1.0, AxisV(o))
  }

  /** The shadow of a point, from its coordinates along the box's own axes. */
  lemma ShadowOfPoint(o: Box, p: Vec, n: Vec)
    requires IsUnit(o.yaw)
    ensures Dot(Sub(p, Centre(o)), n) == Local(o, p).x * Dot(AxisU(o), n) + Local(o, p).y * Dot(AxisV(o), n)
  {
    var d := Sub(p, Centre(o));
    var a := Local(o, p);
    TurnForth(o.yaw.x, o.yaw.y, d.x, d.y);
    CombineDot(a, o.yaw, n);
    assert d == Vec(a.x * o.yaw.x - a.y * o.yaw.y, a.x * o.yaw.y + a.y * o.yaw.x);
  }

  /** The shadow of a footprint point as a combination of its coordinates. */
  lemma ShadowParts(o: Box, p: Vec, n: Vec) returns (x: real, y: real, u: real, v: real)
    requires IsBox(o) && InFootprint(o, p)
    ensures -0.5 * o.l <= x <= 0.5 * o.l && -0.5 * o.w <= y <= 0.5 * o.w
    ensures Dot(Sub(p, Centre(o)), n) == x * u + y * v
    ensures ProjectionRadius(o, n) == 0.5 * o.l * Abs(u) + 0.5 * o.w * Abs(v)
  {
    ShadowOfPoint(o, p, n);
    x, y, u, v := Local(o, p).x, Local(o, p).y, Dot(AxisU(o), n), Dot(AxisV(o), n);
  }

  /** The shadow of a footprint reaches at most the projection radius from the shadow of its centre. */
  lemma ShadowBound(o: Box, p: Vec, n: Vec)
    requires IsBox(o) && InFootprint(o, p)
    ensures Abs(Dot(Sub(p, Centre(o)), n)) <= ProjectionRadius(o, n)
  {
    hide *;
    var x, y, u, v := ShadowParts(o, p, n);
    SumBound(x, 0.5 * o.l, u, y, 0.5 * o.w, v);
  }

  lemma SumBound(x: real, hx: real, u: real, y: real, hy: real, v: real)
    requires -hx <= x <= hx && -hy <= y <= hy
    ensures Abs(x * u + y * v) <= hx * Abs(u) + hy * Abs(v)
  {}

  lemma CombineDot(a: Vec, yaw: Vec, n: Vec)
    ensures Dot(Vec(a.x * yaw.x - a.y * yaw.y, a.x * yaw.y + a.y * yaw.x), n)
         == a.x * Dot(yaw, n) + a.y * Dot(Vec(-yaw.y, yaw.x), n)
  {}

  lemma ProductBound(a: real, h: real, r: real)
    requires -h <= a <= h
    ensures Abs(a * r) <= h * Abs(r)
  {}

  lemma GapSeparates(a: Box, b: Box, n: Vec) returns (m: Vec)
    requires IsBox(a) && IsBox(b) && ShadowGap(a, b, n) > -OVERLAP_EPS
    ensures (m == n || m == Scale(-1.0, n)) && Separates(a, b, m)
  {
    var d := Sub(Centre(b), Centre(a));
    m := if Dot(d, n) >= 0.0 then n else Scale(-1.0, n);
    forall p, q | InFootprint(a, p) && InFootprint(b, q) ensures Dot(Sub(q, p), m) > -OVERLAP_EPS {
      ShadowBound(a, p, n);
      ShadowBound(b, q, n);
      DotOfParts(q, p, Centre(b), Centre(a), n);
      NegatedDot(Sub(q, p), n);
    }
  }

  lemma DotOfParts(q: Vec, p: Vec, cb: Vec, ca: Vec, n: Vec)
    ensures Dot(Sub(q, p), n) == Dot(Sub(q, cb), n) + Dot(Sub(cb, ca), n) - Dot(Sub(p, ca), n)
  {}

  lemma NegatedDot(d: Vec, n: Vec)
    ensures Dot(d, Scale(-1.0, n)) == -Dot(d, n)
  {}

  /** Soundness: footprints reported apart have shadows on some edge normal that share less than the tolerance. */
  lemma ApartHasSeparatingNormal(a: Box, b: Box) returns (n: Vec)
    requires IsBox(a) && IsBox(b) && !Overlaps(a, b)
    ensures (EdgeNormal(a, n) || EdgeNormal(b, n)) && Separates(a, b, n)
  {
    var axis := if ShadowGap(a, b, AxisU(a)) > -OVERLAP_EPS then AxisU(a)
                else if ShadowGap(a, b, AxisV(a)) > -OVERLAP_EPS then AxisV(a)
                else if ShadowGap(a, b, AxisU(b)) > -OVERLAP_EPS then AxisU(b) else AxisV(b);
    n := GapSeparates(a, b, axis);
  }

  /** The shadow tests in the frame of the first box. */
  lemma ShadowTests(a: Box, b: Box)
    requires IsBox(a) && IsBox(b)
    requires ShadowGap(a, b, AxisU(a)) <= 0.0 && ShadowGap(a, b, AxisV(a)) <= 0.0
    requires ShadowGap(a, b, AxisU(b)) <= 0.0 && ShadowGap(a, b, AxisV(b)) <= 0.0
    ensures var d := Sub(Centre(b), Centre(a));
            var c, s := Dot(AxisU(a), AxisU(b)), Dot(AxisV(a), AxisU(b));
            Shadows.NoGap(0.5 * a.l, 0.5 * a.w, 0.5 * b.l, 0.5 * b.w, Abs(c), Abs(s),
                          Dot(d, AxisU(a)), Dot(d, AxisV(a)), Dot(d, AxisU(b)), Dot(d, AxisV(b)))
  {
    OwnRadii(a);
    OwnRadii(b);
    CrossRadii(a, b);
  }

  /** Completeness: without a separating edge normal the footprints share a point. */
  lemma NoGapMeets(a: Box, b: Box) returns (p: Vec)
    requires IsBox(a) && IsBox(b)
    requires ShadowGap(a, b, AxisU(a)) <= 0.0 && ShadowGap(a, b, AxisV(a)) <= 0.0
    requires ShadowGap(a, b, AxisU(b)) <= 0.0 && ShadowGap(a, b, AxisV(b)) <= 0.0
    ensures InFootprint(a, p) && InFootprint(b, p)
  {
    ShadowTests(a, b);
    p := CommonLocalPoint(a, b, Sub(Centre(b), Centre(a)), Dot(AxisU(a), AxisU(b)), Dot(AxisV(a), AxisU(b)));
  }

  lemma CommonLocalPoint(a: Box, b: Box, d: Vec, c: real, s: real) returns (p: Vec)
    requires IsBox(a) && IsBox(b) && d == Sub(Centre(b), Centre(a))
    requires c == Dot(AxisU(a), AxisU(b)) && s == Dot(AxisV(a), AxisU(b))
    requires Shadows.NoGap(0.5 * a.l, 0.5 * a.w, 0.5 * b.l, 0.5 * b.w, Abs(c), Abs(s),
                           Dot(d, AxisU(a)), Dot(d, AxisV(a)), Dot(d, AxisU(b)), Dot(d, AxisV(b)))
    ensures InFootprint(a, p) && InFootprint(b, p)
  {
    hide *;
    var e, f := Dot(d, AxisU(b)), Dot(d, AxisV(b));
    var x, y := CommonCoordinates(a, b, d, c, s);
    p := Global(a, Vec(x, y));
    Shadows.CommonInBoxes(0.5 * a.l, 0.5 * a.w, 0.5 * b.l, 0.5 * b.w, c, s, e, f, x, y);
    InsideOwn(a, x, y);
    InsideOther(a, b, x, y, e, f, c, s);
  }

  lemma CommonCoordinates(a: Box, b: Box, d: Vec, c: real, s: real) returns (x: real, y: real)
    requires IsBox(a) && IsBox(b)
    requires c == Dot(AxisU(a), AxisU(b)) && s == Dot(AxisV(a), AxisU(b))
    requires Shadows.NoGap(0.5 * a.l, 0.5 * a.w, 0.5 * b.l, 0.5 * b.w, Abs(c), Abs(s),
                           Dot(d, AxisU(a)), Dot(d, AxisV(a)), Dot(d, AxisU(b)), Dot(d, AxisV(b)))
    ensures Shadows.Common(0.5 * a.l, 0.5 * a.w, 0.5 * b.l, 0.5 * b.w, c, s, Dot(d, AxisU(b)), Dot(d, AxisV(b)), x, y)
  {
    hide Dot, Shadows.NoGap, Shadows.Common, Shadows.Placed;
    RelativeTurn(a.yaw, b.yaw, d);
    x, y := Shadows.CommonPoint(0.5 * a.l, 0.5 * a.w, 0.5 * b.l, 0.5 * b.w, c, s,
                                Dot(d, AxisU(a)), Dot(d, AxisV(a)), Dot(d, AxisU(b)), Dot(d, AxisV(b)));
  }

  lemma InsideOwn(a: Box, x: real, y: real)
    requires IsBox(a) && InBox(Vec(x, y), 0.5 * a.l, 0.5 * a.w)
    ensures InFootprint(a, Global(a, Vec(x, y)))
  {
    LocalOfGlobal(a, Vec(x, y));
  }

  lemma InsideOther(a: Box, b: Box, x: real, y: real, e: real, f: real, c: real, s: real)
    requires c == Dot(AxisU(a), AxisU(b)) && s == Dot(AxisV(a), AxisU(b))
    requires e == Dot(Sub(Centre(b), Centre(a)), AxisU(b)) && f == Dot(Sub(Centre(b), Centre(a)), AxisV(b))
    requires InBox(Vec(x * c + y * s - e, y * c - x * s - f), 0.5 * b.l, 0.5 * b.w)
    ensures InFootprint(b, Global(a, Vec(x, y)))
  {
    hide Local, Global, Dot, Sub, Centre, AxisU, AxisV;
    OtherFrame(a, b, x, y, e, f, c, s);
  }

  /** The turn between two boxes is a unit vector, and it relates the coordinates of a displacement. */
  lemma RelativeTurn(u: Vec, r: Vec, d: Vec)
    requires IsUnit(u) && IsUnit(r)
    ensures var c, s := Dot(u, r), Dot(Vec(-u.y, u.x), r);
            && IsUnit(Vec(c, s))
            && Shadows.Placed(c, s, Dot(d, u), Dot(d, Vec(-u.y, u.x)), Dot(d, r), Dot(d, Vec(-r.y, r.x)))
  {
    hide IsUnit, Shadows.Placed;
    var v, n := Vec(-u.y, u.x), Vec(-r.y, r.x);
    UnitValue(u);
    UnitValue(r);
    TurnedUnit(u.x, u.y, r.x, r.y, Dot(u, r), Dot(v, r));
    TurnedShadow(u.x, u.y, r.x, r.y, Dot(u, r), Dot(v, r), d.x, d.y, Dot(d, u), Dot(d, v), Dot(d, r), Dot(d, n));
  }

  lemma UnitValue(u: Vec)
    requires IsUnit(u)
    ensures u.x * u.x + u.y * u.y == 1.0
  {}

  /** Cosine and sine of the turn from one unit vector to another. */
  lemma TurnedUnit(ux: real, uy: real, rx: real, ry: real, c: real, s: real)
    requires c == ux * rx + uy * ry && s == -uy * rx + ux * ry
    requires ux * ux + uy * uy == 1.0 && rx * rx + ry * ry == 1.0
    ensures IsUnit(Vec(c, s))
  {
    var p, q, m, n := ux * rx, uy * ry, uy * rx, ux * ry;
    SquareOfProduct(ux, rx);
    SquareOfProduct(uy, ry);
    SquareOfProduct(uy, rx);
    SquareOfProduct(ux, ry);
    MixedProduct(ux, uy, rx, ry);
    SquaresOfTurn(p, q, m, n, c, s);
    FourProducts(ux * ux, uy * uy, rx * rx, ry * ry);
  }

  lemma MixedProduct(a: real, b: real, c: real, d: real)
    ensures (a * c) * (b * d) == (b * c) * (a * d)
  {}

  lemma SquaresOfTurn(p: real, q: real, m: real, n: real, c: real, s: real)
    requires c == p + q && s == n - m && p * q == m * n
    ensures c * c + s * s == p * p + q * q + m * m + n * n
  {}

  lemma FourProducts(a: real, b: real, c: real, d: real)
    requires a + b == 1.0 && c + d == 1.0
    ensures a * c + b * d + b * c + a * d == 1.0
  {
    assert a * c + a * d == a * (c + d) && b * c + b * d == b * (c + d);
  }

  lemma TurnedAxis(ux: real, uy: real, rx: real, ry: real, c: real, s: real)
    requires c == ux * rx + uy * ry && s == -uy * rx + ux * ry && ux * ux + uy * uy == 1.0
    ensures rx == c * ux - s * uy && ry == c * uy + s * ux
  {
    assert c * ux - s * uy == rx * (ux * ux + uy * uy);
    assert c * uy + s * ux == ry * (ux * ux + uy * uy);
  }

  lemma TurnedShadow(ux: real, uy: real, rx: real, ry: real, c: real, s: real, dx: real, dy: real,
                     p: real, q: real, e: real, f: real)
    requires c == ux * rx + uy * ry && s == -uy * rx + ux * ry && ux * ux + uy * uy == 1.0
    requires p == dx * ux + dy * uy && q == dx * -uy + dy * ux && e == dx * rx + dy * ry && f == dx * -ry + dy * rx
    ensures Shadows.Placed(c, s, p, q, e, f)
  {
    TurnedAxis(ux, uy, rx, ry, c, s);
    Regrouped(ux, uy, c, s, dx, dy, p, q);
  }

  lemma Regrouped(ux: real, uy: real, c: real, s: real, dx: real, dy: real, p: real, q: real)
    requires p == dx * ux + dy * uy && q == dx * -uy + dy * ux
    ensures p * c + q * s == dx * (c * ux - s * uy) + dy * (c * uy + s * ux)
    ensures q * c - p * s == dx * -(c * uy + s * ux) + dy * (c * ux - s * uy)
  {}

  lemma OwnRadii(o: Box)
    requires IsBox(o)
    ensures ProjectionRadius(o, AxisU(o)) == 0.5 * o.l && ProjectionRadius(o, AxisV(o)) == 0.5 * o.w
  {}

  lemma CrossRadii(a: Box, b: Box)
    ensures var c, s := Abs(Dot(AxisU(a), AxisU(b))), Abs(Dot(AxisV(a), AxisU(b)));
            && ProjectionRadius(b, AxisU(a)) == 0.5 * b.l * c + 0.5 * b.w * s
            && ProjectionRadius(b, AxisV(a)) == 0.5 * b.l * s + 0.5 * b.w * c
            && ProjectionRadius(a, AxisU(b)) == 0.5 * a.l * c + 0.5 * a.w * s
            && ProjectionRadius(a, AxisV(b)) == 0.5 * a.l * s + 0.5 * a.w * c
  {
    var u, v, r, t := AxisU(a), AxisV(a), AxisU(b), AxisV(b);
    assert Dot(r, u) == Dot(u, r) && Dot(t, v) == Dot(u, r) && Dot(v, t) == Dot(u, r);
    assert Dot(r, v) == Dot(v, r) && Dot(t, u) == -Dot(v, r) && Dot(u, t) == -Dot(v, r);
  }

  lemma OtherFrame(a: Box, b: Box, x: real, y: real, e: real, f: real, c: real, s: real)
    requires c == Dot(AxisU(a), AxisU(b)) && s == Dot(AxisV(a), AxisU(b))
    requires e == Dot(Sub(Centre(b), Centre(a)), AxisU(b)) && f == Dot(Sub(Centre(b), Centre(a)), AxisV(b))
    ensures Local(b, Global(a, Vec(x, y))) == Vec(x * c + y * s - e, y * c - x * s - f)
  {
    OtherFrameAxis(a, b, x, y, AxisU(b), c, s);
    TurnedDots(a.yaw, b.yaw);
    OtherFrameAxis(a, b, x, y, AxisV(b), -s, c);
    assert x * -s + y * c == y * c - x * s;
  }

  lemma TurnedDots(u: Vec, r: Vec)
    ensures Dot(u, Vec(-r.y, r.x)) == -Dot(Vec(-u.y, u.x), r) && Dot(Vec(-u.y, u.x), Vec(-r.y, r.x)) == Dot(u, r)
  {}

  lemma OtherFrameAxis(a: Box, b: Box, x: real, y: real, n: Vec, c: real, s: real)
    requires c == Dot(AxisU(a), n) && s == Dot(AxisV(a), n)
    ensures Dot(Sub(Global(a, Vec(x, y)), Centre(b)), n) == x * c + y * s - Dot(Sub(Centre(b), Centre(a)), n)
  {}

  lemma DotOfDifference(w: Vec, d: Vec, n: Vec)
    ensures Dot(Sub(w, d), n) == Dot(w, n) - Dot(d, n)
  {}

  /** Footprints reported as overlapping share a point. */
  lemma OverlapMeets(a: Box, b: Box) returns (p: Vec)
    requires IsBox(a) && IsBox(b) && Overlaps(a, b)
    ensures InFootprint(a, p) && InFootprint(b, p)
  {
    p := NoGapMeets(a, b);
  }

  // ---- the footprint gap is the distance between the footprints ----------------------------------

  lemma GapBelowEdges(a: Box, b: Box, i: nat, j: nat)
    requires i < 4 && j < 4 && !Overlaps(a, b)
    ensures FootprintGapSq(a, b) <= EdgeDistanceSq(a, b, i, j)
  {
    var all := seq(16, k requires 0 <= k < 16 => EdgeDistanceSq(a, b, k / 4, k % 4));
    var k := 4 * i + j;
    assert k / 4 == i && k % 4 == j;
    assert all[k] == EdgeDistanceSq(a, b, i, j);
  }

  lemma GapIsSomeEdges(a: Box, b: Box) returns (i: nat, j: nat)
    requires !Overlaps(a, b)
    ensures i < 4 && j < 4 && FootprintGapSq(a, b) == EdgeDistanceSq(a, b, i, j)
  {
    var all := seq(16, k requires 0 <= k < 16 => EdgeDistanceSq(a, b, k / 4, k % 4));
    var k :| 0 <= k < 16 && all[k] == MinOf(all);
    i, j := k / 4, k % 4;
  }

  /** Border points of two footprints are at least the gap apart. */
  lemma BorderBound(a: Box, b: Box, p: Vec, q: Vec)
    requires IsWall(a) && IsWall(b) && !Overlaps(a, b) && OnBorder(a, p) && OnBorder(b, q)
    ensures FootprintGapSq(a, b) <= DistSq(p, q)
    ensures DistSq(p, q) < OVERLAP_EPS * OVERLAP_EPS ==> FootprintGapSq(a, b) == 0.0
  {
    var i, t := BorderIsEdges(a, p);
    var j, s := BorderIsEdges(b, q);
    EdgeIsProper(a, i);
    EdgeIsProper(b, j);
    GapBelowEdges(a, b, i, j);
    SegmentDistanceIsLowerBound(Corner(a, i), Corner(a, Next(i)), Corner(b, j), Corner(b, Next(j)), t, s);
    if DistSq(p, q) < OVERLAP_EPS * OVERLAP_EPS {
      var t0, s0 := SegmentDistanceIsAttained(Corner(a, i), Corner(a, Next(i)), Corner(b, j), Corner(b, Next(j)));
      GapNonNeg(a, b);
    }
  }

  lemma GapNonNeg(a: Box, b: Box)
    ensures FootprintGapSq(a, b) >= 0.0
  {
    if !Overlaps(a, b) {
      var i, j := GapIsSomeEdges(a, b);
      SegmentNonNeg(Corner(a, i), Corner(a, Next(i)), Corner(b, j), Corner(b, Next(j)));
    }
  }

  lemma SegmentNonNeg(p1: Vec, p2: Vec, q1: Vec, q2: Vec)
    ensures SegmentDistanceSq(p1, p2, q1, q2) >= 0.0
  {}

  /** Shrinking one end of a line of sight, then the other, brings the points closer. */
  lemma CloserPair(p: Vec, q: Vec, k: real, m: real)
    requires 0.0 <= k <= 1.0 && 0.0 <= m <= 1.0
    ensures var p' := Lerp(p, q, k); DistSq(p', Lerp(q, p', m)) <= DistSq(p, q)
  {
    hide Lerp, Sub, Scale, NormSq, DistSq;
    var p' := Lerp(p, q, k);
    OffsetToEnd(p, q, k);
    OffsetFromStart(p', q, m);
    NormSqShrinks(1.0 - k, Sub(p, q));
    NormSqShrinks(1.0 - m, Sub(p', q));
    DistSqOfOffset(p, q);
    DistSqOfOffset(p', q);
    DistSqOfOffset(p', Lerp(q, p', m));
  }

  lemma OffsetToEnd(p: Vec, q: Vec, k: real)
    ensures Sub(Lerp(p, q, k), q) == Scale(1.0 - k, Sub(p, q))
  {}

  lemma OffsetFromStart(p: Vec, q: Vec, m: real)
    ensures Sub(p, Lerp(q, p, m)) == Scale(1.0 - m, Sub(p, q))
  {}

  lemma DistSqOfOffset(p: Vec, q: Vec)
    ensures DistSq(p, q) == NormSq(Sub(p, q))
  {}

  /** Footprints without a common point: every pair of points is at least the gap apart. */
  lemma DisjointBound(a: Box, b: Box, p: Vec, q: Vec)
    requires IsWall(a) && IsWall(b) && !Overlaps(a, b) && InFootprint(a, p) && InFootprint(b, q)
    requires forall x :: !(InFootprint(a, x) && InFootprint(b, x))
    ensures FootprintGapSq(a, b) <= DistSq(p, q)
  {
    var k := LeavesThroughBorder(a, p, q);
    var p' := Lerp(p, q, k);
    var m := LeavesThroughBorder(b, q, p');
    CloserPair(p, q, k, m);
    BorderBound(a, b, p', Lerp(q, p', m));
  }

  /** A common point of separated footprints can be moved to both borders within the tolerance. */
  lemma NearBorders(a: Box, b: Box, x: Vec, n: Vec) returns (k: real, m: real)
    requires NormSq(n) == 1.0 && Separates(a, b, n) && InFootprint(a, x) && InFootprint(b, x)
    ensures 0.0 <= k && 0.0 <= m && k + m < 1.0
    ensures OnBorder(a, Step(x, n, k * OVERLAP_EPS)) && OnBorder(b, Step(x, n, -m * OVERLAP_EPS))
  {
    var ahead, behind := Step(x, n, OVERLAP_EPS), Step(x, n, -OVERLAP_EPS);
    StepDot(x, n, 0.0, OVERLAP_EPS);
    StepDot(x, n, -OVERLAP_EPS, 0.0);
    assert Step(x, n, 0.0) == x;
    k := LeavesThroughBorder(a, x, ahead);
    m := LeavesThroughBorder(b, x, behind);
    PartialStep(x, n, OVERLAP_EPS, k);
    PartialStep(x, n, -OVERLAP_EPS, m);
    StepDot(x, n, -m * OVERLAP_EPS, k * OVERLAP_EPS);
  }

  /** The point r metres from x along n. */
  function Step(x: Vec, n: Vec, r: real): Vec { Vec(x.x + r * n.x, x.y + r * n.y) }

  lemma StepDot(x: Vec, n: Vec, r: real, t: real)
    requires NormSq(n) == 1.0
    ensures Dot(Sub(Step(x, n, r), Step(x, n, t)), n) == r - t
  {}

  lemma StepDistSq(x: Vec, n: Vec, r: real, t: real)
    requires NormSq(n) == 1.0
    ensures DistSq(Step(x, n, r), Step(x, n, t)) == (r - t) * (r - t)
  {}

  lemma PartialStep(x: Vec, n: Vec, r: real, k: real)
    ensures Lerp(x, Step(x, n, r), k) == Step(x, n, k * r)
  {}

  /** Footprints reported apart that still share a point have edges within the touch tolerance, so their gap is zero. */
  lemma TouchingHasNoGap(a: Box, b: Box, x: Vec)
    requires IsWall(a) && IsWall(b) && !Overlaps(a, b) && InFootprint(a, x) && InFootprint(b, x)
    ensures FootprintGapSq(a, b) == 0.0
  {
    var n := ApartHasSeparatingNormal(a, b);
    NormalIsUnit(a, n);
    NormalIsUnit(b, n);
    var p, q := TouchPair(a, b, x, n);
    BorderBound(a, b, p, q);
  }

  lemma TouchPair(a: Box, b: Box, x: Vec, n: Vec) returns (p: Vec, q: Vec)
    requires NormSq(n) == 1.0 && Separates(a, b, n) && InFootprint(a, x) && InFootprint(b, x)
    ensures OnBorder(a, p) && OnBorder(b, q) && DistSq(p, q) < OVERLAP_EPS * OVERLAP_EPS
  {
    var k, m := NearBorders(a, b, x, n);
    p, q := Step(x, n, k * OVERLAP_EPS), Step(x, n, -m * OVERLAP_EPS);
    StepDistSq(x, n, k * OVERLAP_EPS, -m * OVERLAP_EPS);
    SquareBelow(k * OVERLAP_EPS - -m * OVERLAP_EPS, OVERLAP_EPS);
  }

  lemma NormalIsUnit(o: Box, n: Vec)
    requires IsUnit(o.yaw)
    ensures EdgeNormal(o, n) ==> NormSq(n) == 1.0
  {}

  lemma SquareBelow(r: real, h: real)
    requires 0.0 <= r < h
    ensures r * r < h * h
  {
    ProductPos(h - r, h + r);
    assert (h - r) * (h + r) == h * h - r * r;
  }

  ghost predicate BothContain(a: Box, b: Box, x: Vec) { InFootprint(a, x) && InFootprint(b, x) }

  /** No pair of points of two footprints is closer than their gap. */
  lemma GapIsLowerBound(a: Box, b: Box, p: Vec, q: Vec)
    requires IsWall(a) && IsWall(b) && InFootprint(a, p) && InFootprint(b, q)
    ensures FootprintGapSq(a, b) <= DistSq(p, q)
  {
    DistSqNonNeg(p, q);
    if Overlaps(a, b) {
    } else {
      if exists x :: BothContain(a, b, x) {
        var x :| BothContain(a, b, x);
        TouchingHasNoGap(a, b, x);
      } else {
        forall x ensures !(InFootprint(a, x) && InFootprint(b, x)) { assert !BothContain(a, b, x); }
        DisjointBound(a, b, p, q);
      }
    }
  }

  /** Some pair of points attains the gap; a zero gap stands for less than the touch tolerance. */
  lemma GapIsAttained(a: Box, b: Box) returns (p: Vec, q: Vec)
    requires IsBox(a) && IsBox(b)
    ensures InFootprint(a, p) && InFootprint(b, q)
    ensures DistSq(p, q) == FootprintGapSq(a, b)
         || (FootprintGapSq(a, b) == 0.0 && DistSq(p, q) < OVERLAP_EPS * OVERLAP_EPS)
  {
    if Overlaps(a, b) {
      p := OverlapMeets(a, b);
      q := p;
    } else {
      var i, j := GapIsSomeEdges(a, b);
      var t, s := SegmentDistanceIsAttained(Corner(a, i), Corner(a, Next(i)), Corner(b, j), Corner(b, Next(j)));
      EdgeIsInside(a, i, t);
      EdgeIsInside(b, j, s);
      p, q := Lerp(Corner(a, i), Corner(a, Next(i)), t), Lerp(Corner(b, j), Corner(b, Next(j)), s);
    }
  }

  // ---- bounds -----------------------------------------------------------------------------------

  ghost predicate InBounds(bounds: Bounds, p: Vec) {
    bounds.xMin <= p.x <= bounds.xMax && bounds.yMin <= p.y <= bounds.yMax
  }

  /** The bounds test accepts exactly the boxes whose whole footprint lies in the placement area. */
  lemma FitsExactlyWhenInside(bounds: Bounds, o: Box)
    requires IsBox(o)
    ensures BoxFits(bounds, o) <==> forall p :: InFootprint(o, p) ==> InBounds(bounds, p)
  {
    AxisRadii(o);
    if BoxFits(bounds, o) {
      forall p | InFootprint(o, p) ensures InBounds(bounds, p) {
        ShadowBound(o, p, Vec(1.0, 0.0));
        ShadowBound(o, p, Vec(0.0, 1.0));
      }
    } else {
      var p := ExtremeCorner(o, 1.0, 0.0);
      var q := ExtremeCorner(o, 0.0, 1.0);
      MirrorCorner(o, p);
      MirrorCorner(o, q);
    }
  }

  lemma AxisRadii(o: Box)
    ensures ProjectionRadius(o, Vec(1.0, 0.0)) == RotatedHalfExtents(o.l, o.w, o.yaw).x
    ensures ProjectionRadius(o, Vec(0.0, 1.0)) == RotatedHalfExtents(o.l, o.w, o.yaw).y
  {
    assert Dot(AxisU(o), Vec(1.0, 0.0)) == o.yaw.x && Dot(AxisV(o), Vec(1.0, 0.0)) == -o.yaw.y;
    assert Dot(AxisU(o), Vec(0.0, 1.0)) == o.yaw.y && Dot(AxisV(o), Vec(0.0, 1.0)) == o.yaw.x;
  }

  /** A point of the footprint whose shadow on the axis reaches the projection radius. */
  lemma ExtremeCorner(o: Box, nx: real, ny: real) returns (p: Vec)
    requires IsBox(o)
    ensures InFootprint(o, p) && Dot(Sub(p, Centre(o)), Vec(nx, ny)) == ProjectionRadius(o, Vec(nx, ny))
  {
    var n := Vec(nx, ny);
    var u, v := Dot(AxisU(o), n), Dot(AxisV(o), n);
    var a := Vec(if u >= 0.0 then 0.5 * o.l else -(0.5 * o.l), if v >= 0.0 then 0.5 * o.w else -(0.5 * o.w));
    p := Global(o, a);
    LocalOfGlobal(o, a);
    ShadowOfPoint(o, p, n);
    SignedProduct(0.5 * o.l, u);
    SignedProduct(0.5 * o.w, v);
  }

  lemma SignedProduct(h: real, u: real)
    ensures (if u >= 0.0 then h else -h) * u == h * Abs(u)
  {}

  lemma MirrorCorner(o: Box, p: Vec)
    requires InFootprint(o, p)
    ensures InFootprint(o, Vec(2.0 * o.x - p.x, 2.0 * o.y - p.y))
  {}
}
