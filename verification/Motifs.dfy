/** Turning genes into obstacles: the single wall and the chevron gate (motifs.py). */
module Motifs {
  import opened Plane
  import opened Segments
  import opened Boxes
  import opened Mission
  import opened Genes

  const WALL_THICKNESS_M := 2.0
  const WALL_HEIGHT_M := 25.0
  const GATE_BLOCKER_DEG := 30.0
  const GATE_AHEAD_M := 3.0
  const GATE_OFFSET_MAX_M := 30.0
  const GATE_SOLVE_STEPS := 40

  /** Cosine and sine of an angle in degrees, as far as decoding relies on them. */
  ghost predicate IsTrig(trig: real -> Vec) {
    forall d :: IsUnit(trig(d)) && (0.0 < d < 90.0 ==> trig(d).x > 0.0 && trig(d).y > 0.0)
  }

  /** A wall that begins at start and runs length metres along the unit vector axis. */
  function MakeWall(start: Vec, axis: Vec, length: real, thickness: real): Box {
    // The direction modulo a half turn, in [0, 180) degrees.
    var r := if axis.y < 0.0 || (axis.y == 0.0 && axis.x < 0.0) then Vec(-axis.x, -axis.y) else axis;
    var cx, cy := start.x + 0.5 * length * axis.x, start.y + 0.5 * length * axis.y;
    if r.x < 0.0 then Box(thickness, length, WALL_HEIGHT_M, cx, cy, 0.0, Vec(r.y, -r.x))
    else Box(length, thickness, WALL_HEIGHT_M, cx, cy, 0.0, r)
  }

  function TiltedAxis(s: Segment, side: int, tilt: Vec): Vec
    requires s.length != 0.0
  {
    var u, n := Direction(s), SideNormal(s);
    var k := side as real * tilt.y;
    Vec(tilt.x * u.x + k * n.x, tilt.x * u.y + k * n.y)
  }

  function DecodeWall(g: Genome, s: Segment, trig: real -> Vec): Box
    requires s.length != 0.0
  {
    var axis := TiltedAxis(s, g.side, trig(g.crossingDeg));
    var back := g.length - g.overhang;
    MakeWall(Step(PointAt(s, g.t), axis, -back), axis, g.length, WALL_THICKNESS_M)
  }

  /** The end of the wall past the segment. */
  function Tip(g: Genome, s: Segment, trig: real -> Vec): Vec
    requires s.length != 0.0
  {
    Step(PointAt(s, g.t), TiltedAxis(s, g.side, trig(g.crossingDeg)), g.overhang)
  }

  /** The blocker whose inner end sits offset metres off the tip. */
  function BlockerAt(g: Genome, s: Segment, trig: real -> Vec, offset: real): Box
    requires s.length != 0.0
  {
    var ahead := Step(Tip(g, s, trig), Direction(s), GATE_AHEAD_M);
    var b := TiltedAxis(s, -g.side, trig(GATE_BLOCKER_DEG));
    MakeWall(Step(ahead, SideNormal(s), offset * g.side as real), Vec(-b.x, -b.y), g.length, WALL_THICKNESS_M)
  }

  function OpeningSq(g: Genome, s: Segment, trig: real -> Vec, offset: real): real
    requires s.length != 0.0
  {
    FootprintGapSq(DecodeWall(g, s, trig), BlockerAt(g, s, trig, offset))
  }

  datatype Option<T> = None | Some(value: T)

  function SegmentByIndex(segments: seq<Segment>, index: nat): (r: Option<Segment>)
    ensures r.Some? <==> Known(segments, index)
    ensures r.Some? ==> r.value in segments && r.value.index == index
  {
    if segments == [] then None
    else if segments[0].index == index then Some(segments[0])
    else
      var r := SegmentByIndex(segments[1..], index);
      assert Known(segments, index) <==> Known(segments[1..], index) by {
        if Known(segments, index) {
          var k :| 0 <= k < |segments| && segments[k].index == index;
          assert segments[1..][k - 1].index == index;
        }
        if Known(segments[1..], index) {
          var k :| 0 <= k < |segments| - 1 && segments[1..][k].index == index;
          assert segments[k + 1].index == index;
        }
      }
      r
  }

  predicate CrossesOtherSegment(boxes: seq<Box>, segments: seq<Segment>, own: int) {
    exists i, k :: 0 <= i < |boxes| && 0 <= k < |segments| && segments[k].index != own
      && SegmentsIntersect(WallAxis(boxes[i]).0, WallAxis(boxes[i]).1, segments[k].a, segments[k].b)
  }

  datatype Problem = OutsideArea | WallsOverlap | CrossesAnother

  function LayoutProblem(bounds: Bounds, boxes: seq<Box>, segments: seq<Segment>, own: int,
                         strict: bool): Option<Problem> {
    if !FitsInBounds(bounds, boxes) then Some(OutsideArea)
    else if HasOverlap(boxes) then Some(WallsOverlap)
    else if strict && CrossesOtherSegment(boxes, segments, own) then Some(CrossesAnother)
    else None
  }

  // ---- folding the yaw --------------------------------------------------------------------------

  ghost function Perp(a: Vec): Vec { Vec(-a.y, a.x) }

  /** Folding keeps the yaw in [0, 90] degrees and gives a wall of the same sides. */
  lemma MakeWallIsBox(start: Vec, axis: Vec, length: real, thickness: real)
    requires IsUnit(axis)
    ensures var o := MakeWall(start, axis, length, thickness);
            IsUnit(o.yaw) && o.yaw.x >= 0.0 && o.yaw.y >= 0.0 && {o.l, o.w} == {length, thickness}
  {}

  /** Folding leaves the footprint unchanged: length metres from start along the axis, half a thickness to each side. */
  lemma MakeWallFootprint(start: Vec, axis: Vec, length: real, thickness: real, p: Vec)
    requires IsUnit(axis)
    ensures InFootprint(MakeWall(start, axis, length, thickness), p)
       <==> 0.0 <= Dot(Sub(p, start), axis) <= length && Abs(Dot(Sub(p, start), Perp(axis))) <= 0.5 * thickness
  {
    var o := MakeWall(start, axis, length, thickness);
    var a := Local(o, p);
    var along, across := Dot(Sub(p, start), axis), Dot(Sub(p, start), Perp(axis));
    CentreOffset(start, axis, length, p, Centre(o));
    FoldedCoordinates(axis, Sub(p, Centre(o)));
  }

  lemma CentreOffset(start: Vec, axis: Vec, length: real, p: Vec, c: Vec)
    requires IsUnit(axis) && c == Step(start, axis, 0.5 * length)
    ensures Dot(Sub(p, c), axis) == Dot(Sub(p, start), axis) - 0.5 * length
    ensures Dot(Sub(p, c), Perp(axis)) == Dot(Sub(p, start), Perp(axis))
  {}

  lemma FoldedCoordinates(axis: Vec, d: Vec)
    ensures Dot(d, Vec(-axis.x, -axis.y)) == -Dot(d, axis)
    ensures Dot(d, Perp(Vec(-axis.x, -axis.y))) == -Dot(d, Perp(axis))
    ensures Dot(d, Vec(axis.y, -axis.x)) == -Dot(d, Perp(axis))
    ensures Dot(d, Perp(Vec(axis.y, -axis.x))) == Dot(d, axis)
    ensures Dot(d, Vec(-axis.y, axis.x)) == Dot(d, Perp(axis))
    ensures Dot(d, Perp(Vec(-axis.y, axis.x))) == -Dot(d, axis)
  {}

  /** Folding leaves the end points of the long axis unchanged, up to their order. */
  lemma MakeWallAxis(start: Vec, axis: Vec, length: real, thickness: real)
    requires length > thickness
    ensures var ends, end := WallAxis(MakeWall(start, axis, length, thickness)), Step(start, axis, length);
            ends == (start, end) || ends == (end, start)
  {
    hide Scale, Step, Add, Sub;
    var o := MakeWall(start, axis, length, thickness);
    var c := Step(start, axis, 0.5 * length);
    AxisEnds(start, axis, length, 0.5 * length, c);
    assert Centre(o) == c;
  }

  /** Going half the length both ways from the centre, along the axis or against it. */
  lemma AxisEnds(start: Vec, axis: Vec, length: real, h: real, c: Vec)
    requires h == 0.5 * length && c == Step(start, axis, h)
    ensures c == Vec(start.x + 0.5 * length * axis.x, start.y + 0.5 * length * axis.y)
    ensures Sub(c, Scale(h, axis)) == start && Add(c, Scale(h, axis)) == Step(start, axis, length)
    ensures Sub(c, Scale(h, Vec(-axis.x, -axis.y))) == Step(start, axis, length)
    ensures Add(c, Scale(h, Vec(-axis.x, -axis.y))) == start
  {
    NegatedScale(h, axis);
  }

  lemma NegatedScale(h: real, a: Vec)
    ensures Scale(h, Vec(-a.x, -a.y)) == Vec(-(h * a.x), -(h * a.y))
    ensures Scale(h, a) == Vec(h * a.x, h * a.y)
  {}

  // ---- decoded walls cross their own segment ----------------------------------------------------

  /** The tilted axis is a unit vector with the tilt as its coordinates along the segment and towards the side. */
  lemma TiltedAxisFrame(s: Segment, side: int, tilt: Vec)
    requires IsSegment(s) && (side == 1 || side == -1) && IsUnit(tilt)
    ensures var a := TiltedAxis(s, side, tilt);
            && IsUnit(a)
            && Dot(a, SideNormal(s)) * side as real == tilt.y
            && Wedge(a, Direction(s)) == side as real * tilt.y
            && Dot(a, Direction(s)) == tilt.x
  {
    hide Direction, Dot, Wedge, IsUnit, NormSq;
    DirectionIsUnit(s);
    var u, k := Direction(s), side as real * tilt.y;
    TiltedFrame(u, side as real, tilt, k);
    assert TiltedAxis(s, side, tilt) == Vec(tilt.x * u.x + k * u.y, tilt.x * u.y + k * -u.x);
  }

  lemma TiltedFrame(u: Vec, side: real, tilt: Vec, k: real)
    requires NormSq(u) == 1.0 && IsUnit(tilt) && (side == 1.0 || side == -1.0) && k == side * tilt.y
    ensures var a := Vec(tilt.x * u.x + k * u.y, tilt.x * u.y + k * -u.x);
            IsUnit(a) && Dot(a, Vec(u.y, -u.x)) * side == tilt.y && Wedge(a, u) == k && Dot(a, u) == tilt.x
  {
    var a := Vec(tilt.x * u.x + k * u.y, tilt.x * u.y + k * -u.x);
    assert k * k == tilt.y * tilt.y;
    calc {
      a.x * a.x + a.y * a.y;
      (tilt.x * tilt.x + k * k) * (u.x * u.x + u.y * u.y);
      1.0;
    }
    assert Dot(a, Vec(u.y, -u.x)) == k * (u.x * u.x + u.y * u.y);
    assert k * side == tilt.y;
    assert Wedge(a, u) == k * (u.x * u.x + u.y * u.y);
    assert Dot(a, u) == tilt.x * (u.x * u.x + u.y * u.y);
  }

  ghost predicate Decodable(g: Genome, s: Segment, trig: real -> Vec) {
    InRange(g) && IsSegment(s) && IsTrig(trig) && (g.side == 1 || g.side == -1)
  }

  lemma RangesUsed(g: Genome)
    requires InRange(g)
    ensures 0.2 <= g.t <= 0.8 && 35.0 <= g.crossingDeg <= 55.0 && 17.0 <= g.length <= 20.0 && 3.5 <= g.overhang <= 10.0
    ensures g.kind == Gate ==> 7.0 <= g.gateWidth <= 10.0
  {
    assert GeneRange(g.kind, T).lo <= Get(g, T) <= GeneRange(g.kind, T).hi;
    assert GeneRange(g.kind, CrossingDeg).lo <= Get(g, CrossingDeg) <= GeneRange(g.kind, CrossingDeg).hi;
    assert GeneRange(g.kind, Length).lo <= Get(g, Length) <= GeneRange(g.kind, Length).hi;
    assert GeneRange(g.kind, Overhang).lo <= Get(g, Overhang) <= GeneRange(g.kind, Overhang).hi;
    assert GeneRange(g.kind, GateWidth).lo <= Get(g, GateWidth) <= GeneRange(g.kind, GateWidth).hi;
  }

  /**
   The decoded wall's axis strictly crosses the attacked segment at PointAt(t), ends overhang metres beyond it on one
   side and the rest of its length before it.
   */
  lemma DecodedWallCrosses(g: Genome, s: Segment, trig: real -> Vec)
    requires Decodable(g, s, trig)
    ensures var ends := WallAxis(DecodeWall(g, s, trig));
            && ProperCrossing(ends.0, ends.1, s.a, s.b)
            && (ends.0 == Tip(g, s, trig) || ends.1 == Tip(g, s, trig))
            && DistSq(Tip(g, s, trig), PointAt(s, g.t)) == g.overhang * g.overhang
            && Dot(Sub(Tip(g, s, trig), PointAt(s, g.t)), SideNormal(s)) * g.side as real > 0.0
            && DistSq(ends.0, ends.1) == g.length * g.length
            && exists back :: 0.0 < back < 1.0 && Lerp(ends.0, ends.1, back) == PointAt(s, g.t)
  {
    hide *;
    var axis, x, sine := DecodedWallShape(g, s, trig);
    var start, tip := Step(x, axis, g.overhang - g.length), Tip(g, s, trig);
    StepStep(x, axis, g.overhang - g.length, g.length);
    MakeWallAxis(start, axis, g.length, WALL_THICKNESS_M);
    StepLength(x, axis, g.overhang);
    StepLength(start, axis, g.length);
    DistSqSymmetric(start, tip);
    TipSide(g, s, sine, axis, x, tip);
    var back := AxisCrosses(g, s, axis, x, start, tip, sine);
    var ends := WallAxis(DecodeWall(g, s, trig));
    assert Lerp(ends.0, ends.1, if ends == (start, tip) then back else 1.0 - back) == x;
  }

  lemma DecodedWallShape(g: Genome, s: Segment, trig: real -> Vec) returns (axis: Vec, x: Vec, sine: real)
    requires Decodable(g, s, trig)
    ensures IsSegment(s) && (g.side == 1 || g.side == -1)
    ensures 0.0 < g.t < 1.0 && 0.0 < g.overhang < g.length && g.length > WALL_THICKNESS_M && g.length > 1.0
    ensures DecodeWall(g, s, trig) == MakeWall(Step(x, axis, g.overhang - g.length), axis, g.length, WALL_THICKNESS_M)
    ensures Tip(g, s, trig) == Step(x, axis, g.overhang) && x == PointAt(s, g.t) && sine > 0.0
    ensures NormSq(axis) == 1.0 && IsUnit(axis) && Wedge(axis, Direction(s)) == g.side as real * sine
    ensures Dot(axis, SideNormal(s)) * g.side as real == sine
  {
    RangesUsed(g);
    var tilt := trig(g.crossingDeg);
    axis, x, sine := TiltedAxis(s, g.side, tilt), PointAt(s, g.t), tilt.y;
    TiltedAxisFrame(s, g.side, tilt);
  }

  lemma StepLength(x: Vec, n: Vec, r: real)
    requires NormSq(n) == 1.0
    ensures DistSq(Step(x, n, r), x) == r * r
  {}

  lemma TipSide(g: Genome, s: Segment, sine: real, axis: Vec, x: Vec, tip: Vec)
    requires IsSegment(s) && (g.side == 1 || g.side == -1) && g.overhang > 0.0 && sine > 0.0
    requires Dot(axis, SideNormal(s)) * g.side as real == sine && tip == Step(x, axis, g.overhang)
    ensures Dot(Sub(tip, x), SideNormal(s)) * g.side as real > 0.0
  {
    var n, k := SideNormal(s), g.side as real;
    assert Sub(tip, x) == Scale(g.overhang, axis);
    assert Dot(Scale(g.overhang, axis), n) == g.overhang * Dot(axis, n);
    var r := Dot(Sub(tip, x), n) * k;
    assert r == g.overhang * (Dot(axis, n) * k);
    ProductSign(g.overhang, sine, r);
  }

  lemma StepNone(x: Vec, n: Vec)
    ensures Step(x, n, 0.0) == x
  {}

  lemma StepStep(x: Vec, n: Vec, r: real, t: real)
    ensures Step(Step(x, n, r), n, t) == Step(x, n, r + t)
  {}

  lemma AxisCrosses(g: Genome, s: Segment, axis: Vec, x: Vec, start: Vec, tip: Vec, sine: real)
      returns (back: real)
    requires IsSegment(s) && (g.side == 1 || g.side == -1) && sine > 0.0 && 0.0 < g.t < 1.0
    requires 0.0 < g.overhang < g.length
    requires x == PointAt(s, g.t) && start == Step(x, axis, g.overhang - g.length) && tip == Step(start, axis, g.length)
    requires Wedge(axis, Direction(s)) == g.side as real * sine
    ensures ProperCrossing(start, tip, s.a, s.b) && ProperCrossing(tip, start, s.a, s.b)
    ensures 0.0 < back < 1.0 && Lerp(start, tip, back) == x && Lerp(tip, start, 1.0 - back) == x
  {
    hide Wedge, ProperCrossing, Direction, Step, Lerp, Sub, IsSegment;
    back := BackFraction(g.length, g.overhang);
    var reach := g.length - g.overhang;
    StepStep(x, axis, g.overhang - g.length, reach);
    StepNone(x, axis);
    FractionStep(start, axis, g.length, back, x, reach);
    AxisIsTransversal(s, axis, start, tip, g.length, g.side as real * sine);
    TransversalMeeting(start, tip, s.a, s.b, back, g.t);
    SwapCrossing(start, tip, s.a, s.b);
    LerpBackwards(start, tip, back);
  }

  lemma LerpBackwards(a: Vec, b: Vec, k: real)
    ensures Lerp(b, a, 1.0 - k) == Lerp(a, b, k)
  {}

  lemma BackFraction(length: real, overhang: real) returns (back: real)
    requires 0.0 < overhang < length
    ensures 0.0 < back < 1.0 && back * length == length - overhang
  {
    back := (length - overhang) / length;
    InsideQuotient(length - overhang, length, back);
  }

  lemma AxisIsTransversal(s: Segment, axis: Vec, start: Vec, tip: Vec, length: real, k: real)
    requires IsSegment(s) && length > 0.0 && k != 0.0 && tip == Step(start, axis, length)
    requires Wedge(axis, Direction(s)) == k
    ensures Wedge(Sub(tip, start), Sub(s.b, s.a)) != 0.0
  {
    assert Sub(tip, start) == Scale(length, axis);
    DirectionIsUnit(s);
    WedgeOfScaled(length, axis, s.length, Direction(s));
    ProductPos(length, s.length);
    NonZeroProduct(length * s.length, k);
  }

  lemma FractionStep(start: Vec, axis: Vec, length: real, back: real, x: Vec, reach: real)
    requires reach == back * length && x == Step(start, axis, reach)
    ensures Lerp(start, Step(start, axis, length), back) == x
  {}

  lemma WedgeOfScaled(m: real, a: Vec, n: real, b: Vec)
    ensures Wedge(Scale(m, a), Scale(n, b)) == (m * n) * Wedge(a, b)
  {}

  lemma NonZeroProduct(a: real, b: real)
    requires a > 0.0 && b != 0.0
    ensures a * b != 0.0
  {}

  lemma SwapCrossing(p1: Vec, p2: Vec, q1: Vec, q2: Vec)
    requires ProperCrossing(p1, p2, q1, q2)
    ensures ProperCrossing(p2, p1, q1, q2)
  {
    CrossTerms(p1, p2, q1, q2);
    CrossTerms(p2, p1, q1, q2);
    assert Cross(p2, p1, q1) == -Cross(p1, p2, q1) && Cross(p2, p1, q2) == -Cross(p1, p2, q2);
  }

  // ---- the gate opening equals its gene ---------------------------------------------------------

  function Pow2(k: nat): (r: real)
    ensures r > 0.0
  {
    if k == 0 then 1.0 else 2.0 * Pow2(k - 1)
  }

  /** Adding a move of length m to a vector no longer than r makes it no longer than r + m. */
  lemma LongerByStep(w: Vec, n: Vec, m: real, r: real)
    requires NormSq(n) == 1.0 && m >= 0.0 && r >= 0.0 && NormSq(w) <= r * r
    ensures NormSq(Step(w, n, m)) <= (r + m) * (r + m)
    ensures NormSq(w) < r * r && r > 0.0 ==> NormSq(Step(w, n, m)) < (r + m) * (r + m)
  {
    hide *;
    ProjectionBound(w, n);
    StepNorm(w, n, m);
    LongerScalar(NormSq(w), Dot(w, n), m, r);
  }

  lemma LongerScalar(w: real, d: real, m: real, r: real)
    requires m >= 0.0 && r >= 0.0 && w <= r * r && d * d <= w
    ensures w + 2.0 * (d * m) + m * m <= (r + m) * (r + m)
    ensures w < r * r ==> w + 2.0 * (d * m) + m * m < (r + m) * (r + m)
  {
    RootLe(d, r);
    ProductLe(d, r, m);
    assert (r + m) * (r + m) == r * r + 2.0 * (r * m) + m * m;
  }

  lemma StepNorm(w: Vec, n: Vec, m: real)
    requires NormSq(n) == 1.0
    ensures NormSq(Step(w, n, m)) == NormSq(w) + 2.0 * (Dot(w, n) * m) + m * m
  {}

  /** The direction in which a growing offset moves the blocker. */
  ghost function Outward(g: Genome, s: Segment): Vec
    requires s.length != 0.0
  {
    Scale(g.side as real, SideNormal(s))
  }

  lemma OutwardIsUnit(g: Genome, s: Segment)
    requires IsSegment(s) && (g.side == 1 || g.side == -1)
    ensures NormSq(Outward(g, s)) == 1.0
  {
    DirectionIsUnit(s);
    NormSqScale(g.side as real, SideNormal(s));
  }

  /** A blocker at another offset is the same box, moved. */
  lemma BlockerMoves(g: Genome, s: Segment, trig: real -> Vec, from: real, to: real, q: Vec)
    requires Decodable(g, s, trig) && InFootprint(BlockerAt(g, s, trig, from), q)
    ensures InFootprint(BlockerAt(g, s, trig, to), Step(q, Outward(g, s), to - from))
  {
    var b0, b1 := BlockerAt(g, s, trig, from), BlockerAt(g, s, trig, to);
    var n := Outward(g, s);
    assert b1.yaw == b0.yaw && b1.l == b0.l && b1.w == b0.w;
    OffsetDifference(g, s, trig, from, to);
    assert Sub(Step(q, n, to - from), Centre(b1)) == Sub(q, Centre(b0));
  }

  lemma OffsetDifference(g: Genome, s: Segment, trig: real -> Vec, from: real, to: real)
    requires s.length != 0.0
    ensures Centre(BlockerAt(g, s, trig, to)) == Step(Centre(BlockerAt(g, s, trig, from)), Outward(g, s), to - from)
  {
    var n, k := SideNormal(s), g.side as real;
    assert (to * k) * n.x == (from * k) * n.x + (to - from) * (k * n.x);
    assert (to * k) * n.y == (from * k) * n.y + (to - from) * (k * n.y);
  }

  lemma MadeWallIsProper(start: Vec, axis: Vec, length: real)
    requires IsUnit(axis) && length > 1.0
    ensures IsWall(MakeWall(start, axis, length, WALL_THICKNESS_M))
    ensures IsBox(MakeWall(start, axis, length, WALL_THICKNESS_M))
  {}

  /** The blocker as a wall: its inner end, and its axis, which leads away from the tip. */
  lemma BlockerShape(g: Genome, s: Segment, trig: real -> Vec, offset: real) returns (start: Vec, axis: Vec)
    requires Decodable(g, s, trig)
    ensures BlockerAt(g, s, trig, offset) == MakeWall(start, axis, g.length, WALL_THICKNESS_M)
    ensures start == Step(Step(Tip(g, s, trig), Direction(s), GATE_AHEAD_M), SideNormal(s), offset * g.side as real)
    ensures IsUnit(axis) && g.length > 1.0 && Dot(axis, Outward(g, s)) >= 0.0
  {
    hide Direction, SideNormal, Tip, MakeWall, TiltedAxis, IsUnit, IsSegment, Dot, Scale;
    DecodableParts(g, s, trig);
    RangesUsed(g);
    var tilt := trig(GATE_BLOCKER_DEG);
    var b := TiltedAxis(s, -g.side, tilt);
    TiltedAxisFrame(s, -g.side, tilt);
    axis := Vec(-b.x, -b.y);
    start := Step(Step(Tip(g, s, trig), Direction(s), GATE_AHEAD_M), SideNormal(s), offset * g.side as real);
    NegatedTilt(b, SideNormal(s), g.side, tilt.y);
    NegatedUnit(b);
  }

  lemma NegatedUnit(b: Vec)
    requires IsUnit(b)
    ensures IsUnit(Vec(-b.x, -b.y))
  {}

  lemma NegatedTilt(b: Vec, n: Vec, side: int, sine: real)
    requires (side == 1 || side == -1) && Dot(b, n) * (-side) as real == sine && sine > 0.0
    ensures Dot(Vec(-b.x, -b.y), Scale(side as real, n)) == sine
  {}

  lemma WallsAreProper(g: Genome, s: Segment, trig: real -> Vec, offset: real)
    requires Decodable(g, s, trig)
    ensures IsWall(DecodeWall(g, s, trig)) && IsWall(BlockerAt(g, s, trig, offset))
    ensures IsBox(DecodeWall(g, s, trig)) && IsBox(BlockerAt(g, s, trig, offset))
  {
    hide *;
    DecodableParts(g, s, trig);
    var axis, x, sine := DecodedWallShape(g, s, trig);
    MadeWallIsProper(Step(x, axis, g.overhang - g.length), axis, g.length);
    var start, b := BlockerShape(g, s, trig, offset);
    MadeWallIsProper(start, b, g.length);
  }

  /** The opening of a moved blocker is at most the old point distance plus the move. */
  lemma MovedOpening(g: Genome, s: Segment, trig: real -> Vec, from: real, to: real, p: Vec, q: Vec, r: real)
    requires Decodable(g, s, trig) && from <= to && r > 0.0 && DistSq(p, q) <= r * r
    requires InFootprint(DecodeWall(g, s, trig), p) && InFootprint(BlockerAt(g, s, trig, from), q)
    ensures OpeningSq(g, s, trig, to) <= (r + (to - from)) * (r + (to - from))
    ensures DistSq(p, q) < r * r ==> OpeningSq(g, s, trig, to) < (r + (to - from)) * (r + (to - from))
  {
    hide *;
    DecodableParts(g, s, trig);
    var n := Outward(g, s);
    OutwardIsUnit(g, s);
    var q' := Step(q, n, to - from);
    BlockerMoves(g, s, trig, from, to, q);
    WallsAreProper(g, s, trig, to);
    GapIsLowerBound(DecodeWall(g, s, trig), BlockerAt(g, s, trig, to), p, q');
    DistSqSymmetric(p, q);
    DistSqSymmetric(p, q');
    MovedOffset(p, q, n, to - from);
    LongerByStep(Sub(q, p), n, to - from, r);
    OpeningIsGap(g, s, trig, to);
  }

  lemma DecodableParts(g: Genome, s: Segment, trig: real -> Vec)
    requires Decodable(g, s, trig)
    ensures IsSegment(s) && s.length != 0.0 && (g.side == 1 || g.side == -1)
  {}

  lemma MovedOffset(p: Vec, q: Vec, n: Vec, m: real)
    ensures DistSq(Step(q, n, m), p) == NormSq(Step(Sub(q, p), n, m)) && DistSq(q, p) == NormSq(Sub(q, p))
  {}

  lemma OpeningIsGap(g: Genome, s: Segment, trig: real -> Vec, offset: real)
    requires s.length != 0.0
    ensures OpeningSq(g, s, trig, offset) == FootprintGapSq(DecodeWall(g, s, trig), BlockerAt(g, s, trig, offset))
  {}

  /** A pair of points that realises the opening. */
  lemma OpeningPair(g: Genome, s: Segment, trig: real -> Vec, offset: real) returns (p: Vec, q: Vec)
    requires Decodable(g, s, trig)
    ensures InFootprint(DecodeWall(g, s, trig), p) && InFootprint(BlockerAt(g, s, trig, offset), q)
    ensures DistSq(p, q) == OpeningSq(g, s, trig, offset)
         || (OpeningSq(g, s, trig, offset) == 0.0 && DistSq(p, q) < OVERLAP_EPS * OVERLAP_EPS)
  {
    hide *;
    DecodableParts(g, s, trig);
    WallsAreProper(g, s, trig, offset);
    p, q := GapIsAttained(DecodeWall(g, s, trig), BlockerAt(g, s, trig, offset));
    OpeningIsGap(g, s, trig, offset);
  }

  /** With no offset the inner end of the blocker is three metres from the tip of the wall. */
  lemma OpensNarrow(g: Genome, s: Segment, trig: real -> Vec)
    requires Decodable(g, s, trig)
    ensures OpeningSq(g, s, trig, 0.0) <= GATE_AHEAD_M * GATE_AHEAD_M
  {
    hide *;
    DecodableParts(g, s, trig);
    WallsAreProper(g, s, trig, 0.0);
    TipIsInWall(g, s, trig);
    StartIsInBlocker(g, s, trig);
    DirectionIsUnit(s);
    var tip := Tip(g, s, trig);
    StepLength(tip, Direction(s), GATE_AHEAD_M);
    DistSqSymmetric(tip, Step(tip, Direction(s), GATE_AHEAD_M));
    GapIsLowerBound(DecodeWall(g, s, trig), BlockerAt(g, s, trig, 0.0), tip, Step(tip, Direction(s), GATE_AHEAD_M));
    OpeningIsGap(g, s, trig, 0.0);
  }

  lemma TipIsInWall(g: Genome, s: Segment, trig: real -> Vec)
    requires Decodable(g, s, trig)
    ensures InFootprint(DecodeWall(g, s, trig), Tip(g, s, trig))
  {
    var axis, x, sine := DecodedWallShape(g, s, trig);
    var start := Step(x, axis, g.overhang - g.length);
    StepStep(x, axis, g.overhang - g.length, g.length);
    OnAxis(start, axis, g.length, WALL_THICKNESS_M, g.length);
  }

  /** The points of the centre line belong to the wall. */
  lemma OnAxis(start: Vec, axis: Vec, length: real, thickness: real, r: real)
    requires IsUnit(axis) && 0.0 <= r <= length && thickness >= 0.0
    ensures InFootprint(MakeWall(start, axis, length, thickness), Step(start, axis, r))
  {
    hide InFootprint, MakeWall;
    var p := Step(start, axis, r);
    MakeWallFootprint(start, axis, length, thickness, p);
    assert Sub(p, start) == Scale(r, axis);
    assert Dot(Scale(r, axis), axis) == r * (axis.x * axis.x + axis.y * axis.y);
    assert Dot(Scale(r, axis), Perp(axis)) == 0.0;
  }

  lemma StartIsInBlocker(g: Genome, s: Segment, trig: real -> Vec)
    requires Decodable(g, s, trig)
    ensures InFootprint(BlockerAt(g, s, trig, 0.0), Step(Tip(g, s, trig), Direction(s), GATE_AHEAD_M))
  {
    var start, axis := BlockerShape(g, s, trig, 0.0);
    assert Step(start, axis, 0.0) == start;
    var p := Step(Tip(g, s, trig), Direction(s), GATE_AHEAD_M);
    assert Step(p, SideNormal(s), 0.0 * g.side as real) == p;
    OnAxis(start, axis, g.length, WALL_THICKNESS_M, 0.0);
  }

  /** How far a wall reaches in a direction its axis does not point away from. */
  lemma WallReach(start: Vec, axis: Vec, length: real, p: Vec, n: Vec, a: real)
    requires IsUnit(axis) && NormSq(n) == 1.0 && a == Dot(axis, n) && a >= 0.0
    requires InFootprint(MakeWall(start, axis, length, WALL_THICKNESS_M), p)
    ensures -1.0 <= Dot(Sub(p, start), n) <= length * a + 1.0
  {
    hide MakeWall, InFootprint, Dot, Sub, Perp, NormSq;
    MakeWallFootprint(start, axis, length, WALL_THICKNESS_M, p);
    var d := Sub(p, start);
    var k, m, b := Dot(d, axis), Dot(d, Perp(axis)), Dot(Perp(axis), n);
    AxisExpansion(d, axis, n);
    ProjectionBound(Perp(axis), n);
    RootLe(b, 1.0);
    ReachBound(k, m, a, b, length);
  }

  lemma AxisExpansion(d: Vec, axis: Vec, n: Vec)
    requires IsUnit(axis)
    ensures Dot(d, n) == Dot(d, axis) * Dot(axis, n) + Dot(d, Perp(axis)) * Dot(Perp(axis), n)
    ensures NormSq(Perp(axis)) == 1.0
  {
    TurnForth(axis.x, axis.y, d.x, d.y);
    CombineDot(Vec(Dot(d, axis), Dot(d, Perp(axis))), axis, n);
  }

  lemma ReachBound(k: real, m: real, a: real, b: real, length: real)
    requires 0.0 <= k <= length && Abs(m) <= 1.0 && a >= 0.0 && -1.0 <= b <= 1.0
    ensures -1.0 <= k * a + m * b <= length * a + 1.0
  {
    ProductNonNeg(k, a);
    ProductLe(k, length, a);
    ProductBound(m, 1.0, b);
  }

  /** At the largest offset the blocker has cleared the wall by far more than any gate width. */
  lemma OpensWide(g: Genome, s: Segment, trig: real -> Vec)
    requires Decodable(g, s, trig)
    ensures OpeningSq(g, s, trig, GATE_OFFSET_MAX_M) >= 28.0 * 28.0
  {
    hide *;
    DecodableParts(g, s, trig);
    var n := Outward(g, s);
    OutwardIsUnit(g, s);
    var p, q := OpeningPair(g, s, trig, GATE_OFFSET_MAX_M);
    WallStaysInside(g, s, trig, p);
    BlockerIsFarOut(g, s, trig, q);
    FarApart(p, q, Tip(g, s, trig), n);
    SmallTolerance();
  }

  lemma SmallTolerance()
    ensures OVERLAP_EPS * OVERLAP_EPS < 1.0 && OVERLAP_EPS > 0.0
  {}

  lemma WallStaysInside(g: Genome, s: Segment, trig: real -> Vec, p: Vec)
    requires Decodable(g, s, trig) && InFootprint(DecodeWall(g, s, trig), p)
    ensures Dot(Sub(p, Tip(g, s, trig)), Outward(g, s)) <= 1.0
  {
    hide InFootprint, MakeWall, DecodeWall, Tip;
    var axis, x, sine := DecodedWallShape(g, s, trig);
    var n := Outward(g, s);
    OutwardIsUnit(g, s);
    var start := Step(x, axis, g.overhang - g.length);
    StepStep(x, axis, g.overhang - g.length, g.length);
    assert Dot(axis, n) == Dot(axis, SideNormal(s)) * g.side as real;
    WallReach(start, axis, g.length, p, n, sine);
    StepShadow(p, start, axis, g.length, n, sine);
  }

  lemma StepShadow(p: Vec, start: Vec, axis: Vec, r: real, n: Vec, a: real)
    requires a == Dot(axis, n)
    ensures Dot(Sub(p, Step(start, axis, r)), n) == Dot(Sub(p, start), n) - r * a
  {}

  lemma BlockerIsFarOut(g: Genome, s: Segment, trig: real -> Vec, q: Vec)
    requires Decodable(g, s, trig) && InFootprint(BlockerAt(g, s, trig, GATE_OFFSET_MAX_M), q)
    ensures Dot(Sub(q, Tip(g, s, trig)), Outward(g, s)) >= 29.0
  {
    hide InFootprint, MakeWall, BlockerAt, Tip;
    var start, axis := BlockerShape(g, s, trig, GATE_OFFSET_MAX_M);
    var n := Outward(g, s);
    OutwardIsUnit(g, s);
    WallReach(start, axis, g.length, q, n, Dot(axis, n));
    var tip := Tip(g, s, trig);
    var ahead := Step(tip, Direction(s), GATE_AHEAD_M);
    OutwardShadows(s, g.side as real);
    StepShadow(q, tip, Direction(s), GATE_AHEAD_M, n, 0.0);
    StepShadow(q, ahead, SideNormal(s), GATE_OFFSET_MAX_M * g.side as real, n, g.side as real);
  }

  lemma OutwardShadows(s: Segment, k: real)
    requires IsSegment(s)
    ensures Dot(Direction(s), Scale(k, SideNormal(s))) == 0.0 && Dot(SideNormal(s), Scale(k, SideNormal(s))) == k
  {
    DirectionIsUnit(s);
    var n := SideNormal(s);
    assert Dot(n, Scale(k, n)) == k * NormSq(n);
  }

  lemma FarApart(p: Vec, q: Vec, tip: Vec, n: Vec)
    requires NormSq(n) == 1.0 && Dot(Sub(p, tip), n) <= 1.0 && Dot(Sub(q, tip), n) >= 29.0
    ensures DistSq(p, q) >= 28.0 * 28.0
  {
    var w := Sub(q, p);
    DotOfDifference(Sub(q, tip), Sub(p, tip), n);
    assert w == Sub(Sub(q, tip), Sub(p, tip));
    ProjectionBound(w, n);
    var d := Dot(w, n);
    ProductLe(28.0, d, 28.0);
    ProductLe(28.0, d, d);
    DistSqSymmetric(p, q);
  }

  /** The bracket of the blocker offset after the given number of bisection steps. */
  function Bracket(g: Genome, s: Segment, trig: real -> Vec, steps: nat): (real, real)
    requires s.length != 0.0
  {
    if steps == 0 then (0.0, GATE_OFFSET_MAX_M)
    else
      var b := Bracket(g, s, trig, steps - 1);
      var mid := 0.5 * (b.0 + b.1);
      if OpeningSq(g, s, trig, mid) < g.gateWidth * g.gateWidth then (mid, b.1) else (b.0, mid)
  }

  function SolvedOffset(g: Genome, s: Segment, trig: real -> Vec): real
    requires s.length != 0.0
  {
    var b := Bracket(g, s, trig, GATE_SOLVE_STEPS);
    0.5 * (b.0 + b.1)
  }

  lemma BracketSteps(g: Genome, s: Segment, trig: real -> Vec, i: nat)
    requires s.length != 0.0
    ensures Bracket(g, s, trig, 0) == (0.0, GATE_OFFSET_MAX_M)
    ensures var b := Bracket(g, s, trig, i);
            var mid := 0.5 * (b.0 + b.1);
            Bracket(g, s, trig, i + 1) ==
              var gapSq := FootprintGapSq(DecodeWall(g, s, trig), BlockerAt(g, s, trig, mid));
              if gapSq < g.gateWidth * g.gateWidth then (mid, b.1) else (b.0, mid)
  {
    hide DecodeWall, BlockerAt, FootprintGapSq;
  }

  /** Solves the blocker offset by bisection. */
  method DecodeGate(g: Genome, s: Segment, trig: real -> Vec) returns (boxes: seq<Box>)
    requires s.length != 0.0
    ensures boxes == [DecodeWall(g, s, trig), BlockerAt(g, s, trig, SolvedOffset(g, s, trig))]
    ensures 0.0 <= SolvedOffset(g, s, trig) <= GATE_OFFSET_MAX_M
    ensures Decodable(g, s, trig) && g.kind == Gate ==> HasOpening(boxes[0], boxes[1], g.gateWidth)
  {
    hide DecodeWall, BlockerAt, OpeningSq, FootprintGapSq, Decodable, Bracketed, HasOpening, Pow2, Bracket;
    ghost var solvable := Decodable(g, s, trig) && g.kind == Gate;
    var wall := DecodeWall(g, s, trig);
    var lo, hi := 0.0, GATE_OFFSET_MAX_M;
    if solvable { StartsBracketed(g, s, trig); }
    PowSteps(0);
    BracketSteps(g, s, trig, 0);
    for i := 0 to GATE_SOLVE_STEPS
      invariant 0.0 <= lo <= hi <= GATE_OFFSET_MAX_M && (hi - lo) * Pow2(i) == GATE_OFFSET_MAX_M
      invariant solvable ==> Bracketed(g, s, trig, lo, hi)
      invariant Bracket(g, s, trig, i) == (lo, hi)
    {
      var mid := 0.5 * (lo + hi);
      PowSteps(i);
      BracketSteps(g, s, trig, i);
      HalfBracket(g, s, trig, lo, hi, mid);
      assert 0.5 * (hi - lo) * Pow2(i + 1) == (hi - lo) * Pow2(i);
      if FootprintGapSq(wall, BlockerAt(g, s, trig, mid)) < g.gateWidth * g.gateWidth {
        lo := mid;
      } else {
        hi := mid;
      }
    }
    var offset := 0.5 * (lo + hi);
    boxes := [wall, BlockerAt(g, s, trig, offset)];
    if solvable { SolvedOpening(g, s, trig, lo, hi); }
  }

  lemma PowSteps(i: nat)
    ensures Pow2(0) == 1.0 && Pow2(i + 1) == 2.0 * Pow2(i)
  {}

  /** The bisection result leaves an opening within 30 / 2^41 metres of the width: (w - d)^2 <= gap^2 <= (w + d)^2. */
  ghost predicate HasOpening(a: Box, b: Box, width: real) {
    var d := GATE_OFFSET_MAX_M / Pow2(41);
    (width - d) * (width - d) <= FootprintGapSq(a, b) <= (width + d) * (width + d)
  }

  ghost predicate Bracketed(g: Genome, s: Segment, trig: real -> Vec, lo: real, hi: real)
    requires s.length != 0.0
  {
    OpeningSq(g, s, trig, lo) < g.gateWidth * g.gateWidth <= OpeningSq(g, s, trig, hi)
  }

  /** Testing the middle keeps the bracket on one of the two halves. */
  lemma HalfBracket(g: Genome, s: Segment, trig: real -> Vec, lo: real, hi: real, mid: real)
    requires s.length != 0.0
    ensures Bracketed(g, s, trig, lo, hi) ==>
            if FootprintGapSq(DecodeWall(g, s, trig), BlockerAt(g, s, trig, mid)) < g.gateWidth * g.gateWidth
            then Bracketed(g, s, trig, mid, hi) else Bracketed(g, s, trig, lo, mid)
  {
    hide DecodeWall, BlockerAt, FootprintGapSq;
  }

  lemma StartsBracketed(g: Genome, s: Segment, trig: real -> Vec)
    requires Decodable(g, s, trig) && g.kind == Gate
    ensures s.length != 0.0 && Bracketed(g, s, trig, 0.0, GATE_OFFSET_MAX_M)
  {
    hide OpeningSq, InRange;
    OpensNarrow(g, s, trig);
    OpensWide(g, s, trig);
    RangesUsed(g);
    SquareBetween(g.gateWidth);
  }

  lemma SquareBetween(w: real)
    requires 7.0 <= w <= 10.0
    ensures 49.0 <= w * w <= 100.0
  {
    SquareLe(w, 10.0);
    SquareLe(7.0, w);
  }

  lemma SolvedOpening(g: Genome, s: Segment, trig: real -> Vec, lo: real, hi: real)
    requires Decodable(g, s, trig) && g.kind == Gate && lo <= hi && s.length != 0.0 && Bracketed(g, s, trig, lo, hi)
    requires (hi - lo) * Pow2(GATE_SOLVE_STEPS) == GATE_OFFSET_MAX_M
    ensures HasOpening(DecodeWall(g, s, trig), BlockerAt(g, s, trig, 0.5 * (lo + hi)), g.gateWidth)
  {
    hide OpeningSq, DecodeWall, BlockerAt, FootprintGapSq, Decodable, Pow2;
    var mid := 0.5 * (lo + hi);
    PowSteps(40);
    PowAtLeast(40);
    FinalStep(hi - lo, Pow2(40), Pow2(41));
    OpeningIsGap(g, s, trig, mid);
    NotMuchWider(g, s, trig, lo, mid);
    NotMuchNarrower(g, s, trig, mid, hi);
    assert mid - lo == 0.5 * (hi - lo) == hi - mid;
  }

  lemma {:induction false} PowAtLeast(k: nat)
    requires k >= 5
    ensures Pow2(k) >= 32.0
  {
    if k > 5 {
      PowAtLeast(k - 1);
    } else {
      assert Pow2(0) == 1.0 && Pow2(1) == 2.0 && Pow2(2) == 4.0 && Pow2(3) == 8.0;
    }
  }

  lemma FinalStep(width: real, p: real, q: real)
    requires p >= 32.0 && q == 2.0 * p && width * p == GATE_OFFSET_MAX_M && width >= 0.0
    ensures GATE_OFFSET_MAX_M / q == 0.5 * width && width <= 1.0
  {}

  lemma NotMuchWider(g: Genome, s: Segment, trig: real -> Vec, lo: real, mid: real)
    requires Decodable(g, s, trig) && g.kind == Gate && lo <= mid && s.length != 0.0
    requires OpeningSq(g, s, trig, lo) < g.gateWidth * g.gateWidth
    ensures OpeningSq(g, s, trig, mid) <= (g.gateWidth + (mid - lo)) * (g.gateWidth + (mid - lo))
  {
    hide OpeningSq, InFootprint, DecodeWall, BlockerAt, DistSq, InRange;
    RangesUsed(g);
    SquareBetween(g.gateWidth);
    var p, q := OpeningPair(g, s, trig, lo);
    SmallTolerance();
    MovedOpening(g, s, trig, lo, mid, p, q, g.gateWidth);
  }

  lemma NotMuchNarrower(g: Genome, s: Segment, trig: real -> Vec, mid: real, hi: real)
    requires Decodable(g, s, trig) && g.kind == Gate && mid <= hi && hi - mid <= 1.0 && s.length != 0.0
    requires OpeningSq(g, s, trig, hi) >= g.gateWidth * g.gateWidth
    ensures OpeningSq(g, s, trig, mid) >= (g.gateWidth - (hi - mid)) * (g.gateWidth - (hi - mid))
  {
    hide OpeningSq, InFootprint, DecodeWall, BlockerAt, DistSq, InRange;
    RangesUsed(g);
    var r := g.gateWidth - (hi - mid);
    var p, q := OpeningPair(g, s, trig, mid);
    SmallTolerance();
    SquareLe(6.0, r);
    if DistSq(p, q) < r * r {
      MovedOpening(g, s, trig, mid, hi, p, q, r);
    }
  }

  /** The obstacles that the genes describe on the segment. */
  function Layout(g: Genome, s: Segment, trig: real -> Vec): seq<Box>
    requires s.length != 0.0
  {
    var wall := DecodeWall(g, s, trig);
    if g.kind == Gate then [wall, BlockerAt(g, s, trig, SolvedOffset(g, s, trig))] else [wall]
  }

  /** The obstacles that the genes describe, or None when the segment is unknown. */
  function Decoded(g: Genome, segments: seq<Segment>, trig: real -> Vec): (boxes: Option<seq<Box>>)
    requires forall k :: 0 <= k < |segments| ==> segments[k].length != 0.0
    ensures boxes.Some? <==> Known(segments, g.segment)
  {
    match SegmentByIndex(segments, g.segment)
    case None => None
    case Some(s) => Some(Layout(g, s, trig))
  }

  /** The boxes are the layout of the genes on the segment, and a gate has the opening its genes ask for. */
  ghost predicate Depicts(boxes: seq<Box>, g: Genome, s: Segment, trig: real -> Vec)
    requires s.length != 0.0
  {
    && boxes == Layout(g, s, trig)
    && (g.kind == Gate && Decodable(g, s, trig) ==> HasOpening(boxes[0], boxes[1], g.gateWidth))
  }

  method Decode(g: Genome, segments: seq<Segment>, trig: real -> Vec) returns (boxes: Option<seq<Box>>)
    requires forall k :: 0 <= k < |segments| ==> segments[k].length != 0.0
    ensures boxes == Decoded(g, segments, trig)
    ensures boxes.Some? ==>
              exists s :: s in segments && s.index == g.segment && s.length != 0.0 && Depicts(boxes.value, g, s, trig)
  {
    hide DecodeWall, BlockerAt, SolvedOffset, HasOpening, Decodable, Known;
    var found := SegmentByIndex(segments, g.segment);
    if found.None? {
      return None;
    }
    var s := found.value;
    if g.kind == Gate {
      var gate := DecodeGate(g, s, trig);
      assert Depicts(gate, g, s, trig);
      return Some(gate);
    }
    var wall := DecodeWall(g, s, trig);
    assert Depicts([wall], g, s, trig);
    return Some([wall]);
  }
}
