/** Where decoded walls stand, in the frame of their segment, and which other segments they cross (motifs.py). */
module Placements {
  import opened Plane
  import opened Segments
  import opened Boxes
  import opened Mission
  import opened Genes
  import opened Motifs

  /** How far p lies ahead of q along the segment. */
  ghost function Ahead(s: Segment, p: Vec, q: Vec): real
    requires s.length != 0.0
  {
    Dot(Sub(p, q), Direction(s))
  }

  /** How far p lies from q towards the given side of the segment. */
  ghost function Aside(s: Segment, side: int, p: Vec, q: Vec): real
    requires s.length != 0.0
  {
    Dot(Sub(p, q), SideNormal(s)) * side as real
  }

  lemma StepInFrame(s: Segment, side: int, p: Vec, n: Vec, r: real)
    requires s.length != 0.0
    ensures Ahead(s, Step(p, n, r), p) == r * Dot(n, Direction(s))
    ensures Aside(s, side, Step(p, n, r), p) == r * (Dot(n, SideNormal(s)) * side as real)
  {
    hide Direction, SideNormal;
    var u, v := Direction(s), SideNormal(s);
    ScaledDot(r, n, u);
    ScaledDot(r, n, v);
    assert Sub(Step(p, n, r), p) == Scale(r, n);
    ThreeFactors(r, Dot(n, v), side as real);
  }

  lemma ScaledDot(r: real, n: Vec, u: Vec)
    ensures Dot(Scale(r, n), u) == r * Dot(n, u)
  {}

  lemma ThreeFactors(a: real, b: real, c: real)
    ensures (a * b) * c == a * (b * c)
  {}

  /** The wall's tip lies overhang metres off the crossing point, at the crossing angle towards the gene's side. */
  lemma TipInFrame(g: Genome, s: Segment, trig: real -> Vec)
    requires Decodable(g, s, trig)
    ensures Ahead(s, Tip(g, s, trig), PointAt(s, g.t)) == g.overhang * trig(g.crossingDeg).x
    ensures Aside(s, g.side, Tip(g, s, trig), PointAt(s, g.t)) == g.overhang * trig(g.crossingDeg).y
  {
    hide Ahead, Aside, Direction, SideNormal, TiltedAxis, Step, Dot, InRange, IsSegment;
    DecodableParts(g, s, trig);
    var axis := TiltedAxis(s, g.side, trig(g.crossingDeg));
    TiltedAxisFrame(s, g.side, trig(g.crossingDeg));
    StepInFrame(s, g.side, PointAt(s, g.t), axis, g.overhang);
  }

  /**
   The blocker's inner end lies three metres ahead of the tip and offset metres farther out; from there the blocker runs
   length metres back along the segment and outwards, at 30 degrees.
   */
  lemma BlockerInFrame(g: Genome, s: Segment, trig: real -> Vec, offset: real) returns (inner: Vec, outer: Vec)
    requires Decodable(g, s, trig)
    ensures WallAxis(BlockerAt(g, s, trig, offset)) in {(inner, outer), (outer, inner)}
    ensures Ahead(s, inner, Tip(g, s, trig)) == 3.0 && Aside(s, g.side, inner, Tip(g, s, trig)) == offset
    ensures Ahead(s, outer, inner) == -(g.length * trig(30.0).x)
    ensures Aside(s, g.side, outer, inner) == g.length * trig(30.0).y
  {
    hide Ahead, Aside, Direction, SideNormal, TiltedAxis, Step, Dot, InRange, IsSegment, Tip, MakeWall, WallAxis;
    DecodableParts(g, s, trig);
    RangesUsed(g);
    var tip, u, n := Tip(g, s, trig), Direction(s), SideNormal(s);
    var b := TiltedAxis(s, -g.side, trig(GATE_BLOCKER_DEG));
    var axis := Vec(-b.x, -b.y);
    var ahead := Step(tip, u, GATE_AHEAD_M);
    inner := Step(ahead, n, offset * g.side as real);
    outer := Step(inner, axis, g.length);
    MakeWallAxis(inner, axis, g.length, WALL_THICKNESS_M);
    InnerEndInFrame(s, g.side, tip, offset);
    TiltedAxisFrame(s, -g.side, trig(GATE_BLOCKER_DEG));
    StepInFrame(s, g.side, inner, axis, g.length);
    NegatedDots(b, u, n, g.side, trig(GATE_BLOCKER_DEG), g.length);
  }

  lemma NegatedDots(b: Vec, u: Vec, n: Vec, side: int, tilt: Vec, length: real)
    requires Dot(b, u) == tilt.x && Dot(b, n) * (-side) as real == tilt.y
    ensures length * Dot(Vec(-b.x, -b.y), u) == -(length * tilt.x)
    ensures length * (Dot(Vec(-b.x, -b.y), n) * side as real) == length * tilt.y
  {
    var d, e := Dot(b, u), Dot(b, n);
    assert Dot(Vec(-b.x, -b.y), u) == -d && Dot(Vec(-b.x, -b.y), n) == -e;
    assert (-e) * side as real == e * (-side) as real;
  }

  lemma InnerEndInFrame(s: Segment, side: int, tip: Vec, offset: real)
    requires IsSegment(s) && (side == 1 || side == -1)
    ensures var inner := Step(Step(tip, Direction(s), GATE_AHEAD_M), SideNormal(s), offset * side as real);
            Ahead(s, inner, tip) == GATE_AHEAD_M && Aside(s, side, inner, tip) == offset
  {
    hide Direction;
    DirectionIsUnit(s);
    var u, k := Direction(s), offset * side as real;
    InnerScalars(u, k, side as real, offset, GATE_AHEAD_M);
    var inner := Step(Step(tip, u, GATE_AHEAD_M), SideNormal(s), k);
    assert Sub(inner, tip) == Vec(GATE_AHEAD_M * u.x + k * u.y, GATE_AHEAD_M * u.y + k * -u.x);
  }

  lemma InnerScalars(u: Vec, k: real, side: real, offset: real, ahead: real)
    requires NormSq(u) == 1.0 && (side == 1.0 || side == -1.0) && k == offset * side
    ensures var w := Vec(ahead * u.x + k * u.y, ahead * u.y + k * -u.x);
            Dot(w, u) == ahead && Dot(w, Vec(u.y, -u.x)) * side == offset
  {
    var w := Vec(ahead * u.x + k * u.y, ahead * u.y + k * -u.x);
    assert Dot(w, u) == ahead * (u.x * u.x + u.y * u.y);
    assert Dot(w, Vec(u.y, -u.x)) == k * (u.x * u.x + u.y * u.y);
    assert k * side == offset;
  }

  // ---- crossing other segments ------------------------------------------------------------------

  /** The k-th segment is another one, and the long axis of the i-th wall has a point in common with it. */
  ghost predicate Cuts(boxes: seq<Box>, segments: seq<Segment>, own: int, i: int, k: int) {
    && 0 <= i < |boxes| && 0 <= k < |segments| && segments[k].index != own
    && Meet(WallAxis(boxes[i]).0, WallAxis(boxes[i]).1, segments[k].a, segments[k].b)
  }

  /** A layout that cuts another segment is reported. */
  lemma CuttingIsReported(boxes: seq<Box>, segments: seq<Segment>, own: int, i: int, k: int)
    requires Cuts(boxes, segments, own, i, k) && Proper(segments[k].a, segments[k].b)
    requires Proper(WallAxis(boxes[i]).0, WallAxis(boxes[i]).1)
    ensures CrossesOtherSegment(boxes, segments, own)
  {
    hide WallAxis, SegmentsIntersect, Proper;
    var p, q := WallAxis(boxes[i]).0, WallAxis(boxes[i]).1;
    var t, u :| MeetAt(p, q, segments[k].a, segments[k].b, t, u);
    MeetingIsReported(p, q, segments[k].a, segments[k].b, t, u);
  }

  /** The long axis of the i-th wall comes within the tolerance of another segment, the k-th. */
  ghost predicate Grazes(boxes: seq<Box>, segments: seq<Segment>, own: int, i: int, k: int) {
    && 0 <= i < |boxes| && 0 <= k < |segments| && segments[k].index != own
    && exists t, u :: Near(WallAxis(boxes[i]), segments[k], t, u)
  }

  ghost predicate Near(axis: (Vec, Vec), s: Segment, t: real, u: real) {
    && 0.0 <= t <= 1.0 && 0.0 <= u <= 1.0
    && DistSq(Lerp(axis.0, axis.1, t), Lerp(s.a, s.b, u)) < OVERLAP_EPS * OVERLAP_EPS
  }

  /** Only layouts that come within the tolerance of another segment are. */
  lemma ReportedIsNear(boxes: seq<Box>, segments: seq<Segment>, own: int)
    requires CrossesOtherSegment(boxes, segments, own)
    ensures exists i, k :: Grazes(boxes, segments, own, i, k)
  {
    hide WallAxis, SegmentsIntersect;
    var i, k :| 0 <= i < |boxes| && 0 <= k < |segments| && segments[k].index != own
      && SegmentsIntersect(WallAxis(boxes[i]).0, WallAxis(boxes[i]).1, segments[k].a, segments[k].b);
    var axis := WallAxis(boxes[i]);
    var t, u := SegmentDistanceIsAttained(axis.0, axis.1, segments[k].a, segments[k].b);
    assert Near(axis, segments[k], t, u);
    assert Grazes(boxes, segments, own, i, k);
  }
}
