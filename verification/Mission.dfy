/** The flight segments obstacles are placed against (mission.py). */
module Mission {
  import opened Plane

  const MIN_SEGMENT_LENGTH_M := 25.0
  const ZERO_LENGTH_M := 0.000001

  /** One straight flight segment; length carries the measured distance between its ends. */
  datatype Segment = Segment(index: nat, a: Vec, b: Vec, length: real)

  /** The length is the Euclidean distance of the ends, and not zero. */
  ghost predicate IsSegment(s: Segment) { s.length > 0.0 && s.length * s.length == DistSq(s.b, s.a) }

  function Direction(s: Segment): Vec
    requires s.length != 0.0
  {
    Vec((s.b.x - s.a.x) / s.length, (s.b.y - s.a.y) / s.length)
  }

  function SideNormal(s: Segment): Vec
    requires s.length != 0.0
  {
    Vec(Direction(s).y, -Direction(s).x)
  }

  function PointAt(s: Segment, t: real): Vec { Lerp(s.a, s.b, t) }

  lemma DirectionIsUnit(s: Segment)
    requires IsSegment(s)
    ensures NormSq(Direction(s)) == 1.0 && NormSq(SideNormal(s)) == 1.0
    ensures Sub(s.b, s.a) == Scale(s.length, Direction(s))
    ensures Dot(Direction(s), SideNormal(s)) == 0.0 && Wedge(Direction(s), SideNormal(s)) == -1.0
  {
    var u, m := Direction(s), s.length;
    assert m * u.x == s.b.x - s.a.x && m * u.y == s.b.y - s.a.y;
    QuotientNorm(u, m, DistSq(s.b, s.a));
  }

  lemma QuotientNorm(u: Vec, m: real, d: real)
    requires m > 0.0 && d == m * m && d == (m * u.x) * (m * u.x) + (m * u.y) * (m * u.y)
    ensures NormSq(u) == 1.0
  {
    var k := m * m;
    ProductSign(m, m, k);
    var a, b := u.x * u.x, u.y * u.y;
    assert (m * u.x) * (m * u.x) == k * a && (m * u.y) * (m * u.y) == k * b;
    assert k * (a + b) == k * a + k * b;
    CancelUnit(k, a + b, d);
  }

  lemma CancelUnit(k: real, n: real, v: real)
    requires k > 0.0 && v == k * n && v == k
    ensures n == 1.0
  {}

  /** What math.dist promises. */
  ghost predicate Euclidean(dist: (Vec, Vec) -> real) {
    forall p, q :: dist(p, q) >= 0.0 && dist(p, q) * dist(p, q) == DistSq(q, p)
  }

  function SegmentsFrom(waypoints: seq<Vec>, dist: (Vec, Vec) -> real, i: nat): (r: seq<Segment>)
    decreases |waypoints| - i
    ensures forall k :: 0 <= k < |r| ==> i <= r[k].index
    ensures forall j, k :: 0 <= j < k < |r| ==> r[j].index < r[k].index
  {
    if i + 1 >= |waypoints| then []
    else
      var rest := SegmentsFrom(waypoints, dist, i + 1);
      var s := Segment(i, waypoints[i], waypoints[i + 1], dist(waypoints[i], waypoints[i + 1]));
      if s.length > ZERO_LENGTH_M then [s] + rest else rest
  }

  /** Every segment of the mission with a non-zero length. */
  function AllSegments(waypoints: seq<Vec>, dist: (Vec, Vec) -> real): seq<Segment> {
    SegmentsFrom(waypoints, dist, 0)
  }

  /** The indices of the segments long enough to carry a wall, in flight order. */
  function LongIndices(segments: seq<Segment>): (r: seq<nat>)
    ensures forall i :: i in r ==> exists k :: 0 <= k < |segments| && segments[k].index == i
  {
    if segments == [] then []
    else
      var rest := LongIndices(segments[1..]);
      assert forall k :: 0 <= k < |segments| - 1 ==> segments[1..][k] == segments[k + 1];
      if segments[0].length >= MIN_SEGMENT_LENGTH_M then [segments[0].index] + rest else rest
  }

  /** The segments seeds are drawn on: the long ones, or all of them when the mission has only short hops. */
  function SeedIndices(segments: seq<Segment>): seq<nat> {
    if LongIndices(segments) != [] then LongIndices(segments)
    else seq(|segments|, i requires 0 <= i < |segments| => segments[i].index)
  }

  ghost predicate Known(segments: seq<Segment>, index: nat) {
    exists k :: 0 <= k < |segments| && segments[k].index == index
  }

  lemma {:induction false} SegmentsAreMeasured(waypoints: seq<Vec>, dist: (Vec, Vec) -> real, i: nat)
    requires Euclidean(dist)
    ensures forall k :: 0 <= k < |SegmentsFrom(waypoints, dist, i)| ==> IsSegment(SegmentsFrom(waypoints, dist, i)[k])
    decreases |waypoints| - i
  {
    if i + 1 < |waypoints| {
      SegmentsAreMeasured(waypoints, dist, i + 1);
    }
  }

  /** A hop between consecutive waypoints that is longer than a micrometre. */
  ghost predicate IsHop(waypoints: seq<Vec>, dist: (Vec, Vec) -> real, s: Segment) {
    && s.index + 1 < |waypoints| && s.a == waypoints[s.index] && s.b == waypoints[s.index + 1]
    && s.length == dist(s.a, s.b) && s.length > 0.000001
  }

  /** Exactly the hops are segments. */
  lemma {:induction false} HopsAreListed(waypoints: seq<Vec>, dist: (Vec, Vec) -> real, i: nat, s: Segment)
    ensures s in SegmentsFrom(waypoints, dist, i) <==> i <= s.index && IsHop(waypoints, dist, s)
    decreases |waypoints| - i
  {
    if i + 1 < |waypoints| { HopsAreListed(waypoints, dist, i + 1, s); }
  }

  lemma AllHops(waypoints: seq<Vec>, dist: (Vec, Vec) -> real, s: Segment)
    ensures s in AllSegments(waypoints, dist) <==> IsHop(waypoints, dist, s)
  {
    HopsAreListed(waypoints, dist, 0, s);
  }

  ghost predicate IsLong(segments: seq<Segment>, k: int) { 0 <= k < |segments| && segments[k].length >= 25.0 }

  lemma {:induction false} LongMeans(segments: seq<Segment>, i: nat)
    ensures i in LongIndices(segments) <==> exists k :: IsLong(segments, k) && segments[k].index == i
  {
    if segments != [] {
      var rest := segments[1..];
      LongMeans(rest, i);
      if k :| IsLong(segments, k) && segments[k].index == i && k > 0 { assert IsLong(rest, k - 1); }
      if k :| IsLong(rest, k) && rest[k].index == i { assert IsLong(segments, k + 1) && segments[k + 1].index == i; }
      if IsLong(segments, 0) && segments[0].index == i { assert i in LongIndices(segments); }
    }
  }

  /** The segment is at least 25 m long, or no segment is. */
  ghost predicate TakesSeeds(segments: seq<Segment>, i: nat) {
    exists k :: 0 <= k < |segments| && segments[k].index == i
                && (IsLong(segments, k) || forall j :: 0 <= j < |segments| ==> segments[j].length < 25.0)
  }

  /** Seeds go on the segments of 25 m and more; on all segments if there are none. */
  lemma SeedsGoOnLongSegments(segments: seq<Segment>, i: nat)
    ensures i in SeedIndices(segments) <==> TakesSeeds(segments, i)
  {
    hide LongIndices;
    LongMeans(segments, i);
    if LongIndices(segments) == [] {
      forall j | 0 <= j < |segments| ensures segments[j].length < 25.0 {
        LongMeans(segments, segments[j].index);
        assert IsLong(segments, j) <==> segments[j].length >= 25.0;
      }
      var all := SeedIndices(segments);
      if i in all { var k :| 0 <= k < |all| && all[k] == i; }
      if k :| 0 <= k < |segments| && segments[k].index == i { assert all[k] == i; }
    } else {
      var first := LongIndices(segments)[0];
      LongMeans(segments, first);
      var k :| IsLong(segments, k) && segments[k].index == first;
    }
  }

  /** Seeds are only drawn on segments of the mission, and there is one whenever the mission has a segment. */
  lemma SeedSegmentsExist(segments: seq<Segment>)
    ensures forall i :: i in SeedIndices(segments) ==> Known(segments, i)
    ensures SeedIndices(segments) == [] <==> segments == []
  {}
}
