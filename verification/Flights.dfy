/** The mean trajectory of a layout's runs (suite.py). */
module Flights {
  import opened Plane
  import opened Mission
  import opened Scoring
  import opened Resample

  const RESAMPLE_POINTS: nat := 50

  /**
   n points, the k-th at the k-th of n evenly spaced arc lengths; a path without length is its first point throughout.
   */
  ghost predicate Evenly(points: seq<Vec>, dist: (Vec, Vec) -> real, n: nat, r: seq<Vec>) {
    points != [] && n >= 2 && |r| == n &&
    var total := ArcLength(points, dist, |points| - 1);
    if total > 0.0 then forall k :: 0 <= k < n ==> OnArc(points, dist, Target(total, k, n), r[k])
    else forall k :: 0 <= k < n ==> r[k] == points[0]
  }

  /** There is only one way to space n points evenly. */
  lemma EvenlyIsUnique(points: seq<Vec>, dist: (Vec, Vec) -> real, n: nat, r: seq<Vec>, s: seq<Vec>)
    requires Euclidean(dist) && Evenly(points, dist, n, r) && Evenly(points, dist, n, s)
    ensures r == s
  {
    hide Euclidean, OnArc, Target, ArcLength;
    var total := ArcLength(points, dist, |points| - 1);
    if total > 0.0 {
      forall k | 0 <= k < n ensures r[k] == s[k] { ArcPointUnique(points, dist, Target(total, k, n), r[k], s[k]); }
    }
  }

  function NonEmpty(flights: seq<seq<Vec>>): seq<seq<Vec>> {
    if flights == [] then []
    else NonEmpty(flights[..|flights| - 1]) + if flights[|flights| - 1] == [] then [] else [flights[|flights| - 1]]
  }

  /** The coordinates of the k-th points. */
  function Xs(runs: seq<seq<Vec>>, k: nat): (xs: seq<real>)
    requires forall i :: 0 <= i < |runs| ==> k < |runs[i]|
    ensures |xs| == |runs|
  {
    seq(|runs|, i requires 0 <= i < |runs| => runs[i][k].x)
  }

  function Ys(runs: seq<seq<Vec>>, k: nat): (ys: seq<real>)
    requires forall i :: 0 <= i < |runs| ==> k < |runs[i]|
    ensures |ys| == |runs|
  {
    seq(|runs|, i requires 0 <= i < |runs| => runs[i][k].y)
  }

  /** The point-wise average of paths of equal length. */
  function MeanPath(runs: seq<seq<Vec>>, n: nat): (path: seq<Vec>)
    requires forall i :: 0 <= i < |runs| ==> |runs[i]| == n
    ensures |path| == if runs == [] then 0 else n
  {
    if runs == [] then [] else seq(n, k requires 0 <= k < n => Vec(Mean(Xs(runs, k)), Mean(Ys(runs, k))))
  }

  /** One more run moves every point of the mean path by its share. */
  lemma MeanPathGrows(runs: seq<seq<Vec>>, run: seq<Vec>, n: nat, k: nat)
    requires runs != [] && k < n == |run| && forall i :: 0 <= i < |runs| ==> |runs[i]| == n
    ensures var before, after, m := MeanPath(runs, n)[k], MeanPath(runs + [run], n)[k], |runs| as real;
            && after.x * (m + 1.0) == before.x * m + run[k].x
            && after.y * (m + 1.0) == before.y * m + run[k].y
    ensures MeanPath([run], n)[k] == run[k]
  {
    hide Mean;
    var more := runs + [run];
    MeanGrows(Xs(runs, k), run[k].x);
    MeanGrows(Ys(runs, k), run[k].y);
    assert Xs(more, k) == Xs(runs, k) + [run[k].x] && Ys(more, k) == Ys(runs, k) + [run[k].y];
    assert Xs([run], k) == [run[k].x] && Ys([run], k) == [run[k].y];
  }

  lemma MeanGrows(xs: seq<real>, x: real)
    requires xs != []
    ensures Mean(xs + [x]) * (|xs| as real + 1.0) == Mean(xs) * |xs| as real + x
    ensures Mean([x]) == x
  {
    hide Mean;
    MeanTimesLength(xs);
    MeanTimesLength(xs + [x]);
    MeanTimesLength([x]);
    assert (xs + [x])[..|xs|] == xs && [x][..0] == [];
  }

  /** The runs are the non-empty flights, evenly resampled. */
  ghost predicate ResampledRuns(flights: seq<seq<Vec>>, dist: (Vec, Vec) -> real, runs: seq<seq<Vec>>) {
    var kept := NonEmpty(flights);
    && |runs| == |kept|
    && forall i :: 0 <= i < |runs| ==>
         |runs[i]| == RESAMPLE_POINTS && Evenly(kept[i], dist, RESAMPLE_POINTS, runs[i])
  }

  ghost predicate IsMeanTrajectory(flights: seq<seq<Vec>>, dist: (Vec, Vec) -> real, path: seq<Vec>) {
    exists runs :: ResampledRuns(flights, dist, runs) && path == MeanPath(runs, RESAMPLE_POINTS)
  }

  /** So the mean trajectory is determined by the flights. */
  lemma MeanTrajectoryIsUnique(flights: seq<seq<Vec>>, dist: (Vec, Vec) -> real, p: seq<Vec>, q: seq<Vec>)
    requires Euclidean(dist) && IsMeanTrajectory(flights, dist, p) && IsMeanTrajectory(flights, dist, q)
    ensures p == q
  {
    hide Euclidean, Evenly, NonEmpty, MeanPath;
    var r :| ResampledRuns(flights, dist, r) && p == MeanPath(r, RESAMPLE_POINTS);
    var s :| ResampledRuns(flights, dist, s) && q == MeanPath(s, RESAMPLE_POINTS);
    forall i | 0 <= i < |r|
      ensures r[i] == s[i]
    {
      EvenlyIsUnique(NonEmpty(flights)[i], dist, RESAMPLE_POINTS, r[i], s[i]);
    }
    assert r == s;
  }

  method MeanTrajectory(flights: seq<seq<Vec>>, dist: (Vec, Vec) -> real) returns (path: seq<Vec>)
    requires Euclidean(dist)
    ensures IsMeanTrajectory(flights, dist, path) && (path == [] || |path| == RESAMPLE_POINTS)
  {
    hide Euclidean, OnArc, Target, ArcLength;
    var runs: seq<seq<Vec>> := [];
    for i := 0 to |flights|
      invariant ResampledRuns(flights[..i], dist, runs)
    {
      assert flights[..i + 1][..i] == flights[..i];
      if flights[i] != [] {
        LengthIsNonNegative(flights[i], dist);
        var run := Resample.Resample(flights[i], RESAMPLE_POINTS, dist);
        runs := runs + [run];
      }
    }
    assert flights[..|flights|] == flights;
    path := MeanPath(runs, RESAMPLE_POINTS);
  }

  lemma LengthIsNonNegative(points: seq<Vec>, dist: (Vec, Vec) -> real)
    requires Euclidean(dist) && points != []
    ensures ArcLength(points, dist, |points| - 1) >= 0.0
  {
    ArcGrows(points, dist, 0, |points| - 1);
  }
}
