/** The obstacle-count schedule of one generation (generator.py): gates spread evenly over the slots. */
module Schedule {

  /** n is the nearest integer to r, the even one if there are two. */
  ghost predicate Nearest(n: int, r: real) {
    -0.5 <= n as real - r <= 0.5 && (n as real - r == 0.5 || n as real - r == -0.5 ==> n % 2 == 0)
  }

  /** Python's round: to the nearest integer, ties to the even one. */
  function RoundHalfEven(r: real): (n: int)
    ensures Nearest(n, r)
  {
    var f := r.Floor;
    var rest := r - f as real;
    if rest < 0.5 then f else if rest > 0.5 then f + 1 else if f % 2 == 0 then f else f + 1
  }

  lemma ShareBound(n: real, share: real)
    requires n >= 0.0 && 0.0 <= share <= 1.0
    ensures 0.0 <= n * share <= n
  {}

  function GateCount(popSize: nat, gateShare: real): (gates: nat)
    requires 0.0 <= gateShare <= 1.0
    ensures gates <= popSize && Nearest(gates, popSize as real * gateShare)
  {
    var r := popSize as real * gateShare;
    assert 0.0 <= r <= popSize as real by { ShareBound(popSize as real, gateShare); }
    RoundHalfEven(r)
  }

  /** Slot k is a gate exactly when the running share of gates steps over a whole number. */
  function Slots(popSize: nat, gates: nat): (counts: seq<nat>)
    ensures |counts| == popSize
  {
    seq(popSize, k requires 0 <= k < popSize => if (k + 1) * gates / popSize > k * gates / popSize then 2 else 1)
  }

  function ObstacleCountSchedule(popSize: nat, gateShare: real): (counts: seq<nat>)
    requires 0.0 <= gateShare <= 1.0
    ensures |counts| == popSize && forall k :: 0 <= k < popSize ==> counts[k] == 1 || counts[k] == 2
  {
    Slots(popSize, GateCount(popSize, gateShare))
  }

  /** How often n occurs in the list. */
  function Count(n: nat, xs: seq<nat>): nat {
    if xs == [] then 0 else Count(n, xs[..|xs| - 1]) + if xs[|xs| - 1] == n then 1 else 0
  }

  lemma DivisionBounds(x: nat, n: nat)
    requires n > 0
    ensures n * (x / n) <= x < n * (x / n) + n
  {}

  lemma QuotientUnique(x: nat, n: nat, q: int)
    requires n > 0 && n * q <= x < n * q + n
    ensures x / n == q
  {
    DivisionBounds(x, n);
    var r := x / n;
    if r < q { MulMonotone(n, r + 1, q); }
    if r > q { MulMonotone(n, q + 1, r); }
  }

  lemma MulMonotone(n: nat, a: int, b: int)
    requires a <= b
    ensures n * a <= n * b
  {}

  /** The floor of a sum is the sum of the floors, or one more. */
  lemma FloorOfSum(x: nat, y: nat, n: nat)
    requires n > 0
    ensures x / n + y / n <= (x + y) / n <= x / n + y / n + 1
  {
    DivisionBounds(x, n);
    DivisionBounds(y, n);
    var q := x / n + y / n;
    assert n * q == n * (x / n) + n * (y / n);
    assert n * (q + 1) == n * q + n;
    if x + y < n * q + n { QuotientUnique(x + y, n, q); } else { QuotientUnique(x + y, n, q + 1); }
  }

  /** Every prefix of length k holds the floor of its share of the gates. */
  lemma {:induction false} PrefixShare(popSize: nat, gates: nat, k: nat)
    requires 0 < popSize && gates <= popSize && k <= popSize
    ensures Count(2, Slots(popSize, gates)[..k]) == k * gates / popSize
  {
    var all := Slots(popSize, gates);
    if k > 0 {
      PrefixShare(popSize, gates, k - 1);
      assert all[..k][..k - 1] == all[..k - 1];
      assert k * gates == (k - 1) * gates + gates;
      FloorOfSum((k - 1) * gates, gates, popSize);
      if gates < popSize {
        QuotientUnique(gates, popSize, 0);
      } else {
        QuotientUnique(gates, popSize, 1);
        WholeShare(popSize, k);
        WholeShare(popSize, k - 1);
      }
    } else {
      QuotientUnique(0, popSize, 0);
    }
  }

  lemma WholeShare(n: nat, k: nat)
    requires n > 0
    ensures k * n / n == k
  {
    assert n * k == k * n;
    QuotientUnique(k * n, n, k);
  }

  lemma {:induction false} CountOfSplit(n: nat, xs: seq<nat>, k: nat)
    requires k <= |xs|
    ensures Count(n, xs) == Count(n, xs[..k]) + Count(n, xs[k..])
    decreases |xs|
  {
    if k == |xs| {
      assert xs[..k] == xs && xs[k..] == [];
    } else {
      var m := |xs| - 1;
      CountOfSplit(n, xs[..m], k);
      assert xs[..m][..k] == xs[..k];
      assert xs[k..][..m - k] == xs[..m][k..];
    }
  }

  /** The schedule holds exactly the requested number of gates, all other slots are walls. */
  lemma ScheduleHoldsGates(popSize: nat, gates: nat)
    requires 0 < popSize && gates <= popSize
    ensures Count(2, Slots(popSize, gates)) == gates && Count(1, Slots(popSize, gates)) == popSize - gates
  {
    var all := Slots(popSize, gates);
    assert all[..popSize] == all;
    PrefixShare(popSize, gates, popSize);
    WholeShare(popSize, gates);
    assert popSize * gates == gates * popSize;
    TwoValuesCount(all);
  }

  lemma {:induction false} TwoValuesCount(xs: seq<nat>)
    requires forall k :: 0 <= k < |xs| ==> xs[k] == 1 || xs[k] == 2
    ensures Count(1, xs) + Count(2, xs) == |xs|
  {
    if xs != [] { TwoValuesCount(xs[..|xs| - 1]); }
  }

  /** The number of gates in a window of m slots. */
  lemma WindowShare(popSize: nat, gates: nat, i: nat, m: nat)
    requires 0 < popSize && gates <= popSize && i + m <= popSize
    ensures m * gates / popSize <= Count(2, Slots(popSize, gates)[i..i + m]) <= m * gates / popSize + 1
  {
    hide Slots, Count;
    var all := Slots(popSize, gates);
    PrefixShare(popSize, gates, i);
    PrefixShare(popSize, gates, i + m);
    CountOfSplit(2, all[..i + m], i);
    assert all[..i + m][..i] == all[..i] && all[..i + m][i..] == all[i..i + m];
    assert (i + m) * gates == i * gates + m * gates;
    FloorOfSum(i * gates, m * gates, popSize);
  }

  /** Any two windows of equal length differ by at most one gate. */
  lemma WindowsAreEven(popSize: nat, gates: nat, i: nat, j: nat, m: nat)
    requires 0 < popSize && gates <= popSize && i + m <= popSize && j + m <= popSize
    ensures -1 <= Count(2, Slots(popSize, gates)[i..i + m]) - Count(2, Slots(popSize, gates)[j..j + m]) <= 1
  {
    WindowShare(popSize, gates, i, m);
    WindowShare(popSize, gates, j, m);
  }
}
