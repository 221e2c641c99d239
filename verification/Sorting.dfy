/** Python's sorted: a stable sort by a total preorder. */
module Sorting {

  /** Puts x before the first element it does not have to follow. */
  function Insert<T>(x: T, xs: seq<T>, le: (T, T) -> bool): seq<T> {
    if xs == [] then [x]
    else if le(x, xs[0]) then [x] + xs
    else [xs[0]] + Insert(x, xs[1..], le)
  }

  function Sort<T>(xs: seq<T>, le: (T, T) -> bool): seq<T> {
    if xs == [] then [] else Insert(xs[0], Sort(xs[1..], le), le)
  }

  ghost predicate TotalPreorder<T(!new)>(le: (T, T) -> bool) {
    && (forall a, b :: le(a, b) || le(b, a))
    && (forall a, b, c :: le(a, b) && le(b, c) ==> le(a, c))
  }

  ghost predicate Ordered<T>(xs: seq<T>, le: (T, T) -> bool) {
    forall i, j :: 0 <= i < j < |xs| ==> le(xs[i], xs[j])
  }

  lemma {:induction false} InsertKeeps<T>(x: T, xs: seq<T>, le: (T, T) -> bool)
    ensures multiset(Insert(x, xs, le)) == multiset{x} + multiset(xs)
    ensures |Insert(x, xs, le)| == |xs| + 1
  {
    if xs != [] {
      assert xs == [xs[0]] + xs[1..];
      if !le(x, xs[0]) { InsertKeeps(x, xs[1..], le); }
    }
  }

  lemma {:induction false} SortKeeps<T>(xs: seq<T>, le: (T, T) -> bool)
    ensures multiset(Sort(xs, le)) == multiset(xs) && |Sort(xs, le)| == |xs|
  {
    if xs != [] {
      assert xs == [xs[0]] + xs[1..];
      SortKeeps(xs[1..], le);
      InsertKeeps(xs[0], Sort(xs[1..], le), le);
    }
  }

  lemma {:induction false} InsertOrders<T(!new)>(x: T, xs: seq<T>, le: (T, T) -> bool)
    requires TotalPreorder(le) && Ordered(xs, le)
    ensures Ordered(Insert(x, xs, le), le)
  {
    if xs != [] {
      if le(x, xs[0]) {
        assert forall i :: 0 <= i < |xs| ==> le(x, xs[i]);
      } else {
        var rest := Insert(x, xs[1..], le);
        InsertOrders(x, xs[1..], le);
        InsertKeeps(x, xs[1..], le);
        forall i | 0 <= i < |rest| ensures le(xs[0], rest[i]) {
          assert rest[i] in multiset(rest);
          if rest[i] != x {
            assert rest[i] in xs[1..];
          }
        }
      }
    }
  }

  lemma {:induction false} SortOrders<T(!new)>(xs: seq<T>, le: (T, T) -> bool)
    requires TotalPreorder(le)
    ensures Ordered(Sort(xs, le), le)
  {
    if xs != [] {
      SortOrders(xs[1..], le);
      InsertOrders(xs[0], Sort(xs[1..], le), le);
    }
  }

  lemma SortMembers<T>(xs: seq<T>, le: (T, T) -> bool)
    ensures forall x :: x in Sort(xs, le) <==> x in xs
  {
    SortKeeps(xs, le);
    forall x ensures x in Sort(xs, le) <==> x in xs {
      assert x in Sort(xs, le) <==> x in multiset(Sort(xs, le));
      assert x in xs <==> x in multiset(xs);
    }
  }

  ghost predicate Distinct<T>(xs: seq<T>) {
    forall i, j :: 0 <= i < j < |xs| ==> xs[i] != xs[j]
  }

  lemma {:induction false} DistinctCounts<T>(xs: seq<T>)
    ensures Distinct(xs) <==> forall x :: x in xs ==> multiset(xs)[x] == 1
  {
    if xs != [] {
      var n := |xs| - 1;
      DistinctCounts(xs[..n]);
      assert xs == xs[..n] + [xs[n]];
      if Distinct(xs) {
        assert xs[n] !in xs[..n];
        assert Distinct(xs[..n]);
      } else if forall x :: x in xs ==> multiset(xs)[x] == 1 {
        assert xs[n] in xs && multiset(xs)[xs[n]] == 1;
        assert xs[n] !in multiset(xs[..n]);
        assert xs[n] !in xs[..n];
        forall x | x in xs[..n] ensures multiset(xs[..n])[x] == 1 { assert x in xs; }
        assert false;
      }
    }
  }

  lemma SortDistinct<T>(xs: seq<T>, le: (T, T) -> bool)
    requires Distinct(xs)
    ensures Distinct(Sort(xs, le))
  {
    SortKeeps(xs, le);
    SortMembers(xs, le);
    DistinctCounts(xs);
    DistinctCounts(Sort(xs, le));
  }

  // ---- stability --------------------------------------------------------------------------------

  /** The elements that rank with x, in the order of the list. */
  ghost function Tied<T>(xs: seq<T>, x: T, le: (T, T) -> bool): seq<T> {
    if xs == [] then [] else (if Ties(x, xs[0], le) then [xs[0]] else []) + Tied(xs[1..], x, le)
  }

  predicate Ties<T>(x: T, y: T, le: (T, T) -> bool) { le(x, y) && le(y, x) }

  lemma TiedStep<T>(y: T, xs: seq<T>, x: T, le: (T, T) -> bool)
    ensures Tied([y] + xs, x, le) == (if Ties(x, y, le) then [y] else []) + Tied(xs, x, le)
  {
    assert ([y] + xs)[1..] == xs;
  }

  lemma TiesAreRanked<T(!new)>(x: T, y: T, z: T, le: (T, T) -> bool)
    requires TotalPreorder(le) && Ties(x, y, le) && Ties(x, z, le)
    ensures le(y, z)
  {}

  lemma {:induction false} InsertKeepsTies<T(!new)>(y: T, xs: seq<T>, x: T, le: (T, T) -> bool)
    requires TotalPreorder(le)
    ensures Tied(Insert(y, xs, le), x, le) == Tied([y] + xs, x, le)
  {
    hide TotalPreorder, Tied, Ties;
    if xs == [] {
      assert [y] + xs == [y];
    } else if !le(y, xs[0]) {
      var z, rest := xs[0], xs[1..];
      InsertKeepsTies(y, rest, x, le);
      TiedStep(z, Insert(y, rest, le), x, le);
      TiedStep(y, rest, x, le);
      TiedStep(y, xs, x, le);
      TiedStep(z, rest, x, le);
      assert xs == [z] + rest;
      if Ties(x, y, le) && Ties(x, z, le) { TiesAreRanked(x, y, z, le); }
    }
  }

  /** Elements of one rank keep their order. */
  lemma {:induction false} SortIsStable<T(!new)>(xs: seq<T>, x: T, le: (T, T) -> bool)
    requires TotalPreorder(le)
    ensures Tied(Sort(xs, le), x, le) == Tied(xs, x, le)
  {
    hide Tied, TotalPreorder;
    if xs != [] {
      SortIsStable(xs[1..], x, le);
      InsertKeepsTies(xs[0], Sort(xs[1..], le), x, le);
      TiedStep(xs[0], Sort(xs[1..], le), x, le);
      TiedStep(xs[0], xs[1..], x, le);
      assert xs == [xs[0]] + xs[1..];
    }
  }
}
