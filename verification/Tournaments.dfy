/** Who is better than whom, and the tournaments inside a niche (generator.py). Random draws are arbitrary choices. */
module Tournaments {
  import opened Scoring
  import opened Suite
  import opened Sorting
  import opened Individuals

  method Uniform() returns (f: real)
    ensures 0.0 <= f <= 1.0
  {
    f := *;
    if f < 0.0 || f > 1.0 { f := 0.0; }
  }

  method Choose<T>(xs: seq<T>) returns (i: nat)
    requires xs != []
    ensures i < |xs|
  {
    i := *;
    if i >= |xs| { i := 0; }
  }

  // ---- the order of the search phase ------------------------------------------------------------

  predicate Less(a: Extended, b: Extended) { a.Finite? && (b.Infinite? || a.r < b.r) }

  /** The sort key of the search phase, most important element first; lower is better throughout. */
  datatype Key = Key(fitness: Extended, count: nat, meanDistance: Extended, meanDuration: Extended)

  function MeanOrInfinite(xs: seq<real>): Extended { if xs == [] then Infinite else Finite(Mean(xs)) }

  function SelectionKey(x: Individual): Key
    reads x
  {
    Key(x.fitness, |x.obstacles|, MeanOrInfinite(x.distances), MeanOrInfinite(x.flightDurations))
  }

  predicate KeyLe(a: Key, b: Key) {
    Less(a.fitness, b.fitness) || (a.fitness == b.fitness && (a.count < b.count || (a.count == b.count &&
    (Less(a.meanDistance, b.meanDistance)
      || (a.meanDistance == b.meanDistance && !Less(b.meanDuration, a.meanDuration))))))
  }

  /** An individual and its state at some moment. */
  datatype Member = Member(who: Individual, life: Vitals)

  /** The population and the state of everyone in it. */
  ghost function Census(pop: seq<Individual>): (census: seq<Member>)
    reads pop
    ensures |census| == |pop| && forall i :: 0 <= i < |pop| ==> census[i] == Member(pop[i], pop[i].View())
  {
    seq(|pop|, i requires 0 <= i < |pop| reads pop => Member(pop[i], pop[i].View()))
  }

  ghost function KeyOf(m: Member): Key {
    Key(m.life.fitness, |m.who.obstacles|, MeanOrInfinite(m.life.distances), MeanOrInfinite(m.life.flightDurations))
  }

  /** Lower on average, compared without division; no runs at all is more than anything. */
  ghost predicate LowerMean(xs: seq<real>, ys: seq<real>) {
    xs != [] && (ys == [] || Sum(xs) * |ys| as real < Sum(ys) * |xs| as real)
  }

  /** Fitter; else with fewer obstacles; else closer to them; else faster. Infinite fitness is the worst. */
  ghost predicate Beats(m: Member, n: Member) {
    var f, g := m.life.fitness, n.life.fitness;
    || (f.Finite? && (g.Infinite? || f.r < g.r))
    || (f == g && |m.who.obstacles| < |n.who.obstacles|)
    || (f == g && |m.who.obstacles| == |n.who.obstacles|
        && (LowerMean(m.life.distances, n.life.distances)
            || (!LowerMean(n.life.distances, m.life.distances)
                && LowerMean(m.life.flightDurations, n.life.flightDurations))))
  }

  /** Keys compare as the individuals do. */
  lemma KeysMean(m: Member, n: Member)
    ensures KeyLe(KeyOf(m), KeyOf(n)) <==> !Beats(n, m)
  {
    hide Sum, Mean, LowerMean, MeanOrInfinite;
    MeansOrder(m.life.distances, n.life.distances);
    MeansOrder(n.life.distances, m.life.distances);
    MeansOrder(n.life.flightDurations, m.life.flightDurations);
  }

  lemma MeansOrder(xs: seq<real>, ys: seq<real>)
    ensures Less(MeanOrInfinite(xs), MeanOrInfinite(ys)) <==> LowerMean(xs, ys)
    ensures MeanOrInfinite(xs) == MeanOrInfinite(ys) <==> !LowerMean(xs, ys) && !LowerMean(ys, xs)
  {
    hide Sum, Mean;
    if xs != [] && ys != [] {
      MeanTimesLength(xs);
      MeanTimesLength(ys);
      MeansScale(Mean(xs), Mean(ys), |xs| as real, |ys| as real, Sum(xs), Sum(ys), Sum(xs) * |ys| as real,
                 Sum(ys) * |xs| as real);
    }
  }

  lemma MeansScale(x: real, y: real, n: real, m: real, a: real, b: real, am: real, bn: real)
    requires n > 0.0 && m > 0.0 && x * n == a && y * m == b && am == a * m && bn == b * n
    ensures (x < y <==> am < bn) && (x == y <==> am == bn)
  {
    var nm := n * m;
    assert nm > 0.0;
    assert am == x * nm && bn == y * nm;
    if x < y { assert (y - x) * nm > 0.0; }
    if y < x { assert (x - y) * nm > 0.0; }
  }

  /** A place in the pool and the key of its member. */
  datatype Entry = Entry(key: Key, place: nat)

  predicate EntryLe(a: Entry, b: Entry) { KeyLe(a.key, b.key) }

  lemma EntryOrder()
    ensures TotalPreorder(EntryLe)
  {}

  lemma KeyOrder(a: Key, b: Key, c: Key)
    ensures KeyLe(a, b) || KeyLe(b, a)
    ensures KeyLe(a, b) && KeyLe(b, c) ==> KeyLe(a, c)
    ensures KeyLe(a, b) ==> ExtendedLe(a.fitness, b.fitness)
  {}

  /** Sorting entries permutes their places. */
  lemma SortedPlaces(entries: seq<Entry>)
    requires forall k :: 0 <= k < |entries| ==> entries[k].place == k
    ensures var order := Sort(entries, EntryLe);
            && |order| == |entries|
            && (forall i :: 0 <= i < |order| ==> order[i].place < |entries| && order[i] == entries[order[i].place])
            && (forall i, j :: 0 <= i < j < |order| ==>
                 order[i].place != order[j].place && KeyLe(order[i].key, order[j].key))
            && (forall k :: 0 <= k < |entries| ==> entries[k] in order)
  {
    hide KeyLe, Sort;
    assert Distinct(entries);
    EntryOrder();
    SortOrders(entries, EntryLe);
    SortKeeps(entries, EntryLe);
    SortMembers(entries, EntryLe);
    SortDistinct(entries, EntryLe);
    var order := Sort(entries, EntryLe);
    forall i | 0 <= i < |order| ensures order[i].place < |entries| && order[i] == entries[order[i].place] {
      assert order[i] in entries;
    }
    forall i, j | 0 <= i < j < |order|
      ensures order[i].place != order[j].place && KeyLe(order[i].key, order[j].key)
    {
      assert order[i] != order[j] && EntryLe(order[i], order[j]);
    }
  }

  /** sorted(pool, key=searchSelectionKey) */
  method SortPool(pool: seq<Individual>) returns (sorted: seq<Individual>)
    requires Distinct(pool)
    ensures |sorted| == |pool| && Distinct(sorted)
    ensures forall i :: 0 <= i < |sorted| ==> sorted[i] in pool
    ensures forall i :: 0 <= i < |pool| ==> pool[i] in sorted
    ensures forall i, j :: 0 <= i < j < |sorted| ==> KeyLe(SelectionKey(sorted[i]), SelectionKey(sorted[j]))
  {
    hide KeyLe, SelectionKey, Sort;
    var entries: seq<Entry> := [];
    for i := 0 to |pool|
      invariant |entries| == i && forall k :: 0 <= k < i ==> entries[k] == Entry(SelectionKey(pool[k]), k)
    {
      entries := entries + [Entry(SelectionKey(pool[i]), i)];
    }
    SortedPlaces(entries);
    var order := Sort(entries, EntryLe);
    sorted := [];
    for i := 0 to |order|
      invariant |sorted| == i && forall k :: 0 <= k < i ==> sorted[k] == pool[order[k].place]
    {
      sorted := sorted + [pool[order[i].place]];
    }
    forall k | 0 <= k < |pool| ensures pool[k] in sorted {
      var i :| 0 <= i < |order| && order[i] == entries[k];
      assert sorted[i] == pool[k];
    }
  }

  /** The members of a niche, in order; if wanted, only the legal ones. */
  method PoolOf(pop: seq<Individual>, niche: nat, onlyLegal: bool) returns (pool: seq<Individual>, ghost at: seq<nat>)
    ensures |at| == |pool| && forall m :: 0 <= m < |at| ==> at[m] < |pop| && pool[m] == pop[at[m]]
    ensures forall m, n :: 0 <= m < n < |at| ==> at[m] < at[n]
    ensures forall i :: i in at <==> 0 <= i < |pop| && |pop[i].obstacles| == niche && (onlyLegal ==> !pop[i].illegal)
  {
    pool, at := [], [];
    for k := 0 to |pop|
      invariant |at| == |pool| && forall m :: 0 <= m < |at| ==> at[m] < k && pool[m] == pop[at[m]]
      invariant forall m, n :: 0 <= m < n < |at| ==> at[m] < at[n]
      invariant forall i :: i in at <==> 0 <= i < k && |pop[i].obstacles| == niche && (onlyLegal ==> !pop[i].illegal)
    {
      if |pop[k].obstacles| == niche && (!onlyLegal || !pop[k].illegal) {
        pool, at := pool + [pop[k]], at + [k];
      }
    }
  }

  // ---- tournaments ------------------------------------------------------------------------------

  ghost predicate Legal(niche: nat, m: Member) { |m.who.obstacles| == niche && !m.life.illegal }

  /** Contenders are the legal members of the niche, or everybody if there are none. */
  ghost predicate Contends(census: seq<Member>, niche: nat, m: Member) {
    Legal(niche, m) || forall i :: 0 <= i < |census| ==> !Legal(niche, census[i])
  }

  /** The member is the best of k contenders at the given places, or of all of them if there are no more. */
  ghost predicate WinsAgainst(places: set<nat>, k: nat, census: seq<Member>, niche: nat, w: nat) {
    && w in places && |places| <= k
    && (forall i :: i in places ==> i < |census| && Contends(census, niche, census[i]))
    && (forall i :: i in places && w < |census| && i < |census| ==> KeyLe(KeyOf(census[w]), KeyOf(census[i])))
    && (|places| < k ==> forall i :: 0 <= i < |census| && Contends(census, niche, census[i]) ==> i in places)
  }

  ghost predicate Wins(k: nat, census: seq<Member>, niche: nat, w: nat) {
    exists places :: WinsAgainst(places, k, census, niche, w)
  }

  /** The best of an arbitrary sample without repetition. */
  method Tournament(cfg: Config, pop: seq<Individual>, niche: nat) returns (winner: Individual, ghost w: nat)
    requires pop != [] && cfg.tournamentK >= 1
    ensures w < |pop| && pop[w] == winner && Wins(cfg.tournamentK, Census(pop), niche, w)
  {
    hide KeyLe, SelectionKey, WinsAgainst, Contends;
    var pool, at := PoolOf(pop, niche, true);
    if pool == [] {
      pool, at := pop, seq(|pop|, i => i);
    }
    PoolContends(pop, at, niche);
    var best, drawn := BestOfSample(pool, Least(cfg.tournamentK, |pool|));
    winner, w := pool[best], at[best];
    ghost var census := Census(pop);
    forall m | m in drawn ensures KeyLe(KeyOf(census[w]), KeyOf(census[at[m]])) { KeysAgree(pop, w, at[m]); }
    BestOfDrawn(cfg.tournamentK, census, at, niche, drawn, best);
  }

  method BestOfSample(pool: seq<Individual>, size: nat) returns (best: nat, drawn: set<nat>)
    requires 1 <= size <= |pool|
    ensures best in drawn && |drawn| == size && forall i :: i in drawn ==> i < |pool|
    ensures forall i :: i in drawn ==> KeyLe(SelectionKey(pool[best]), SelectionKey(pool[i]))
  {
    hide KeyLe, SelectionKey;
    best := Choose(pool);
    drawn := {best};
    KeyOrder(SelectionKey(pool[best]), SelectionKey(pool[best]), SelectionKey(pool[best]));
    while |drawn| < size
      invariant best in drawn && |drawn| <= size && forall i :: i in drawn ==> i < |pool|
      invariant forall i :: i in drawn ==> KeyLe(SelectionKey(pool[best]), SelectionKey(pool[i]))
    {
      var next := AnotherIndex(drawn, |pool|);
      drawn := drawn + {next};
      best := BetterOf(pool, drawn, best, next);
    }
  }

  method BetterOf(pool: seq<Individual>, ghost drawn: set<nat>, best: nat, next: nat) returns (better: nat)
    requires best in drawn && next in drawn && forall i :: i in drawn ==> i < |pool|
    requires forall i :: i in drawn && i != next ==> KeyLe(SelectionKey(pool[best]), SelectionKey(pool[i]))
    ensures better in drawn && forall i :: i in drawn ==> KeyLe(SelectionKey(pool[better]), SelectionKey(pool[i]))
  {
    hide KeyLe, SelectionKey;
    KeyOrder(SelectionKey(pool[next]), SelectionKey(pool[next]), SelectionKey(pool[next]));
    KeyOrder(SelectionKey(pool[next]), SelectionKey(pool[best]), SelectionKey(pool[best]));
    better := if KeyLe(SelectionKey(pool[best]), SelectionKey(pool[next])) then best else next;
    forall i | i in drawn ensures KeyLe(SelectionKey(pool[better]), SelectionKey(pool[i])) {
      KeyOrder(SelectionKey(pool[next]), SelectionKey(pool[best]), SelectionKey(pool[i]));
    }
  }

  lemma KeysAgree(pop: seq<Individual>, i: nat, j: nat)
    requires i < |pop| && j < |pop|
    ensures KeyLe(SelectionKey(pop[i]), SelectionKey(pop[j])) <==> KeyLe(KeyOf(Census(pop)[i]), KeyOf(Census(pop)[j]))
  {
    hide KeyLe, MeanOrInfinite;
  }

  lemma PoolContends(pop: seq<Individual>, at: seq<nat>, niche: nat)
    requires (forall i :: i in at <==> 0 <= i < |pop| && |pop[i].obstacles| == niche && !pop[i].illegal)
          || (at == seq(|pop|, i => i) && forall i :: 0 <= i < |pop| ==> |pop[i].obstacles| != niche || pop[i].illegal)
    requires at == [] ==> pop == []
    ensures forall i :: i in at <==> 0 <= i < |pop| && Contends(Census(pop), niche, Census(pop)[i])
  {
    var census := Census(pop);
    forall i | 0 <= i < |pop| ensures Legal(niche, census[i]) <==> |pop[i].obstacles| == niche && !pop[i].illegal {}
    if at == seq(|pop|, i => i) && forall i :: 0 <= i < |pop| ==> |pop[i].obstacles| != niche || pop[i].illegal {
      forall i | 0 <= i < |pop| ensures i in at { assert at[i] == i; }
    } else {
      var j := at[0];
      assert j in at && Legal(niche, census[j]);
    }
  }

  lemma BestOfDrawn(k: nat, census: seq<Member>, at: seq<nat>, niche: nat, drawn: set<nat>, best: nat)
    requires best in drawn && |drawn| == Least(k, |at|) && forall m, n :: 0 <= m < n < |at| ==> at[m] < at[n]
    requires forall i :: i in at <==> 0 <= i < |census| && Contends(census, niche, census[i])
    requires forall m :: m in drawn ==> m < |at|
    requires at[best] < |census| && forall m :: m in drawn ==>
               at[m] < |census| && KeyLe(KeyOf(census[at[best]]), KeyOf(census[at[m]]))
    ensures Wins(k, census, niche, at[best])
  {
    hide KeyLe, KeyOf, Contends;
    var places := set m | m in drawn :: at[m];
    PlacesCount(at, drawn);
    if |places| < k {
      AllDrawn(drawn, |at|);
      forall i | 0 <= i < |census| && Contends(census, niche, census[i]) ensures i in places {
        var m :| 0 <= m < |at| && at[m] == i;
        assert m in drawn;
      }
    }
    assert WinsAgainst(places, k, census, niche, at[best]);
  }

  lemma {:induction false} PlacesCount(at: seq<nat>, drawn: set<nat>)
    requires forall m, n :: 0 <= m < n < |at| ==> at[m] < at[n]
    requires forall m :: m in drawn ==> m < |at|
    ensures |set m | m in drawn :: at[m]| == |drawn|
    decreases drawn
  {
    if d :| d in drawn {
      PlacesCount(at, drawn - {d});
      assert (set m | m in drawn :: at[m]) == (set m | m in drawn - {d} :: at[m]) + {at[d]};
    }
  }

  lemma AllDrawn(drawn: set<nat>, n: nat)
    requires |drawn| == n && forall i :: i in drawn ==> i < n
    ensures forall i: nat :: i < n ==> i in drawn
  {
    if i: nat :| i < n && i !in drawn {
      SomeIndexOut(drawn + {i}, n);
    }
  }

  lemma {:induction false} SomeIndexOut(drawn: set<nat>, n: nat)
    requires |drawn| > n
    ensures exists i :: i in drawn && i >= n
  {
    if n == 0 {
      var i :| i in drawn;
    } else {
      SomeIndexOut(drawn - {n - 1}, n - 1);
      var i :| i in drawn - {n - 1} && i >= n - 1;
    }
  }

  method AnotherIndex(drawn: set<nat>, n: nat) returns (i: nat)
    requires |drawn| < n
    ensures i < n && i !in drawn
  {
    SomeIndexLeft(drawn, n);
    i :| i < n && i !in drawn;
  }

  lemma {:induction false} SomeIndexLeft(drawn: set<nat>, n: nat)
    requires |drawn| < n
    ensures exists i: nat :: i < n && i !in drawn
  {
    if n - 1 in drawn {
      SomeIndexLeft(drawn - {n - 1}, n - 1);
      var i: nat :| i < n - 1 && i !in drawn - {n - 1};
      assert i !in drawn;
    }
  }
}
