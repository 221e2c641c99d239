/** The path-relative genome of a test (genes.py). Random draws are parameters. */
module Genes {
  import opened Plane

  datatype Kind = Wall | Gate

  datatype GeneName = T | CrossingDeg | Length | Overhang | GateWidth

  datatype Genome = Genome(kind: Kind, segment: nat, side: int, t: real, crossingDeg: real, length: real,
                           overhang: real, gateWidth: real)

  datatype Range = Range(lo: real, hi: real)

  function MutableGenes(kind: Kind): seq<GeneName> {
    if kind == Wall then [T, CrossingDeg, Length, Overhang] else [T, CrossingDeg, Length, Overhang, GateWidth]
  }

  function GeneRange(kind: Kind, name: GeneName): Range {
    match name
    case T => Range(0.2, 0.8)
    case CrossingDeg => if kind == Wall then Range(35.0, 55.0) else Range(40.0, 55.0)
    case Length => if kind == Wall then Range(17.0, 20.0) else Range(18.0, 20.0)
    case Overhang => if kind == Wall then Range(6.0, 10.0) else Range(3.5, 6.0)
    case GateWidth => if kind == Wall then Range(0.0, 0.0) else Range(7.0, 10.0)
  }

  function Get(g: Genome, name: GeneName): real {
    match name
    case T => g.t
    case CrossingDeg => g.crossingDeg
    case Length => g.length
    case Overhang => g.overhang
    case GateWidth => g.gateWidth
  }

  function Set(g: Genome, name: GeneName, v: real): Genome {
    match name
    case T => g.(t := v)
    case CrossingDeg => g.(crossingDeg := v)
    case Length => g.(length := v)
    case Overhang => g.(overhang := v)
    case GateWidth => g.(gateWidth := v)
  }

  /** Every gene lies in the range of its kind; a wall keeps the default gate width of zero. */
  ghost predicate InRange(g: Genome) {
    forall name :: GeneRange(g.kind, name).lo <= Get(g, name) <= GeneRange(g.kind, name).hi
  }

  /** The ranges of the two kinds, gene by gene. */
  lemma RangesMean(g: Genome)
    ensures InRange(g) <==>
              && 0.2 <= g.t <= 0.8
              && if g.kind == Wall then
                   && 35.0 <= g.crossingDeg <= 55.0 && 17.0 <= g.length <= 20.0 && 6.0 <= g.overhang <= 10.0
                   && g.gateWidth == 0.0
                 else
                   && 40.0 <= g.crossingDeg <= 55.0 && 18.0 <= g.length <= 20.0 && 3.5 <= g.overhang <= 6.0
                   && 7.0 <= g.gateWidth <= 10.0
  {
    if InRange(g) {
      InRangeAt(g, T);
      InRangeAt(g, CrossingDeg);
      InRangeAt(g, Length);
      InRangeAt(g, Overhang);
      InRangeAt(g, GateWidth);
    }
  }

  lemma InRangeAt(g: Genome, name: GeneName)
    requires InRange(g)
    ensures GeneRange(g.kind, name).lo <= Get(g, name) <= GeneRange(g.kind, name).hi
  {}

  predicate SameFrame(a: Genome, b: Genome) { a.kind == b.kind && a.segment == b.segment && a.side == b.side }

  function Clamp(r: Range, v: real): real { Min(r.hi, Max(r.lo, v)) }

  /** Fresh genes: each fraction in [0, 1] places a gene uniformly inside its range. */
  function RandomGenes(kind: Kind, segment: nat, side: int, draws: GeneName -> real): (g: Genome)
    requires forall name :: 0.0 <= draws(name) <= 1.0
    ensures InRange(g) && g.kind == kind && g.segment == segment && g.side == side
  {
    var at := (name: GeneName) => Along(GeneRange(kind, name).lo, GeneRange(kind, name).hi, draws(name));
    var g := Genome(kind, segment, side, at(T), at(CrossingDeg), at(Length), at(Overhang), at(GateWidth));
    assert InRange(g) by { UniformDrawsInRange(kind, g, draws); }
    g
  }

  lemma UniformDrawsInRange(kind: Kind, g: Genome, draws: GeneName -> real)
    requires g.kind == kind && forall name :: 0.0 <= draws(name) <= 1.0
    requires forall name :: Get(g, name) == Along(GeneRange(kind, name).lo, GeneRange(kind, name).hi, draws(name))
    ensures InRange(g)
  {
    forall name ensures GeneRange(kind, name).lo <= Get(g, name) <= GeneRange(kind, name).hi {
      var r := GeneRange(kind, name);
      ProductNonNeg(draws(name), r.hi - r.lo);
      ProductLe(draws(name), 1.0, r.hi - r.lo);
    }
  }

  /** The first of ten steps that survives clamping, or none. */
  method FirstDraw(range: Range, old_: real, steps: seq<real>) returns (new_: real, i: nat)
    requires |steps| == 10
    ensures i <= 10 && forall j :: 0 <= j < i ==> Clamp(range, old_ + steps[j]) == old_
    ensures new_ == (if i < 10 then Clamp(range, old_ + steps[i]) else old_) && (i < 10 ==> new_ != old_)
  {
    hide Clamp;
    new_, i := old_, 0;
    while i < 10
      invariant i <= 10 && new_ == old_ && forall j :: 0 <= j < i ==> Clamp(range, old_ + steps[j]) == old_
    {
      new_ := Clamp(range, old_ + steps[i]);
      if new_ != old_ { return; }
      i := i + 1;
    }
  }

  /** Moves one gene by the first of ten steps that survives clamping. */
  method MutateGenes(genes: Genome, name: GeneName, steps: seq<real>) returns (child: Genome)
    requires |steps| == 10 && name in MutableGenes(genes.kind)
    ensures forall other :: other != name ==> Get(child, other) == Get(genes, other)
    ensures SameFrame(genes, child)
    ensures InRange(genes) ==> InRange(child)
    ensures child == genes <==> AllClamped(genes, name, steps)
    ensures !AllClamped(genes, name, steps) ==>
              exists i :: FirstMove(genes, name, steps, i)
                          && Get(child, name) == Clamp(GeneRange(genes.kind, name), Get(genes, name) + steps[i])
  {
    hide GeneRange, Get, Set, InRange, Clamp;
    var range := GeneRange(genes.kind, name);
    RangeIsProper(genes.kind, name);
    ClampStaysIn(range);
    var new_, i := FirstDraw(range, Get(genes, name), steps);
    child := Set(genes, name, new_);
    SetOne(genes, name, new_);
    SetInRange(genes, name, new_);
    if i < 10 {
      assert [steps[i]][0] == steps[i];
      assert FirstMove(genes, name, steps, i);
    }
  }

  lemma ClampStaysIn(r: Range)
    requires r.lo <= r.hi
    ensures forall v :: r.lo <= Clamp(r, v) <= r.hi
  {}

  lemma RangeIsProper(kind: Kind, name: GeneName)
    ensures GeneRange(kind, name).lo <= GeneRange(kind, name).hi
  {}

  lemma SetOne(g: Genome, name: GeneName, v: real)
    ensures var c := Set(g, name, v);
            && (forall other :: other != name ==> Get(c, other) == Get(g, other)) && Get(c, name) == v
            && SameFrame(g, c) && (c == g <==> v == Get(g, name))
  {}

  lemma SetInRange(g: Genome, name: GeneName, v: real)
    ensures InRange(g) && GeneRange(g.kind, name).lo <= v <= GeneRange(g.kind, name).hi ==> InRange(Set(g, name, v))
  {
    hide GeneRange;
    SetOne(g, name, v);
    if InRange(g) && GeneRange(g.kind, name).lo <= v <= GeneRange(g.kind, name).hi {
      forall other ensures GeneRange(g.kind, other).lo <= Get(Set(g, name, v), other) <= GeneRange(g.kind, other).hi {}
    }
  }

  /** Mixes two parents gene by gene inside one frame, or copies one of them whole. */
  method CrossoverGenes(a: Genome, b: Genome, coins: GeneName -> bool, whole: bool) returns (child: Genome)
    ensures !SameFrame(a, b) ==> child == if whole then a else b
    ensures SameFrame(a, b) ==> SameFrame(a, child) && forall name :: name in MutableGenes(a.kind) ==>
              Get(child, name) == if coins(name) then Get(b, name) else Get(a, name)
    ensures SameFrame(child, a) || SameFrame(child, b)
    ensures forall name :: Get(child, name) == Get(a, name) || Get(child, name) == Get(b, name)
    ensures InRange(a) && InRange(b) ==> InRange(child)
  {
    if !SameFrame(a, b) {
      return if whole then a else b;
    }
    child := a;
    var names := MutableGenes(a.kind);
    for i := 0 to |names|
      invariant SameFrame(a, child)
      invariant forall name :: name !in names[..i] ==> Get(child, name) == Get(a, name)
      invariant forall name :: name in names[..i] ==>
                Get(child, name) == if coins(name) then Get(b, name) else Get(a, name)
    {
      assert names[..i + 1] == names[..i] + [names[i]];
      assert names[i] !in names[..i];
      if coins(names[i]) {
        child := Set(child, names[i], Get(b, names[i]));
      }
    }
    assert names[..|names|] == names;
  }

  /** The i-th draw is the first that is not clamped back to the old value. */
  ghost predicate FirstMove(genes: Genome, name: GeneName, steps: seq<real>, i: int) {
    0 <= i < |steps| && AllClamped(genes, name, steps[..i]) && !AllClamped(genes, name, [steps[i]])
  }

  /** Every draw of a mutation is clamped back to the old value. */
  ghost predicate AllClamped(genes: Genome, name: GeneName, steps: seq<real>) {
    forall i :: 0 <= i < |steps| ==> Clamp(GeneRange(genes.kind, name), Get(genes, name) + steps[i]) == Get(genes, name)
  }

  /** A gene at an end of its range that is only pushed outwards does not move, so the child is its parent. */
  lemma OutwardStepsAreClamped(genes: Genome, name: GeneName, steps: seq<real>)
    requires InRange(genes)
    requires var r, v := GeneRange(genes.kind, name), Get(genes, name);
             || (v == r.hi && forall i :: 0 <= i < |steps| ==> steps[i] >= 0.0)
             || (v == r.lo && forall i :: 0 <= i < |steps| ==> steps[i] <= 0.0)
    ensures AllClamped(genes, name, steps)
  {
    assert GeneRange(genes.kind, name).lo <= Get(genes, name) <= GeneRange(genes.kind, name).hi;
  }

  /** A value at an end of its range. */
  predicate AtEnd(r: Range, v: real) { v == r.lo || v == r.hi }

  /** A gene keeps its value exactly if no step would take it anywhere but out of its range. */
  lemma ClampedExactly(genes: Genome, name: GeneName, steps: seq<real>)
    requires InRange(genes) && name in MutableGenes(genes.kind)
    ensures AllClamped(genes, name, steps) <==>
              var r, v := GeneRange(genes.kind, name), Get(genes, name);
              forall i :: 0 <= i < |steps| ==>
                steps[i] == 0.0 || (steps[i] > 0.0 && v == r.hi) || (steps[i] < 0.0 && v == r.lo)
  {
    hide Get, GeneRange;
    MutableMeans(genes.kind, name);
    var r, v := GeneRange(genes.kind, name), Get(genes, name);
    assert r.lo <= v <= r.hi && r.lo < r.hi;
  }

  /** Such genes exist: a wall as far along its segment as it may be, pushed further ten times. */
  lemma ChildMayEqualParent() returns (genes: Genome, steps: seq<real>)
    ensures InRange(genes) && T in MutableGenes(genes.kind) && |steps| == 10 && AllClamped(genes, T, steps)
  {
    genes, steps := Genome(Wall, 0, 1, 0.8, 45.0, 18.0, 8.0, 0.0), seq(10, i => 0.015);
    OutwardStepsAreClamped(genes, T, steps);
  }

  /** Clamping moves a value no farther than needed. */
  lemma ClampIsNearest(r: Range, v: real, w: real)
    requires r.lo <= w <= r.hi
    ensures r.lo <= Clamp(r, v) <= r.hi && Abs(Clamp(r, v) - v) <= Abs(w - v)
  {}

  /** Mutation may touch exactly the genes whose range leaves a choice. */
  lemma MutableMeans(kind: Kind, name: GeneName)
    ensures name in MutableGenes(kind) <==> GeneRange(kind, name).lo < GeneRange(kind, name).hi
  {}

  /** All genes in range can be drawn, by fractions that say how far along their ranges they are. */
  lemma DrawsDecide(g: Genome, draws: GeneName -> real)
    requires InRange(g) && forall name :: 0.0 <= draws(name) <= 1.0
    requires forall name :: var r := GeneRange(g.kind, name); Get(g, name) - r.lo == draws(name) * (r.hi - r.lo)
    ensures RandomGenes(g.kind, g.segment, g.side, draws) == g
  {
    hide GeneRange, Get, RandomGenes;
    var drawn := RandomGenes(g.kind, g.segment, g.side, draws);
    forall name ensures Get(drawn, name) == Get(g, name) { DrawnGene(g.kind, g.segment, g.side, draws, name); }
    SameGenes(drawn, g);
  }

  lemma DrawnGene(kind: Kind, segment: nat, side: int, draws: GeneName -> real, name: GeneName)
    requires forall name :: 0.0 <= draws(name) <= 1.0
    ensures var r := GeneRange(kind, name);
            Get(RandomGenes(kind, segment, side, draws), name) == r.lo + draws(name) * (r.hi - r.lo)
  {
    hide GeneRange, InRange;
  }

  lemma SameGenes(g: Genome, h: Genome)
    requires SameFrame(g, h) && forall name :: Get(g, name) == Get(h, name)
    ensures g == h
  {
    assert Get(g, T) == Get(h, T) && Get(g, CrossingDeg) == Get(h, CrossingDeg) && Get(g, Length) == Get(h, Length);
    assert Get(g, Overhang) == Get(h, Overhang) && Get(g, GateWidth) == Get(h, GateWidth);
  }
}
