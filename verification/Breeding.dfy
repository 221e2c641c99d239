/**
 Seeding, selection and breeding inside the obstacle-count niches (generator.py). Random draws are arbitrary choices.
 */
module Breeding {
  import opened Plane
  import opened Boxes
  import opened Mission
  import opened Genes
  import opened Motifs
  import opened Suite
  import opened Sorting
  import opened Schedule
  import opened Individuals
  import opened Tournaments

  /** What a campaign is given besides its configuration: the mission, the trigonometry and the simulator's answers. */
  datatype World = World(segments: seq<Segment>, choices: seq<nat>, trig: real -> Vec, goal: Vec, sim: nat -> Reply)

  ghost predicate Sound(world: World) {
    && IsTrig(world.trig) && world.choices != []
    && (forall k :: 0 <= k < |world.segments| ==> IsSegment(world.segments[k]))
    && forall i :: 0 <= i < |world.choices| ==> Known(world.segments, world.choices[i])
  }

  /** The world of a mission: its segments, the segments seeds go on, and its last waypoint as the goal. */
  function WorldOf(waypoints: seq<Vec>, dist: (Vec, Vec) -> real, trig: real -> Vec, sim: nat -> Reply): World
    requires waypoints != []
  {
    var segments := AllSegments(waypoints, dist);
    World(segments, SeedIndices(segments), trig, waypoints[|waypoints| - 1], sim)
  }

  /** A mission that flies anywhere at all is sound. */
  lemma MissionIsSound(waypoints: seq<Vec>, dist: (Vec, Vec) -> real, trig: real -> Vec, sim: nat -> Reply)
    requires Euclidean(dist) && IsTrig(trig) && AllSegments(waypoints, dist) != []
    ensures waypoints != [] && Sound(WorldOf(waypoints, dist, trig, sim))
  {
    hide Euclidean, IsTrig, Known, IsSegment;
    var segments := AllSegments(waypoints, dist);
    SegmentsAreMeasured(waypoints, dist, 0);
    SeedSegmentsExist(segments);
  }

  /** Its segments are the hops of the mission, seeds go on the long ones, and the goal is the last waypoint. */
  lemma WorldMeans(waypoints: seq<Vec>, dist: (Vec, Vec) -> real, trig: real -> Vec, sim: nat -> Reply)
    requires waypoints != []
    ensures var w := WorldOf(waypoints, dist, trig, sim);
            && w.goal == waypoints[|waypoints| - 1] && w.trig == trig && w.sim == sim
            && (forall s :: s in w.segments <==> IsHop(waypoints, dist, s))
            && forall i :: i in w.choices <==> TakesSeeds(w.segments, i)
  {
    hide AllSegments, SeedIndices, TakesSeeds, IsHop;
    var segments := AllSegments(waypoints, dist);
    forall s ensures s in segments <==> IsHop(waypoints, dist, s) { AllHops(waypoints, dist, s); }
    forall i ensures i in SeedIndices(segments) <==> TakesSeeds(segments, i) { SeedsGoOnLongSegments(segments, i); }
  }

  function KindOf(n: nat): Kind { if n == 2 then Gate else Wall }

  ghost predicate Drawable(world: World) { forall k :: 0 <= k < |world.segments| ==> world.segments[k].length != 0.0 }

  /** The genes are in range, attack a segment of the mission, and the boxes are what they decode to. */
  ghost predicate Made(world: World, g: Genome, boxes: seq<Box>) {
    && InRange(g) && (g.side == 1 || g.side == -1) && |boxes| == (if g.kind == Gate then 2 else 1)
    && Drawable(world) && Decoded(g, world.segments, world.trig) == Some(boxes)
    && exists s :: s in world.segments && s.index == g.segment && IsSegment(s) && Depicts(boxes, g, s, world.trig)
  }

  /**
   An individual as breeding makes it: decoded from genes in range, never flown, and flagged exactly if it is illegal.
   */
  ghost predicate Newborn(world: World, cfg: Config, x: Individual, n: nat)
    reads x
  {
    && Made(world, x.genes, x.obstacles) && |x.obstacles| == n && x.View() == NEWBORN.(illegal := x.illegal)
    && (x.illegal <==> !LegalLayout(cfg.bounds, x.obstacles))
  }

  /** A fresh draw: on a segment and a side that seeds are drawn from. */
  ghost predicate Seeded(cfg: Config, world: World, g: Genome) { g.segment in world.choices && g.side in cfg.seedSides }

  method DrawGenes(cfg: Config, world: World, kind: Kind) returns (g: Genome)
    requires Usable(cfg) && Sound(world)
    ensures InRange(g) && g.kind == kind && (g.side == 1 || g.side == -1) && Seeded(cfg, world, g)
  {
    var a := Uniform();
    var b := Uniform();
    var c := Uniform();
    var d := Uniform();
    var e := Uniform();
    var draws := (name: GeneName) =>
      match name case T => a case CrossingDeg => b case Length => c case Overhang => d case GateWidth => e;
    var i := Choose(world.choices);
    var j := Choose(cfg.seedSides);
    g := RandomGenes(kind, world.choices[i], cfg.seedSides[j], draws);
  }

  ghost predicate GoodGenes(world: World, g: Genome) {
    InRange(g) && (g.side == 1 || g.side == -1) && Known(world.segments, g.segment)
  }

  method DecodeGenes(world: World, g: Genome) returns (boxes: seq<Box>)
    requires Sound(world) && GoodGenes(world, g)
    ensures Made(world, g, boxes)
  {
    hide Depicts, InRange, Known, IsTrig, Decoded;
    var decoded := Decode(g, world.segments, world.trig);
    boxes := decoded.value;
    ghost var s :| s in world.segments && s.index == g.segment && s.length != 0.0 && Depicts(boxes, g, s, world.trig);
    DepictsCount(boxes, g, s, world.trig);
  }

  lemma DepictsCount(boxes: seq<Box>, g: Genome, s: Segment, trig: real -> Vec)
    requires s.length != 0.0 && Depicts(boxes, g, s, trig)
    ensures |boxes| == if g.kind == Gate then 2 else 1
  {}

  /** Why the layout of the genes is unusable, or None. */
  ghost function ProblemOf(cfg: Config, world: World, g: Genome, strict: bool): Option<Problem>
    requires Drawable(world) && Known(world.segments, g.segment)
  {
    LayoutProblem(cfg.bounds, Decoded(g, world.segments, world.trig).value, world.segments, g.segment, strict)
  }

  lemma SoundIsDrawable(world: World, g: Genome)
    requires Sound(world) && GoodGenes(world, g)
    ensures Drawable(world) && Known(world.segments, g.segment)
  {
    hide InRange, Known, IsTrig;
  }

  /** Decodes the genes; null exactly if the layout is unusable. */
  method BuildIndividual(cfg: Config, world: World, g: Genome, strict: bool) returns (x: Individual?)
    requires Sound(world) && GoodGenes(world, g)
    ensures Drawable(world) && Known(world.segments, g.segment)
    ensures x == null <==> ProblemOf(cfg, world, g, strict).Some?
    ensures x != null ==>
              fresh(x) && !x.illegal && x.genes == g && Newborn(world, cfg, x, if g.kind == Gate then 2 else 1)
    ensures x != null && strict ==> !CrossesOtherSegment(x.obstacles, world.segments, g.segment)
  {
    hide FitsInBounds, HasOverlap, CrossesOtherSegment, GoodGenes, Sound, Decoded, InRange, Depicts, Known;
    SoundIsDrawable(world, g);
    var boxes := DecodeGenes(world, g);
    if LayoutProblem(cfg.bounds, boxes, world.segments, g.segment, strict).Some? {
      return null;
    }
    x := new Individual(boxes, g, false);
  }

  /** What the loose test rejects is illegal. */
  lemma LooseProblemIsIllegal(cfg: Config, world: World, g: Genome, boxes: seq<Box>)
    requires Made(world, g, boxes) && Rejects(cfg, world, g, false)
    ensures !LegalLayout(cfg.bounds, boxes)
  {
    hide FitsInBounds, HasOverlap, CrossesOtherSegment, InRange, Depicts, Known, Decoded;
  }

  lemma MadeCount(world: World, g: Genome, boxes: seq<Box>)
    requires Made(world, g, boxes)
    ensures |boxes| == if g.kind == Gate then 2 else 1
  {}

  /** The layout test turns the layout of the genes down; only the strict one looks at the other segments. */
  ghost predicate Rejects(cfg: Config, world: World, g: Genome, strict: bool) {
    Drawable(world) && Known(world.segments, g.segment) && ProblemOf(cfg, world, g, strict).Some?
  }

  /** Rejected are the layouts that are not legal and, by the strict test, those that cross another segment. */
  lemma RejectsMeans(cfg: Config, world: World, g: Genome, strict: bool)
    requires Drawable(world) && Known(world.segments, g.segment)
    ensures var boxes := Decoded(g, world.segments, world.trig).value;
            Rejects(cfg, world, g, strict) <==>
              !LegalLayout(cfg.bounds, boxes) || (strict && CrossesOtherSegment(boxes, world.segments, g.segment))
  {}

  ghost predicate Drawn(cfg: Config, world: World, kind: Kind, g: Genome) {
    InRange(g) && g.kind == kind && (g.side == 1 || g.side == -1) && Seeded(cfg, world, g)
  }

  /** Draws that were turned down: the first seedDraws of them by the strict test, later ones by the other. */
  ghost predicate TurnedDown(cfg: Config, world: World, kind: Kind, tried: seq<Genome>) {
    forall i :: 0 <= i < |tried| ==>
      Drawn(cfg, world, kind, tried[i]) && Rejects(cfg, world, tried[i], i < cfg.seedDraws)
  }

  /**
   A fresh seed with n obstacles: the first draw that is not turned down. Only when none of them is legal the slot gets
   the last one and is flagged illegal, and only after seedDraws of them a seed may cross another segment.
   */
  method FreshIndividual(cfg: Config, world: World, n: nat) returns (x: Individual, ghost tried: seq<Genome>)
    requires Usable(cfg) && Sound(world) && (n == 1 || n == 2)
    ensures fresh(x) && Newborn(world, cfg, x, n) && Seeded(cfg, world, x.genes)
    ensures TurnedDown(cfg, world, KindOf(n), tried) && |tried| <= 2 * cfg.seedDraws
    ensures x.illegal <==> |tried| == 2 * cfg.seedDraws
    ensures x.illegal ==> x.genes == tried[|tried| - 1]
    ensures |tried| < cfg.seedDraws ==> !CrossesOtherSegment(x.obstacles, world.segments, x.genes.segment)
  {
    hide InRange, Made, GoodGenes, Sound, LegalLayout, Decoded, Known, LayoutProblem, Drawable, CrossesOtherSegment,
         Rejects, Seeded;
    var kind := KindOf(n);
    tried := [];
    var genes: Genome := *;
    for pass := 0 to 2
      invariant TurnedDown(cfg, world, kind, tried)
      invariant |tried| == (if pass == 0 then 0 else if pass == 1 then cfg.seedDraws else 2 * cfg.seedDraws)
      invariant pass == 2 ==> tried[|tried| - 1] == genes
    {
      for draw := 0 to cfg.seedDraws
        invariant TurnedDown(cfg, world, kind, tried)
        invariant |tried| == (if pass == 0 then draw else cfg.seedDraws + draw)
        invariant draw > 0 ==> tried[|tried| - 1] == genes
      {
        genes := DrawGenes(cfg, world, kind);
        DrawnGenesAreGood(cfg, world, kind, genes);
        var ind := BuildIndividual(cfg, world, genes, pass == 0);
        if ind != null {
          return ind, tried;
        }
        IsRejected(cfg, world, genes, pass == 0);
        tried := tried + [genes];
      }
    }
    LastDrawn(cfg, world, kind, tried);
    DrawnGenesAreGood(cfg, world, kind, genes);
    var boxes := DecodeGenes(world, genes);
    MadeCount(world, genes, boxes);
    LooseProblemIsIllegal(cfg, world, genes, boxes);
    x := new Individual(boxes, genes, true);
  }

  lemma LastDrawn(cfg: Config, world: World, kind: Kind, tried: seq<Genome>)
    requires TurnedDown(cfg, world, kind, tried) && |tried| > cfg.seedDraws
    ensures Drawn(cfg, world, kind, tried[|tried| - 1]) && Rejects(cfg, world, tried[|tried| - 1], false)
  {
    hide Drawn, Rejects;
  }

  lemma DrawnGenesAreGood(cfg: Config, world: World, kind: Kind, g: Genome)
    requires Sound(world) && Drawn(cfg, world, kind, g)
    ensures GoodGenes(world, g) && Drawable(world) && Known(world.segments, g.segment)
  {}

  lemma IsRejected(cfg: Config, world: World, g: Genome, strict: bool)
    requires Drawable(world) && Known(world.segments, g.segment) && ProblemOf(cfg, world, g, strict).Some?
    ensures Rejects(cfg, world, g, strict)
  {}

  lemma MadeGenesAreGood(world: World, x: Individual)
    requires Made(world, x.genes, x.obstacles)
    ensures GoodGenes(world, x.genes)
  {}

  /** Every gene from one parent or the other inside their common frame; outside of it one of them whole. */
  ghost predicate Mixture(g: Genome, a: Genome, b: Genome) {
    if SameFrame(a, b) then
      SameFrame(g, a) && forall name :: Get(g, name) == Get(a, name) || Get(g, name) == Get(b, name)
    else g == a || g == b
  }

  /** Only the named gene was moved; it is where it was only if that is an end of its range. */
  ghost predicate MovedIn(name: GeneName, g: Genome, mixed: Genome) {
    && SameFrame(g, mixed) && name in MutableGenes(g.kind)
    && (forall other :: other != name ==> Get(g, other) == Get(mixed, other))
    && (Get(g, name) == Get(mixed, name) ==> AtEnd(GeneRange(g.kind, name), Get(g, name)))
  }

  /** The parents were mixed and then one gene was moved. */
  ghost predicate Offspring(g: Genome, a: Genome, b: Genome) {
    exists mixed, name :: Mixture(mixed, a, b) && MovedIn(name, g, mixed)
  }

  /** Ten gaussian steps, none of them zero. */
  method Nudges() returns (steps: seq<real>)
    ensures |steps| == 10 && forall i :: 0 <= i < 10 ==> steps[i] != 0.0
  {
    steps := *;
    if |steps| != 10 || exists i :: 0 <= i < |steps| && steps[i] == 0.0 { steps := seq(10, i => 1.0); }
  }

  lemma IsMixture(g: Genome, a: Genome, b: Genome)
    requires if SameFrame(a, b) then SameFrame(a, g) else g == a || g == b
    requires forall name :: Get(g, name) == Get(a, name) || Get(g, name) == Get(b, name)
    ensures Mixture(g, a, b)
  {
    hide Get;
  }

  lemma IsMoved(name: GeneName, g: Genome, mixed: Genome, steps: seq<real>)
    requires InRange(mixed) && name in MutableGenes(mixed.kind) && SameFrame(mixed, g)
    requires forall other :: other != name ==> Get(g, other) == Get(mixed, other)
    requires |steps| == 10 && (forall i :: 0 <= i < 10 ==> steps[i] != 0.0)
    requires g == mixed <==> AllClamped(mixed, name, steps)
    ensures MovedIn(name, g, mixed)
  {
    hide Get, GeneRange, InRange, AllClamped;
    if Get(g, name) == Get(mixed, name) {
      SameGenes(g, mixed);
      ClampedExactly(mixed, name, steps);
      assert steps[0] != 0.0;
    }
  }

  /** The child of two parents; null exactly if its genes decode to an unusable layout. */
  method ChildOf(cfg: Config, world: World, a: Individual, b: Individual) returns (x: Individual?, ghost genes: Genome)
    requires Sound(world) && Made(world, a.genes, a.obstacles) && Made(world, b.genes, b.obstacles)
    requires a.genes.kind == b.genes.kind
    ensures Offspring(genes, a.genes, b.genes) && Drawable(world) && Known(world.segments, genes.segment)
    ensures x == null <==> ProblemOf(cfg, world, genes, true).Some?
    ensures x != null ==>
              fresh(x) && !x.illegal && x.genes == genes
                && Newborn(world, cfg, x, if a.genes.kind == Gate then 2 else 1)
    ensures x != null ==> !CrossesOtherSegment(x.obstacles, world.segments, genes.segment)
  {
    hide InRange, Made, Sound, Known, LegalLayout, Decoded, LayoutProblem, CrossesOtherSegment, Drawable;
    MadeGenesAreGood(world, a);
    MadeGenesAreGood(world, b);
    var coin := Uniform();
    var coins: GeneName -> bool := *;
    var mixed := CrossoverGenes(a.genes, b.genes, coins, coin < 0.5);
    var i := Choose(MutableGenes(mixed.kind));
    var steps := Nudges();
    var name := MutableGenes(mixed.kind)[i];
    var child := MutateGenes(mixed, name, steps);
    genes := child;
    IsMixture(mixed, a.genes, b.genes);
    IsMoved(name, child, mixed, steps);
    x := BuildIndividual(cfg, world, child, true);
  }

  // ---- the next generation ----------------------------------------------------------------------

  /** Every member is decoded from genes in range and is either flown or flagged illegal. */
  ghost predicate Ready(world: World, pop: seq<Individual>)
    reads pop
  {
    && Distinct(pop)
    && forall i :: 0 <= i < |pop| ==>
         Made(world, pop[i].genes, pop[i].obstacles) && (pop[i].valid || pop[i].illegal)
  }

  lemma KindOfCount(world: World, x: Individual)
    requires Made(world, x.genes, x.obstacles)
    ensures |x.obstacles| == (if x.genes.kind == Gate then 2 else 1)
  {}

  /** The child was accepted: two tournament winners, legal and flown members of the niche, have it. */
  ghost predicate Bred(cfg: Config, census: seq<Member>, niche: nat, g: Genome) {
    exists i, j :: AreParents(cfg, census, niche, i, j) && Offspring(g, census[i].who.genes, census[j].who.genes)
  }

  ghost predicate AreParents(cfg: Config, census: seq<Member>, niche: nat, i: int, j: int) {
    && 0 <= i < |census| && 0 <= j < |census|
    && Wins(cfg.tournamentK, census, niche, i) && Legal(niche, census[i]) && census[i].life.valid
    && Wins(cfg.tournamentK, census, niche, j) && Legal(niche, census[j]) && census[j].life.valid
  }

  /** The niche has no legal member. */
  ghost predicate Extinct(census: seq<Member>, niche: nat) {
    forall i :: 0 <= i < |census| ==> !Legal(niche, census[i])
  }

  /** All tries were used up on children of winners that the strict test turned down. */
  ghost predicate Spent(cfg: Config, world: World, census: seq<Member>, niche: nat, tried: seq<Genome>) {
    && |tried| == cfg.maxRetries
    && forall i :: 0 <= i < |tried| ==> Bred(cfg, census, niche, tried[i]) && Rejects(cfg, world, tried[i], true)
  }

  /**
   Where an individual that is no immigrant comes from: a child of winners that the strict test lets pass, or a seed if
   the niche is extinct or the tries were used up.
   */
  ghost predicate FromPairs(cfg: Config, world: World, census: seq<Member>, niche: nat, g: Genome) {
    || (Bred(cfg, census, niche, g) && !Rejects(cfg, world, g, true))
    || (Seeded(cfg, world, g) && (Extinct(census, niche) || exists tried :: Spent(cfg, world, census, niche, tried)))
  }

  /**
   One new individual for a niche, bred from parents of that niche; freshly seeded only if the niche is extinct or
   every one of maxRetries children was unusable.
   */
  method NicheChild(cfg: Config, world: World, pop: seq<Individual>, niche: nat) returns (x: Individual)
    requires Usable(cfg) && Sound(world) && Ready(world, pop) && (niche == 1 || niche == 2)
    ensures fresh(x) && Newborn(world, cfg, x, niche) && FromPairs(cfg, world, Census(pop), niche, x.genes)
  {
    hide Ready, Sound, Newborn, Bred, Seeded, Usable, Rejects;
    ghost var census := Census(pop);
    if exists i :: 0 <= i < |pop| && |pop[i].obstacles| == niche && !pop[i].illegal {
      ghost var tried: seq<Genome> := [];
      for k := 0 to cfg.maxRetries
        invariant |tried| == k
        invariant forall i :: 0 <= i < k ==> Bred(cfg, census, niche, tried[i]) && Rejects(cfg, world, tried[i], true)
      {
        var child, genes := Mate(cfg, world, pop, niche);
        if child != null {
          return child;
        }
        tried := tried + [genes];
      }
      assert Spent(cfg, world, census, niche, tried);
    }
    ghost var seeds;
    x, seeds := FreshIndividual(cfg, world, niche);
  }

  /** One try: the child of two tournament winners. */
  method Mate(cfg: Config, world: World, pop: seq<Individual>, niche: nat)
      returns (x: Individual?, ghost genes: Genome)
    requires Usable(cfg) && Sound(world) && Ready(world, pop) && (niche == 1 || niche == 2)
    requires exists i :: 0 <= i < |pop| && |pop[i].obstacles| == niche && !pop[i].illegal
    ensures Bred(cfg, Census(pop), niche, genes)
    ensures x == null <==> Rejects(cfg, world, genes, true)
    ensures x != null ==> fresh(x) && Newborn(world, cfg, x, niche) && x.genes == genes
  {
    hide Made, Sound, Newborn, Offspring, ProblemOf, CrossesOtherSegment, Drawable, Known, Bred, Wins;
    var a, i := Tournament(cfg, pop, niche);
    var b, j := Tournament(cfg, pop, niche);
    WinnerIsFlown(cfg.tournamentK, world, pop, niche, i);
    WinnerIsFlown(cfg.tournamentK, world, pop, niche, j);
    KindOfCount(world, a);
    KindOfCount(world, b);
    x, genes := ChildOf(cfg, world, a, b);
    IsBred(cfg, Census(pop), niche, i, j, genes);
  }

  lemma WinnerIsFlown(k: nat, world: World, pop: seq<Individual>, niche: nat, w: nat)
    requires Ready(world, pop) && Wins(k, Census(pop), niche, w) && w < |pop|
    requires exists i :: 0 <= i < |pop| && |pop[i].obstacles| == niche && !pop[i].illegal
    ensures Legal(niche, Census(pop)[w]) && Census(pop)[w].life.valid
  {
    hide KeyLe, KeyOf, Made;
    var i :| 0 <= i < |pop| && |pop[i].obstacles| == niche && !pop[i].illegal;
    assert Legal(niche, Census(pop)[i]);
  }

  lemma IsBred(cfg: Config, census: seq<Member>, niche: nat, i: nat, j: nat, g: Genome)
    requires AreParents(cfg, census, niche, i, j) && Offspring(g, census[i].who.genes, census[j].who.genes)
    ensures Bred(cfg, census, niche, g)
  {
    hide Offspring, AreParents;
  }

  /** The slots of a niche: carried-over elites first, immigrants last, and children in between. */
  datatype Shares = Shares(quota: nat, elites: nat, immigrants: int)

  ghost predicate IsCarried(census: seq<Member>, x: Individual) { exists k :: 0 <= k < |census| && census[k].who == x }

  /** What may stand in a slot of the niche: an old member, a fresh seed, or whatever pairs of winners gave. */
  ghost predicate Fills(world: World, cfg: Config, census: seq<Member>, niche: nat, shares: Shares, slot: nat,
                        x: Individual) {
    && |x.obstacles| == niche
    && if slot < shares.elites then IsCarried(census, x)
       else if slot < shares.quota - shares.immigrants then
         !IsCarried(census, x) && FromPairs(cfg, world, census, niche, x.genes)
       else !IsCarried(census, x) && Seeded(cfg, world, x.genes)
  }

  /** A member of the niche that was taken over. */
  ghost predicate IsTaken(census: seq<Member>, i: int, niche: nat, taken: seq<Individual>) {
    0 <= i < |census| && |census[i].who.obstacles| == niche && census[i].who in taken
  }

  /** A member of the niche that was not. */
  ghost predicate Passed(census: seq<Member>, k: int, niche: nat, taken: seq<Individual>) {
    0 <= k < |census| && |census[k].who.obstacles| == niche && census[k].who !in taken
  }

  /** There are as many immigrants as their share of the slots after the elites, rounded. */
  ghost predicate ImmigrantsFit(cfg: Config, shares: Shares) {
    Nearest(shares.immigrants, ImmigrantsDue(cfg, shares.quota, shares.elites))
  }

  ghost function ImmigrantsDue(cfg: Config, quota: int, elites: int): real {
    cfg.immigrantShare * (quota - elites) as real
  }

  /**
   The shares are right: as many elites as there may be, short of that only for want of members, none of them worse than
   a member of the niche left behind, and the right number of immigrants.
   */
  ghost predicate WellShared(cfg: Config, census: seq<Member>, niche: nat, shares: Shares, taken: seq<Individual>) {
    && shares.elites <= cfg.elitePerNiche
    && (if shares.quota > 0 then shares.elites < shares.quota else shares.elites == 0)
    && (shares.elites < cfg.elitePerNiche && shares.elites + 1 < shares.quota ==>
          forall k :: !Passed(census, k, niche, taken))
    && (forall i, k :: IsTaken(census, i, niche, taken) && Passed(census, k, niche, taken) ==>
          !Beats(census[k], census[i]))
    && ImmigrantsFit(cfg, shares)
  }

  method Split(cfg: Config, quota: nat, elites: nat) returns (shares: Shares)
    requires elites <= quota
    ensures shares.quota == quota && shares.elites == elites && ImmigrantsFit(cfg, shares)
  {
    hide Nearest, RoundHalfEven, ImmigrantsDue;
    var due := cfg.immigrantShare * (quota - elites) as real;
    DueIs(cfg, quota, elites);
    shares := Shares(quota, elites, RoundHalfEven(due));
  }

  lemma DueIs(cfg: Config, quota: int, elites: int)
    ensures cfg.immigrantShare * (quota - elites) as real == ImmigrantsDue(cfg, quota, elites)
  {}

  /** The quota slots of one niche: its own elites plus new children. */
  method NicheGeneration(cfg: Config, world: World, pop: seq<Individual>, niche: nat, quota: nat)
      returns (children: seq<Individual>, ghost shares: Shares)
    requires Usable(cfg) && Sound(world) && Ready(world, pop) && (niche == 1 || niche == 2)
    ensures |children| == quota == shares.quota && Distinct(children)
    ensures forall i :: 0 <= i < quota ==> Fills(world, cfg, Census(pop), niche, shares, i, children[i])
    ensures forall i :: 0 <= i < quota && children[i] !in pop ==>
              fresh(children[i]) && Newborn(world, cfg, children[i], niche)
    ensures WellShared(cfg, Census(pop), niche, shares, children)
    ensures forall i, j :: 0 <= i < j < shares.elites ==>
              KeyLe(SelectionKey(children[i]), SelectionKey(children[j]))
  {
    hide KeyLe, SelectionKey, Sound, Usable, Ready, ImmigrantsFit, Fills, Newborn, WellShared, FromPairs, Seeded;
    assert Distinct(pop) by { ReadyIsDistinct(world, pop); }
    children := NicheElites(cfg, pop, niche, quota);
    ghost var elites, census := children, Census(pop);
    var split := Split(cfg, quota, |children|);
    shares := split;
    forall i | 0 <= i < |children| ensures Fills(world, cfg, census, niche, shares, i, children[i]) {
      CarriedOver(world, cfg, pop, niche, shares, i, children[i]);
    }
    children := FillUp(cfg, world, pop, niche, children, split);
    assert forall i :: 0 <= i < |elites| ==> children[i] == elites[i];
    SharesAreRight(cfg, pop, niche, shares, elites, children);
  }

  /** Fills the slots after the elites. */
  method FillUp(cfg: Config, world: World, pop: seq<Individual>, niche: nat, elites: seq<Individual>, shares: Shares)
      returns (children: seq<Individual>)
    requires Usable(cfg) && Sound(world) && Ready(world, pop) && (niche == 1 || niche == 2)
    requires |elites| == shares.elites <= shares.quota && Distinct(elites)
    requires forall i :: 0 <= i < |elites| ==>
               elites[i] in pop && Fills(world, cfg, Census(pop), niche, shares, i, elites[i])
    ensures |children| == shares.quota && Distinct(children) && children[..shares.elites] == elites
    ensures forall i :: 0 <= i < |children| ==> Fills(world, cfg, Census(pop), niche, shares, i, children[i])
    ensures forall i :: shares.elites <= i < |children| ==>
              children[i] !in pop && fresh(children[i]) && Newborn(world, cfg, children[i], niche)
  {
    hide Sound, Usable, Ready, Fills, Newborn, FromPairs, Seeded;
    ghost var census := Census(pop);
    children := elites;
    while |children| < shares.quota
      invariant |elites| <= |children| <= shares.quota && Distinct(children) && children[..|elites|] == elites
      invariant forall i :: 0 <= i < |children| ==> Fills(world, cfg, census, niche, shares, i, children[i])
      invariant forall i :: |elites| <= i < |children| ==>
                  children[i] !in pop && fresh(children[i]) && Newborn(world, cfg, children[i], niche)
    {
      var x := NewMember(cfg, world, pop, niche, |children| >= shares.quota - shares.immigrants);
      ComesIn(world, cfg, pop, niche, shares, |children|, x);
      children := children + [x];
    }
  }

  lemma CarriedOver(world: World, cfg: Config, pop: seq<Individual>, niche: nat, shares: Shares, slot: nat,
                    x: Individual)
    requires x in pop && |x.obstacles| == niche && slot < shares.elites
    ensures Fills(world, cfg, Census(pop), niche, shares, slot, x)
  {
    var k :| 0 <= k < |pop| && pop[k] == x;
    assert Census(pop)[k].who == x;
  }

  lemma ComesIn(world: World, cfg: Config, pop: seq<Individual>, niche: nat, shares: Shares, slot: nat, x: Individual)
    requires x !in pop && |x.obstacles| == niche && slot >= shares.elites
    requires if slot >= shares.quota - shares.immigrants then Seeded(cfg, world, x.genes)
             else FromPairs(cfg, world, Census(pop), niche, x.genes)
    ensures Fills(world, cfg, Census(pop), niche, shares, slot, x)
  {
    hide Seeded, FromPairs;
  }

  lemma SharesAreRight(cfg: Config, pop: seq<Individual>, niche: nat, shares: Shares, elites: seq<Individual>,
                       children: seq<Individual>)
    requires shares.elites == |elites| && |elites| <= cfg.elitePerNiche
    requires if shares.quota > 0 then |elites| < shares.quota else elites == []
    requires AreBest(elites, pop, niche)
    requires |elites| < cfg.elitePerNiche && |elites| + 1 < shares.quota ==>
              forall k :: 0 <= k < |pop| && |pop[k].obstacles| == niche ==> pop[k] in elites
    requires ImmigrantsFit(cfg, shares)
    requires forall x :: x in pop ==> (x in elites <==> x in children)
    ensures WellShared(cfg, Census(pop), niche, shares, children)
  {
    hide KeyLe, SelectionKey, Beats, ImmigrantsFit;
    var census := Census(pop);
    forall k ensures Passed(census, k, niche, children) <==> LeftBehind(pop, k, niche, elites) {
      assert 0 <= k < |pop| ==> pop[k] in pop;
    }
    forall i, k | IsTaken(census, i, niche, children) && Passed(census, k, niche, children)
      ensures !Beats(census[k], census[i])
    {
      var m :| 0 <= m < |elites| && elites[m] == pop[i];
      assert LeftBehind(pop, k, niche, elites);
      KeysAgree(pop, i, k);
      KeysMean(census[i], census[k]);
    }
  }

  /** No member of the niche outside the list is better than one on it. */
  ghost predicate AreBest(elites: seq<Individual>, pop: seq<Individual>, niche: nat)
    reads elites, pop
  {
    forall i, k :: 0 <= i < |elites| && LeftBehind(pop, k, niche, elites) ==>
      KeyLe(SelectionKey(elites[i]), SelectionKey(pop[k]))
  }

  ghost predicate LeftBehind(pop: seq<Individual>, k: int, niche: nat, taken: seq<Individual>) {
    0 <= k < |pop| && |pop[k].obstacles| == niche && pop[k] !in taken
  }

  /** The best members of a niche in order, at least one slot short of the quota. */
  method NicheElites(cfg: Config, pop: seq<Individual>, niche: nat, quota: nat) returns (elites: seq<Individual>)
    requires Distinct(pop)
    ensures |elites| <= cfg.elitePerNiche && (if quota > 0 then |elites| < quota else elites == []) && Distinct(elites)
    ensures forall i :: 0 <= i < |elites| ==> elites[i] in pop && |elites[i].obstacles| == niche
    ensures AreBest(elites, pop, niche)
    ensures |elites| < cfg.elitePerNiche && |elites| + 1 < quota ==>
              forall k :: 0 <= k < |pop| && |pop[k].obstacles| == niche ==> pop[k] in elites
    ensures forall i, j :: 0 <= i < j < |elites| ==> KeyLe(SelectionKey(elites[i]), SelectionKey(elites[j]))
  {
    hide KeyLe, SelectionKey;
    var pool, at := PoolOf(pop, niche, false);
    forall i, j | 0 <= i < j < |pool| ensures pool[i] != pool[j] { assert pool[i] == pop[at[i]]; }
    var sorted := SortPool(pool);
    var room := if quota == 0 then 0 else quota - 1;
    var n := Least(Least(cfg.elitePerNiche, |pool|), room);
    elites := sorted[..n];
    forall i | 0 <= i < |elites| ensures elites[i] in pop && |elites[i].obstacles| == niche {
      assert elites[i] == sorted[i] && sorted[i] in pool;
      var m :| 0 <= m < |pool| && pool[m] == sorted[i];
      assert at[m] in at;
    }
    forall k | 0 <= k < |pop| && |pop[k].obstacles| == niche ensures pop[k] in sorted {
      assert k in at;
      var m :| 0 <= m < |at| && at[m] == k;
      assert pool[m] in sorted;
    }
    forall i, k | 0 <= i < |elites| && LeftBehind(pop, k, niche, elites)
      ensures KeyLe(SelectionKey(elites[i]), SelectionKey(pop[k]))
    {
      var j :| 0 <= j < |sorted| && sorted[j] == pop[k];
      assert forall m :: 0 <= m < n ==> elites[m] == sorted[m];
    }
    if n == |pool| { assert elites == sorted; }
  }

  lemma ReadyIsDistinct(world: World, pop: seq<Individual>)
    requires Ready(world, pop)
    ensures Distinct(pop)
  {}

  /** An immigrant or a child. */
  method NewMember(cfg: Config, world: World, pop: seq<Individual>, niche: nat, immigrant: bool)
      returns (x: Individual)
    requires Usable(cfg) && Sound(world) && Ready(world, pop) && (niche == 1 || niche == 2)
    ensures fresh(x) && Newborn(world, cfg, x, niche) && |x.obstacles| == niche
    ensures if immigrant then Seeded(cfg, world, x.genes) else FromPairs(cfg, world, Census(pop), niche, x.genes)
  {
    hide Usable, Sound, Ready, Made, LegalLayout, FromPairs, Seeded;
    if immigrant {
      ghost var seeds;
      x, seeds := FreshIndividual(cfg, world, niche);
    } else {
      x := NicheChild(cfg, world, pop, niche);
    }
  }

  lemma {:induction false} CountGrows(n: nat, counts: seq<nat>, i: nat, j: nat)
    requires i < j <= |counts|
    ensures Count(n, counts[..i]) <= Count(n, counts[..j])
    ensures counts[i] == n ==> Count(n, counts[..i]) < Count(n, counts[..j])
    decreases j - i
  {
    assert counts[..j][..j - 1] == counts[..j - 1];
    if i < j - 1 { CountGrows(n, counts, i, j - 1); }
  }

  /** The place of occurrence number m of n. */
  lemma {:induction false} Occurrence(n: nat, counts: seq<nat>, m: nat) returns (k: nat)
    requires m < Count(n, counts)
    ensures k < |counts| && counts[k] == n && Count(n, counts[..k]) == m
  {
    var last := |counts| - 1;
    if m < Count(n, counts[..last]) {
      k := Occurrence(n, counts[..last], m);
      assert counts[..last][..k] == counts[..k];
    } else {
      k := last;
    }
  }

  lemma CountStep(n: nat, counts: seq<nat>, k: nat)
    requires k < |counts|
    ensures Count(n, counts[..k + 1]) == Count(n, counts[..k]) + if counts[k] == n then 1 else 0
  {
    assert counts[..k + 1][..k] == counts[..k];
  }

  lemma CountNone(n: nat, counts: seq<nat>)
    ensures Count(n, counts[..0]) == 0
  {}

  /** Emits one queue per niche in schedule order; slot k takes the next member of the queue of counts[k]. */
  method Emit(walls: seq<Individual>, gates: seq<Individual>, counts: seq<nat>) returns (next: seq<Individual>)
    requires forall k :: 0 <= k < |counts| ==> counts[k] == 1 || counts[k] == 2
    requires |walls| == Count(1, counts) && |gates| == Count(2, counts)
    ensures |next| == |counts|
    ensures forall k :: 0 <= k < |counts| ==>
              Count(counts[k], counts[..k]) < (if counts[k] == 1 then |walls| else |gates|)
    ensures forall k :: 0 <= k < |counts| ==>
              next[k] == (if counts[k] == 1 then walls else gates)[Count(counts[k], counts[..k])]
  {
    hide Count;
    next := [];
    var w, g := 0, 0;
    CountNone(1, counts);
    CountNone(2, counts);
    forall k | 0 <= k < |counts| ensures Count(counts[k], counts[..k]) < (if counts[k] == 1 then |walls| else |gates|) {
      CountGrows(counts[k], counts, k, |counts|);
      assert counts[..|counts|] == counts;
    }
    for k := 0 to |counts|
      invariant |next| == k && w == Count(1, counts[..k]) && g == Count(2, counts[..k])
      invariant forall i :: 0 <= i < k ==>
                next[i] == (if counts[i] == 1 then walls else gates)[Count(counts[i], counts[..i])]
    {
      CountStep(1, counts, k);
      CountStep(2, counts, k);
      if counts[k] == 1 {
        next, w := next + [walls[w]], w + 1;
      } else {
        next, g := next + [gates[g]], g + 1;
      }
    }
  }

  /**
   A generation by the rules: every slot of the schedule holds the next member of its niche, and both niches are well
   shared.
   */
  ghost predicate Succeeds(world: World, cfg: Config, census: seq<Member>, counts: seq<nat>, next: seq<Individual>,
                           walls: Shares, gates: Shares) {
    && |next| == |counts| && Distinct(next)
    && walls.quota == Count(1, counts) && WellShared(cfg, census, 1, walls, next)
    && gates.quota == Count(2, counts) && WellShared(cfg, census, 2, gates, next)
    && forall k :: 0 <= k < |counts| ==>
         Fills(world, cfg, census, counts[k], if counts[k] == 1 then walls else gates, Count(counts[k], counts[..k]),
               next[k])
  }

  lemma FillsItsNiche(world: World, cfg: Config, census: seq<Member>, niche: nat, shares: Shares, slot: nat,
                      x: Individual)
    requires Fills(world, cfg, census, niche, shares, slot, x)
    ensures |x.obstacles| == niche
  {}

  /** The members of a niche in the generation are those of its queue. */
  lemma AllOfNiche(n: nat, counts: seq<nat>, queue: seq<Individual>, next: seq<Individual>)
    requires |next| == |counts| && |queue| == Count(n, counts)
    requires forall k :: 0 <= k < |counts| ==> |next[k].obstacles| == counts[k]
    requires forall k :: 0 <= k < |counts| && counts[k] == n ==>
              Count(n, counts[..k]) < |queue| && next[k] == queue[Count(n, counts[..k])]
    requires forall m :: 0 <= m < |queue| ==> |queue[m].obstacles| == n
    ensures forall x :: x in queue <==> x in next && |x.obstacles| == n
  {
    hide Count;
    forall m | 0 <= m < |queue| ensures queue[m] in next { var k := Occurrence(n, counts, m); }
  }

  lemma StillShared(cfg: Config, census: seq<Member>, niche: nat, shares: Shares, queue: seq<Individual>,
                    next: seq<Individual>)
    requires WellShared(cfg, census, niche, shares, queue)
    requires forall x :: x in queue <==> x in next && |x.obstacles| == niche
    ensures WellShared(cfg, census, niche, shares, next)
  {
    hide Beats, ImmigrantsFit;
    forall k ensures Passed(census, k, niche, next) <==> Passed(census, k, niche, queue) {}
  }

  /** The next generation: the schedule's slots filled from protected niches. */
  method NextGeneration(cfg: Config, world: World, pop: seq<Individual>, counts: seq<nat>)
      returns (next: seq<Individual>, ghost wallShares: Shares, ghost gateShares: Shares)
    requires Usable(cfg) && Sound(world) && Ready(world, pop)
    requires forall k :: 0 <= k < |counts| ==> counts[k] == 1 || counts[k] == 2
    ensures Succeeds(world, cfg, Census(pop), counts, next, wallShares, gateShares)
    ensures forall k :: 0 <= k < |counts| && next[k] !in pop ==>
              fresh(next[k]) && Newborn(world, cfg, next[k], counts[k])
  {
    hide KeyLe, SelectionKey, Sound, Count, Fills, WellShared, Newborn, Ready, Usable;
    var walls, w := NicheGeneration(cfg, world, pop, 1, Count(1, counts));
    var gates, g := NicheGeneration(cfg, world, pop, 2, Count(2, counts));
    wallShares, gateShares := w, g;
    next := Emit(walls, gates, counts);
    forall k | 0 <= k < |counts| ensures |next[k].obstacles| == counts[k] {
      FillsItsNiche(world, cfg, Census(pop), counts[k], if counts[k] == 1 then w else g,
                    Count(counts[k], counts[..k]), next[k]);
    }
    forall k | 0 <= k < |walls| ensures |walls[k].obstacles| == 1 {
      FillsItsNiche(world, cfg, Census(pop), 1, w, k, walls[k]);
    }
    forall k | 0 <= k < |gates| ensures |gates[k].obstacles| == 2 {
      FillsItsNiche(world, cfg, Census(pop), 2, g, k, gates[k]);
    }
    AllOfNiche(1, counts, walls, next);
    AllOfNiche(2, counts, gates, next);
    forall i, j | 0 <= i < j < |next| ensures next[i] != next[j] {
      CountGrows(counts[i], counts, i, j);
    }
    StillShared(cfg, Census(pop), 1, w, walls, next);
    StillShared(cfg, Census(pop), 2, g, gates, next);
  }

  /** With elites, a niche with two slots keeps a member that is no worse than any it had. */
  lemma BestIsKept(world: World, cfg: Config, census: seq<Member>, counts: seq<nat>, next: seq<Individual>,
                   walls: Shares, gates: Shares, i: nat) returns (k: nat, m: nat)
    requires Succeeds(world, cfg, census, counts, next, walls, gates) && cfg.elitePerNiche >= 1 && i < |census|
    requires var n := |census[i].who.obstacles|; (n == 1 || n == 2) && Count(n, counts) >= 2
    ensures k < |next| == |counts| && m < |census| && next[k] == census[m].who
    ensures counts[k] == |next[k].obstacles| == |census[i].who.obstacles|
    ensures !Beats(census[i], census[m])
  {
    hide Count, Beats, FromPairs, Seeded, ImmigrantsFit;
    var n := |census[i].who.obstacles|;
    var shares := if n == 1 then walls else gates;
    if Passed(census, i, n, next) {
      assert shares.elites >= 1;
      k := Occurrence(n, counts, 0);
      assert Fills(world, cfg, census, n, shares, 0, next[k]);
      m :| 0 <= m < |census| && census[m].who == next[k];
      assert IsTaken(census, m, n, next);
    } else {
      k :| 0 <= k < |next| && next[k] == census[i].who;
      assert Fills(world, cfg, census, counts[k], if counts[k] == 1 then walls else gates,
                   Count(counts[k], counts[..k]), next[k]);
      m := i;
      BeatsNobodyAlike(census[i]);
    }
  }

  lemma BeatsNobodyAlike(m: Member)
    ensures !Beats(m, m)
  {}
}
