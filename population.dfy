/** A population unit ("pop"): a cohort of founding adults and their
    descendents, a 20-slot buffer of children by age, traits in [0, 1], and the
    yearly demographic update, merging of small pops and formation of the next
    generation. */
module Populations {
  import opened Numeric
  import opened Politics

  /** The eight traits of a pop; the five political axes form its opinion. */
  datatype Traits = Traits(
    stationaryMigrant: Unit,
    settlerColonial: Unit,
    tolerance: Unit,
    opinion: Opinion)

  /** An ancestry: (country tag, weighting) pairs, the primary tag first. */
  type Ancestry = seq<(string, int)>

  const CHILD_SLOTS := 20

  /** The numeric state births_and_deaths works on. */
  datatype Cohort = Cohort(
    starting: int,
    descendents: int,
    averageAge: real,
    averageDescendentAge: real,
    children: seq<int>)

  class Population {
    const traits: Traits
    const ancestry: Ancestry
    const preferredPopulationSize: int
    var generation: int
    var startingPopulation: int
    var averageAge: real
    var descendents: int
    var averageDescendentAge: real
    var children: seq<int>
    var happiness: real
    var mergeable: bool
    var descendentPops: seq<Population>

    /** Population(rng, population, ancestry): the traits and the preferred
        size, drawn or inherited by the caller, are given. */
    constructor (population: int, ancestry: Ancestry, traits: Traits, preferredSize: int)
      ensures this.traits == traits && this.ancestry == ancestry
      ensures preferredPopulationSize == preferredSize
      ensures generation == 0 && happiness == 1.0 && mergeable
      ensures startingPopulation == population && averageAge == 20.0
      ensures descendents == 0 && averageDescendentAge == 0.0
      ensures children == seq(CHILD_SLOTS, _ => 0)
      ensures descendentPops == []
    {
      this.traits := traits;
      this.ancestry := ancestry;
      preferredPopulationSize := preferredSize;
      generation := 0;
      happiness := 1.0;
      mergeable := true;
      startingPopulation := population;
      averageAge := 20.0;
      descendents := 0;
      averageDescendentAge := 0.0;
      children := seq(CHILD_SLOTS, _ => 0);
      descendentPops := [];
    }

    /** Counts are non-negative, happiness is in [0, 1], the children buffer
        has 20 non-negative slots, and the primary ancestry weighs something. */
    ghost predicate Valid()
      reads this`startingPopulation, this`descendents, this`happiness, this`children
      ensures Valid() ==> |ancestry| > 0
    {
      startingPopulation >= 0 && descendents >= 0
      && 0.0 <= happiness <= 1.0
      && |children| == CHILD_SLOTS
      && (forall n :: 0 <= n < |children| ==> children[n] >= 0)
      && ValidAncestry(ancestry)
    }

    function Population(): int
      reads this`startingPopulation, this`descendents
    {
      startingPopulation + descendents
    }

    function Opinion(): Opinion
    {
      traits.opinion
    }

    function OpinionHash(): (h: nat)
      ensures h < 32
    {
      Politics.OpinionHash(traits.opinion)
    }

    function PreferredGovernment(): GovKind
    {
      Politics.PreferredGovernment(traits.opinion)
    }

    function PoliticalEngagement(): real
    {
      Politics.PoliticalEngagement(traits.opinion)
    }

    /** The primary ancestry tag. */
    function PrimaryTag(): string
      requires |ancestry| > 0
    {
      ancestry[0].0
    }

    function IsDead(): bool
      reads this`startingPopulation
    {
      startingPopulation <= 0
    }

    function SimilarityTo(other: Population): real
    {
      Distance(traits.opinion, other.traits.opinion)
    }

    /** wants_to_move, with the rng.random() draw given: a pop that is not
        mergeable never moves; otherwise it moves when the draw less its
        happiness exceeds its stationary/migrant trait. */
    function WantsToMove(draw: real): (moves: bool)
      reads this
      requires 0.0 <= draw < 1.0
      ensures moves ==> mergeable
    {
      if !mergeable then false
      else draw - happiness > traits.stationaryMigrant
    }

    /** The happiness setter clamps into [0, 1]. */
    method SetHappiness(value: real)
      modifies this`happiness
      ensures happiness == Clamp(value, 0.0, 1.0)
      ensures 0.0 <= happiness <= 1.0
      ensures value == happiness <==> 0.0 <= value <= 1.0
    {
      happiness := Clamp(value, 0.0, 1.0);
    }

    function Snapshot(): Cohort
      reads this
    {
      Cohort(startingPopulation, descendents, averageAge, averageDescendentAge, children)
    }

    /** The accidental deaths, split between the two cohorts in proportion. */
    method Accidents(accidentRate: int)
      requires startingPopulation + descendents != 0
      modifies this
      ensures (startingPopulation, descendents) == AfterAccidents(old(startingPopulation), old(descendents), accidentRate)
      ensures averageAge == old(averageAge) && averageDescendentAge == old(averageDescendentAge)
      ensures children == old(children)
      ensures generation == old(generation) && happiness == old(happiness) && mergeable == old(mergeable)
      ensures descendentPops == old(descendentPops)
    {
      ghost var expected := AfterAccidents(startingPopulation, descendents, accidentRate);
      var accidentalDeaths := AccidentalDeaths(Population(), accidentRate);
      var deathRatio := descendents as real / (descendents + startingPopulation) as real;
      ghost var s0, d0 := startingPopulation, descendents;
      assert expected.0 == s0 - Ceil(accidentalDeaths as real * (1.0 - deathRatio));
      assert expected.1 == d0 - Floor(accidentalDeaths as real * deathRatio);
      descendents := descendents - Floor(accidentalDeaths as real * deathRatio);
      startingPopulation := startingPopulation - Ceil(accidentalDeaths as real * (1.0 - deathRatio));
    }

    /** Pops children off the end of the buffer until 19 slots remain (when
        there are 20 or more) and returns their sum. */
    method AgeOutChildren() returns (newAdults: int)
      modifies this
      ensures children == RemainingChildren(old(children))
      ensures newAdults == NewAdults(old(children))
      ensures startingPopulation == old(startingPopulation) && descendents == old(descendents)
      ensures averageAge == old(averageAge) && averageDescendentAge == old(averageDescendentAge)
      ensures generation == old(generation) && happiness == old(happiness) && mergeable == old(mergeable)
      ensures descendentPops == old(descendentPops)
    {
      newAdults := 0;
      ghost var before := children;
      if |children| >= CHILD_SLOTS {
        while |children| >= CHILD_SLOTS
          invariant CHILD_SLOTS - 1 <= |children| <= |before|
          invariant children == before[..|children|]
          invariant newAdults == Sum(before[|children|..])
          invariant startingPopulation == old(startingPopulation) && descendents == old(descendents)
          invariant averageAge == old(averageAge) && averageDescendentAge == old(averageDescendentAge)
          invariant generation == old(generation) && happiness == old(happiness) && mergeable == old(mergeable)
          invariant descendentPops == old(descendentPops)
          decreases |children|
        {
          var last := children[|children| - 1];
          assert before[|children| - 1..] == [last] + before[|children|..];
          SumPrepend(last, before[|children|..]);
          newAdults := newAdults + last;
          children := children[..|children| - 1];
        }
      }
    }

    /** births_and_deaths, with the two rng.uniform(-0.1, 0.1) draws given.
        Returns the new number of descendents. */
    method BirthsAndDeaths(birthRate: int, accidentRate: int, startingDraw: real, descendentDraw: real)
      returns (r: int)
      requires startingPopulation + descendents != 0
      modifies this
      ensures Snapshot() == AgeOneYear(old(Snapshot()), birthRate, accidentRate, startingDraw, descendentDraw)
      ensures r == descendents
      ensures generation == old(generation) && happiness == old(happiness) && mergeable == old(mergeable)
      ensures descendentPops == old(descendentPops)
    {
      Accidents(accidentRate);

      startingPopulation := Survivors(startingPopulation, OldAgeLikelihood(averageAge, startingDraw));
      descendents := Survivors(descendents, OldAgeLikelihood(averageDescendentAge, descendentDraw));

      var newAdults := AgeOutChildren();
      averageDescendentAge := MergedAge(descendents, averageDescendentAge, newAdults);
      descendents := descendents + newAdults;

      averageAge := averageAge + 1.0;

      var births := Births(startingPopulation, averageAge, descendents, averageDescendentAge, birthRate);
      children := [births] + children;
      r := descendents;
    }
  }

  predicate ValidAncestry(a: Ancestry)
  {
    |a| > 0 && a[0].1 > 0 && forall k :: 0 <= k < |a| ==> a[k].1 >= 0
  }

  lemma SumPrepend(x: int, xs: seq<int>)
    ensures Sum([x] + xs) == x + Sum(xs)
  {
    SumAppend([x], xs);
    assert [x][..0] == [];
  }

  function Cube(x: real): real { x * x * x }

  lemma CubeUnit(x: real)
    requires 0.0 <= x <= 1.0
    ensures 0.0 <= Cube(x) <= 1.0
  {
    assert x * x <= 1.0 by {
      assert x * x <= x * 1.0;
    }
    assert x * x * x <= x * x;
  }

  // ---------------------------------------------------------------------------
  // The yearly update as a function of the cohort state

  function AccidentalDeaths(population: int, accidentRate: int): int
  {
    Floor(population as real / 1000.0 * accidentRate as real)
  }

  /** Likelihood of old-age death: the clamped age term, cubed. */
  function OldAgeLikelihood(age: real, draw: real): (l: real)
    ensures 0.0 <= l <= 1.0
  {
    var x := Clamp((age - 25.0) / 100.0 + draw, 0.0, 1.0);
    CubeUnit(x);
    Cube(x)
  }

  /** Survivors of n people at a given likelihood of death. */
  function Survivors(n: int, likelihood: real): int
  {
    Floor(n as real * (1.0 - likelihood))
  }

  /** Children aged out of the buffer: the slots from index 19 on, when
      there are at least 20. */
  function NewAdults(children: seq<int>): int
  {
    if |children| >= CHILD_SLOTS then Sum(children[CHILD_SLOTS - 1..]) else 0
  }

  function RemainingChildren(children: seq<int>): seq<int>
  {
    if |children| >= CHILD_SLOTS then children[..CHILD_SLOTS - 1] else children
  }

  /** Births: the childbearing adults (those of a cohort younger than 50) per
      thousand, times the birth rate, rounded down. */
  function Births(starting: int, averageAge: real, descendents: int, averageDescendentAge: real, birthRate: int): int
  {
    var childbearing := (if averageAge < 50.0 then starting else 0)
      + (if averageDescendentAge < 50.0 then descendents else 0);
    Floor(childbearing as real / 1000.0 * birthRate as real)
  }

  /** The (founding, descendent) counts after accidental deaths: the deaths
      are split in proportion to the two cohorts, the descendents' share
      rounded down and the founders' share rounded up. */
  function AfterAccidents(starting: int, descendents: int, accidentRate: int): (int, int)
    requires starting + descendents != 0
  {
    var accidents := AccidentalDeaths(starting + descendents, accidentRate);
    var ratio := descendents as real / (descendents + starting) as real;
    (starting - Ceil(accidents as real * (1.0 - ratio)), descendents - Floor(accidents as real * ratio))
  }

  /** The average age of descendents once the new adults (aged 20) join. */
  function MergedAge(descendents: int, averageAge: real, newAdults: int): real
  {
    if descendents + newAdults > 0 then
      (descendents as real * averageAge + newAdults as real * 20.0) / (descendents + newAdults) as real
    else 0.0
  }

  function AgeOneYear(c: Cohort, birthRate: int, accidentRate: int, startingDraw: real, descendentDraw: real): Cohort
    requires c.starting + c.descendents != 0
  {
    var (s1, d1) := AfterAccidents(c.starting, c.descendents, accidentRate);
    var s2 := Survivors(s1, OldAgeLikelihood(c.averageAge, startingDraw));
    var d2 := Survivors(d1, OldAgeLikelihood(c.averageDescendentAge, descendentDraw));
    var adults := NewAdults(c.children);
    var descendentAge := MergedAge(d2, c.averageDescendentAge, adults);
    var d3 := d2 + adults;
    var age := c.averageAge + 1.0;
    Cohort(s2, d3, age, descendentAge,
      [Births(s2, age, d3, descendentAge, birthRate)] + RemainingChildren(c.children))
  }

  // ---------------------------------------------------------------------------
  // Properties of the yearly update

  /** The accidental deaths split between the two cohorts removes exactly
      the accidental deaths: floor(D r) + ceil(D (1 - r)) = D. */
  lemma AccidentSplit(accidents: int, ratio: real)
    ensures Floor(accidents as real * ratio) + Ceil(accidents as real * (1.0 - ratio)) == accidents
  {
    var x := accidents as real * ratio;
    assert accidents as real * (1.0 - ratio) == accidents as real - x;
    var f := Floor(x);
    assert f as real <= x < f as real + 1.0;
    var c := Ceil(accidents as real - x);
    assert accidents as real - x <= c as real < accidents as real - x + 1.0;
    assert c == accidents - f;
  }

  /** Old-age deaths never create people nor leave a negative count. */
  lemma SurvivorsBounds(n: int, likelihood: real)
    requires n >= 0 && 0.0 <= likelihood <= 1.0
    ensures 0 <= Survivors(n, likelihood) <= n
  {
    var x := n as real * (1.0 - likelihood);
    assert 0.0 <= x <= n as real by {
      assert n as real * (1.0 - likelihood) <= n as real * 1.0;
    }
  }

  /** A share of at most p people taken in proportion part / p is at most part. */
  lemma ProportionalShare(a: real, part: real, p: real)
    requires 0.0 <= a <= p && 0.0 <= part <= p && p > 0.0
    ensures 0.0 <= a * (part / p) <= part
  {
    var r := part / p;
    assert 0.0 <= r <= 1.0;
    assert a * r <= p * r;
    assert p * r == part;
  }

  lemma AccidentsAtMostPopulation(population: int, accidentRate: int)
    requires population > 0 && 0 <= accidentRate <= 1000
    ensures 0 <= AccidentalDeaths(population, accidentRate) <= population
  {
    var p := population as real;
    assert 0.0 <= p / 1000.0 * accidentRate as real <= p / 1000.0 * 1000.0;
  }

  /** Accidents at a per-thousand rate of at most 1000 take neither cohort
      below 0, and remove exactly the accidental deaths in total. */
  lemma AccidentsBounded(starting: int, descendents: int, accidentRate: int)
    requires starting >= 0 && descendents >= 0 && starting + descendents > 0
    requires 0 <= accidentRate <= 1000
    ensures var (s1, d1) := AfterAccidents(starting, descendents, accidentRate);
      0 <= s1 <= starting && 0 <= d1 <= descendents
      && s1 + d1 == starting + descendents - AccidentalDeaths(starting + descendents, accidentRate)
  {
    var accidents := AccidentalDeaths(starting + descendents, accidentRate);
    AccidentsAtMostPopulation(starting + descendents, accidentRate);
    AccidentLosses(starting, descendents, accidents);
    var r := AfterAccidents(starting, descendents, accidentRate);
    var ratio := descendents as real / (descendents + starting) as real;
    assert r.0 == starting - Ceil(accidents as real * (1.0 - ratio));
    assert r.1 == descendents - Floor(accidents as real * ratio);
  }

  /** The accidental deaths, shared between the cohorts by head count, take
      at most each cohort's size and add up to the deaths. */
  lemma AccidentLosses(starting: int, descendents: int, accidents: int)
    requires starting >= 0 && descendents >= 0 && starting + descendents > 0
    requires 0 <= accidents <= starting + descendents
    ensures var ratio := descendents as real / (descendents + starting) as real;
      && 0 <= Floor(accidents as real * ratio) <= descendents
      && 0 <= Ceil(accidents as real * (1.0 - ratio)) <= starting
      && Floor(accidents as real * ratio) + Ceil(accidents as real * (1.0 - ratio)) == accidents
  {
    var ratio := descendents as real / (descendents + starting) as real;
    ShareWithin(starting, descendents, accidents);
    SplitWithin(accidents, starting, descendents, ratio);
  }

  /** Each cohort's unrounded share of the deaths is within its size. */
  lemma ShareWithin(starting: int, descendents: int, accidents: int)
    requires starting >= 0 && descendents >= 0 && starting + descendents > 0
    requires 0 <= accidents <= starting + descendents
    ensures var ratio := descendents as real / (descendents + starting) as real;
      && 0.0 <= accidents as real * ratio <= descendents as real
      && 0.0 <= accidents as real * (1.0 - ratio) <= starting as real
  {
    var p := descendents + starting;
    ProportionalShare(accidents as real, descendents as real, p as real);
    ProportionalShare(accidents as real, starting as real, p as real);
    ComplementShare(starting, descendents);
  }

  /** Shares within the cohorts stay within them once rounded, one down
      and the other up, and the rounded shares add up to the deaths. */
  lemma SplitWithin(accidents: int, starting: int, descendents: int, ratio: real)
    requires 0.0 <= accidents as real * ratio <= descendents as real
    requires 0.0 <= accidents as real * (1.0 - ratio) <= starting as real
    ensures 0 <= Floor(accidents as real * ratio) <= descendents
    ensures 0 <= Ceil(accidents as real * (1.0 - ratio)) <= starting
    ensures Floor(accidents as real * ratio) + Ceil(accidents as real * (1.0 - ratio)) == accidents
  {
    RoundingWithin(accidents as real * ratio, descendents);
    RoundingWithin(accidents as real * (1.0 - ratio), starting);
    AccidentSplit(accidents, ratio);
  }

  lemma RoundingWithin(x: real, hi: int)
    requires 0.0 <= x <= hi as real
    ensures 0 <= Floor(x) <= hi && 0 <= Ceil(x) <= hi
  {
  }

  lemma ComplementShare(starting: int, descendents: int)
    requires starting >= 0 && descendents >= 0 && starting + descendents > 0
    ensures 1.0 - descendents as real / (descendents + starting) as real
      == starting as real / (descendents + starting) as real
  {
    var p := (descendents + starting) as real;
    assert descendents as real / p + starting as real / p == p / p;
  }

  ghost predicate ValidCohort(c: Cohort)
  {
    c.starting >= 0 && c.descendents >= 0
    && |c.children| == CHILD_SLOTS
    && forall n :: 0 <= n < |c.children| ==> c.children[n] >= 0
  }

  lemma BirthsNonNegative(s: int, age: real, d: int, dage: real, birthRate: int)
    requires s >= 0 && d >= 0 && birthRate >= 0
    ensures Births(s, age, d, dage, birthRate) >= 0
  {
    var childbearing := (if age < 50.0 then s else 0) + (if dage < 50.0 then d else 0);
    assert childbearing as real / 1000.0 * birthRate as real >= 0.0;
  }

  /** The children buffer keeps its 20 slots: births enter at the front and
      the last slot leaves, joining the descendents. */
  lemma ChildrenBuffer(children: seq<int>, births: int)
    requires |children| == CHILD_SLOTS
    ensures var n := [births] + RemainingChildren(children);
      |n| == CHILD_SLOTS && n[0] == births && n[1..] == children[..CHILD_SLOTS - 1]
    ensures NewAdults(children) == children[CHILD_SLOTS - 1]
  {
    assert children[CHILD_SLOTS - 1..] == [children[CHILD_SLOTS - 1]];
    SumPrepend(children[CHILD_SLOTS - 1], []);
  }

  /** One year of births and deaths on a valid cohort with a non-negative
      birth rate and an accident rate of at most 1000 per thousand keeps the
      cohort valid; old age only ever removes people; the founders' average
      age rises by exactly one year; the descendents become the old-age
      survivors plus the children leaving the buffer. */
  lemma AgeOneYearShape(c: Cohort, birthRate: int, accidentRate: int, u: real, v: real)
    requires ValidCohort(c) && c.starting + c.descendents > 0
    requires 0 <= birthRate && 0 <= accidentRate <= 1000
    ensures var n := AgeOneYear(c, birthRate, accidentRate, u, v);
      var (s1, d1) := AfterAccidents(c.starting, c.descendents, accidentRate);
      && ValidCohort(n)
      && n.children[1..] == c.children[..CHILD_SLOTS - 1]
      && n.averageAge == c.averageAge + 1.0
      && 0 <= n.starting <= s1
      && c.children[CHILD_SLOTS - 1] <= n.descendents <= d1 + c.children[CHILD_SLOTS - 1]
  {
    AccidentsBounded(c.starting, c.descendents, accidentRate);
    var (s1, d1) := AfterAccidents(c.starting, c.descendents, accidentRate);
    var s2 := Survivors(s1, OldAgeLikelihood(c.averageAge, u));
    var d2 := Survivors(d1, OldAgeLikelihood(c.averageDescendentAge, v));
    SurvivorsBounds(s1, OldAgeLikelihood(c.averageAge, u));
    SurvivorsBounds(d1, OldAgeLikelihood(c.averageDescendentAge, v));
    var adults := NewAdults(c.children);
    var d3 := d2 + adults;
    var dage := MergedAge(d2, c.averageDescendentAge, adults);
    var b := Births(s2, c.averageAge + 1.0, d3, dage, birthRate);
    ChildrenBuffer(c.children, b);
    BirthsNonNegative(s2, c.averageAge + 1.0, d3, dage, birthRate);
    var n := AgeOneYear(c, birthRate, accidentRate, u, v);
    assert n == Cohort(s2, d3, c.averageAge + 1.0, dage, [b] + RemainingChildren(c.children));
  }

  /** Births never exceed the birth rate applied to the childbearing
      cohorts, and none are born once both cohorts' average age is 50 or
      more. */
  lemma BirthsWithinRate(s: int, age: real, d: int, dage: real, birthRate: int)
    requires s >= 0 && d >= 0 && birthRate >= 0
    ensures 0 <= Births(s, age, d, dage, birthRate)
    ensures Births(s, age, d, dage, birthRate) as real <= (s + d) as real / 1000.0 * birthRate as real
    ensures age >= 50.0 && dage >= 50.0 ==> Births(s, age, d, dage, birthRate) == 0
  {
    BirthsNonNegative(s, age, d, dage, birthRate);
    var childbearing := (if age < 50.0 then s else 0) + (if dage < 50.0 then d else 0);
    assert 0 <= childbearing <= s + d;
    MulMonotone(childbearing as real / 1000.0, (s + d) as real / 1000.0, birthRate as real);
  }

  /** Without descendents, every accidental death falls on the founders. */
  lemma AccidentsWithoutDescendents(starting: int, accidentRate: int)
    requires starting > 0
    ensures AfterAccidents(starting, 0, accidentRate) == (starting - AccidentalDeaths(starting, accidentRate), 0)
  {
    var accidents := AccidentalDeaths(starting, accidentRate);
    assert 0 as real / (0 + starting) as real == 0.0;
    assert accidents as real * (1.0 - 0.0) == accidents as real;
    assert accidents as real * 0.0 == 0.0;
    assert Ceil(accidents as real) == accidents;
    assert Floor(0.0) == 0;
  }

  // ---------------------------------------------------------------------------
  // Sums over a list of pops

  function SumStarting(ps: seq<Population>): int
    reads ps`startingPopulation
  {
    if ps == [] then 0 else ps[0].startingPopulation + SumStarting(ps[1..])
  }

  function SumDescendents(ps: seq<Population>): int
    reads ps`descendents
  {
    if ps == [] then 0 else ps[0].descendents + SumDescendents(ps[1..])
  }

  /** Settlement.population: the summed population of the pops. */
  function TotalPopulation(ps: seq<Population>): int
    reads ps`startingPopulation, ps`descendents
  {
    if ps == [] then 0 else ps[0].Population() + TotalPopulation(ps[1..])
  }

  /** The total splits into the founders and the descendents, and is not
      negative for valid pops. */
  lemma {:induction false} TotalPopulationSplits(ps: seq<Population>)
    ensures TotalPopulation(ps) == SumStarting(ps) + SumDescendents(ps)
    ensures (forall i :: 0 <= i < |ps| ==> ps[i].Valid()) ==> TotalPopulation(ps) >= 0
    decreases |ps|
  {
    if ps != [] {
      TotalPopulationSplits(ps[1..]);
    }
  }

  /** Sum of founders times their average age. */
  function PeopleYears(ps: seq<Population>): real
    reads ps
  {
    if ps == [] then 0.0
    else ps[0].startingPopulation as real * ps[0].averageAge + PeopleYears(ps[1..])
  }

  /** Sum of descendents times their average age. */
  function DescendentYears(ps: seq<Population>): real
    reads ps
  {
    if ps == [] then 0.0
    else ps[0].descendents as real * ps[0].averageDescendentAge + DescendentYears(ps[1..])
  }

  /** Element-wise sums of two buffers, truncated to the shorter (zip). */
  function ZipAdd(a: seq<int>, b: seq<int>): (r: seq<int>)
    ensures |r| == Min(|a|, |b|)
    ensures forall i :: 0 <= i < |r| ==> r[i] == a[i] + b[i]
  {
    seq(Min(|a|, |b|), i requires 0 <= i < Min(|a|, |b|) => a[i] + b[i])
  }

  /** [sum(c) for c in zip(*[p.children for p in ps])] */
  function ChildrenTotals(ps: seq<Population>): seq<int>
    requires |ps| > 0
    reads ps
  {
    if |ps| == 1 then ps[0].children else ZipAdd(ps[0].children, ChildrenTotals(ps[1..]))
  }

  /** Every descendent pop recorded by any pop of ps, in order. */
  function AllDescendentPops(ps: seq<Population>): seq<Population>
    reads ps`descendentPops
  {
    if ps == [] then [] else ps[0].descendentPops + AllDescendentPops(ps[1..])
  }

  lemma {:induction false} SumsOfValid(ps: seq<Population>)
    requires forall i :: 0 <= i < |ps| ==> ps[i].Valid()
    ensures SumStarting(ps) >= 0 && SumDescendents(ps) >= 0
    decreases |ps|
  {
    if ps != [] {
      SumsOfValid(ps[1..]);
    }
  }

  lemma {:induction false} SumsAppend(a: seq<Population>, b: seq<Population>)
    ensures SumStarting(a + b) == SumStarting(a) + SumStarting(b)
    ensures SumDescendents(a + b) == SumDescendents(a) + SumDescendents(b)
    decreases |a|
  {
    if a == [] {
      assert a + b == b;
    } else {
      assert (a + b)[1..] == a[1..] + b;
      SumsAppend(a[1..], b);
    }
  }

  /** Splitting a list of pops by any test splits its sums. */
  lemma {:induction false} SumsSplit(ps: seq<Population>, keep: Population -> bool)
    ensures SumStarting(Filter(ps, keep)) + SumStarting(Reject(ps, keep)) == SumStarting(ps)
    ensures SumDescendents(Filter(ps, keep)) + SumDescendents(Reject(ps, keep)) == SumDescendents(ps)
    decreases |ps|
  {
    if ps != [] {
      SumsSplit(ps[1..], keep);
      var head := [ps[0]];
      if keep(ps[0]) {
        assert Filter(ps, keep) == head + Filter(ps[1..], keep);
        assert Reject(ps, keep) == Reject(ps[1..], keep);
        SumsAppend(head, Filter(ps[1..], keep));
      } else {
        assert Filter(ps, keep) == Filter(ps[1..], keep);
        assert Reject(ps, keep) == head + Reject(ps[1..], keep);
        SumsAppend(head, Reject(ps[1..], keep));
      }
    }
  }

  /** A group of valid pops has a valid 20-slot children total. */
  lemma {:induction false} ChildrenTotalsValid(ps: seq<Population>)
    requires |ps| > 0
    requires forall i :: 0 <= i < |ps| ==> ps[i].Valid()
    ensures |ChildrenTotals(ps)| == CHILD_SLOTS
    ensures forall n :: 0 <= n < CHILD_SLOTS ==> ChildrenTotals(ps)[n] >= 0
    decreases |ps|
  {
    if |ps| > 1 {
      ChildrenTotalsValid(ps[1..]);
    }
  }

  // ---------------------------------------------------------------------------
  // Trait inheritance

  /** Trait k of t, in the order inherit_statistics assigns them. */
  function TraitValue(t: Traits, k: nat): Unit
    requires k < 8
  {
    match k
    case 0 => t.stationaryMigrant
    case 1 => t.opinion.autocraticDemocratic
    case 2 => t.opinion.conservativeProgressive
    case 3 => t.opinion.pacifistMilitaristic
    case 4 => t.opinion.secularReligious
    case 5 => t.settlerColonial
    case 6 => t.opinion.traditionalistTechnological
    case _ => t.tolerance
  }

  function TraitColumn(ts: seq<Traits>, k: nat): (col: seq<real>)
    requires k < 8
    ensures |col| == |ts|
    ensures forall j :: 0 <= j < |ts| ==> col[j] == TraitValue(ts[j], k)
  {
    seq(|ts|, j requires 0 <= j < |ts| => TraitValue(ts[j], k) as real)
  }

  function TraitsOf(ps: seq<Population>): (ts: seq<Traits>)
    ensures |ts| == |ps|
    ensures forall i :: 0 <= i < |ps| ==> ts[i] == ps[i].traits
  {
    seq(|ps|, i requires 0 <= i < |ps| => ps[i].traits)
  }

  function OpinionsOf(ts: seq<Traits>): (ops: seq<Opinion>)
    ensures |ops| == |ts|
    ensures forall i :: 0 <= i < |ts| ==> ops[i] == ts[i].opinion
  {
    seq(|ts|, i requires 0 <= i < |ts| => ts[i].opinion)
  }

  /** One inherited trait: the parents' mean plus a deviation draw, clamped
      into [0, 1]; it never lies further from the mean than the draw. */
  function InheritTrait(values: seq<real>, draw: real): (t: Unit)
    requires |values| > 0
    requires forall i :: 0 <= i < |values| ==> 0.0 <= values[i] <= 1.0
    ensures Abs(t - Mean(values)) <= Abs(draw)
  {
    MeanBounds(values, 0.0, 1.0);
    Clamp(Mean(values) + draw, 0.0, 1.0)
  }

  /** inherit_statistics, with its eight rng.uniform(-deviation, deviation)
      draws given in the order the traits are assigned. */
  function InheritTraits(ts: seq<Traits>, draws: seq<real>): (r: Traits)
    requires |ts| > 0 && |draws| == 8
  {
    var t0 := InheritTrait(TraitColumn(ts, 0), draws[0]);
    var t1 := InheritTrait(TraitColumn(ts, 1), draws[1]);
    var t2 := InheritTrait(TraitColumn(ts, 2), draws[2]);
    var t3 := InheritTrait(TraitColumn(ts, 3), draws[3]);
    var t4 := InheritTrait(TraitColumn(ts, 4), draws[4]);
    var t5 := InheritTrait(TraitColumn(ts, 5), draws[5]);
    var t6 := InheritTrait(TraitColumn(ts, 6), draws[6]);
    var t7 := InheritTrait(TraitColumn(ts, 7), draws[7]);
    Traits(t0, t5, t7, Opinion(t1, t2, t3, t4, t6))
  }

  /** Every inherited trait lies within its draw of the parents' mean. */
  lemma InheritedNearMean(ts: seq<Traits>, draws: seq<real>)
    requires |ts| > 0 && |draws| == 8
    ensures var r := InheritTraits(ts, draws);
      forall k :: 0 <= k < 8 ==> Abs(TraitValue(r, k) - Mean(TraitColumn(ts, k))) <= Abs(draws[k])
  {
  }

  const NO_DEVIATION: seq<real> := [0.0, 0.0, 0.0, 0.0, 0.0, 0.0, 0.0, 0.0]

  /** Inheriting with deviation 0 (as merging does) gives the parents' mean
      in every trait; the political axes are exactly average_opinion. */
  lemma InheritWithoutDeviation(ts: seq<Traits>)
    requires |ts| > 0
    ensures forall k :: 0 <= k < 8 ==> TraitValue(InheritTraits(ts, NO_DEVIATION), k) == Mean(TraitColumn(ts, k))
    ensures InheritTraits(ts, NO_DEVIATION).opinion == AverageOpinion(OpinionsOf(ts))
  {
    var r := InheritTraits(ts, NO_DEVIATION);
    InheritedNearMean(ts, NO_DEVIATION);
    forall k | 0 <= k < 8
      ensures TraitValue(r, k) == Mean(TraitColumn(ts, k))
    {
      assert Abs(NO_DEVIATION[k]) == 0.0;
    }
    var a := AverageOpinion(OpinionsOf(ts));
    AverageIsMean(OpinionsOf(ts));
    forall i | 0 <= i < 5
      ensures Trait(r.opinion, i) == Trait(a, i)
    {
      AxisColumn(ts, i);
      AxisValue(r, i);
    }
    OpinionsEqual(r.opinion, a);
  }

  /** Where political axis i sits among the eight traits. */
  function AxisIndex(i: nat): (k: nat)
    requires i < 5
    ensures k < 8
  {
    [1, 2, 3, 4, 6][i]
  }

  lemma AxisValue(t: Traits, i: nat)
    requires i < 5
    ensures TraitValue(t, AxisIndex(i)) == Trait(t.opinion, i)
  {
  }

  lemma AxisColumn(ts: seq<Traits>, i: nat)
    requires i < 5
    ensures TraitColumn(ts, AxisIndex(i)) == Column(OpinionsOf(ts), i)
  {
    var a := TraitColumn(ts, AxisIndex(i));
    var b := Column(OpinionsOf(ts), i);
    forall j | 0 <= j < |ts|
      ensures a[j] == b[j]
    {
      AxisValue(ts[j], i);
    }
  }

  function SizesOf(ps: seq<Population>): (sizes: seq<int>)
    ensures |sizes| == |ps|
    ensures forall i :: 0 <= i < |ps| ==> sizes[i] == ps[i].preferredPopulationSize
  {
    seq(|ps|, i requires 0 <= i < |ps| => ps[i].preferredPopulationSize)
  }

  /** The inherited preferred size: the rounded mean of the parents' plus a
      draw from [-1000, 1000], kept within [10, 1000]. */
  function InheritedSize(sizes: seq<int>, draw: int): (n: int)
    requires |sizes| > 0
    ensures 10 <= n <= 1000
  {
    ClampInt(RoundHalfEven(Sum(sizes) as real / |sizes| as real) + draw, 10, 1000)
  }

  /** The inherited size is the shifted rounded mean whenever that lies in
      [10, 1000], and the nearer bound otherwise. */
  lemma InheritedSizeClamps(sizes: seq<int>, draw: int)
    requires |sizes| > 0
    ensures var n := InheritedSize(sizes, draw);
      var m := RoundHalfEven(Sum(sizes) as real / |sizes| as real) + draw;
      (10 <= m <= 1000 ==> n == m) && (m < 10 ==> n == 10) && (m > 1000 ==> n == 1000)
  {
  }

  // ---------------------------------------------------------------------------
  // merge_small_pops

  /** The test "primary ancestry tag is tag". */
  function HasTag(tag: string): Population -> bool
  {
    (p: Population) => |p.ancestry| > 0 && p.ancestry[0].0 == tag
  }

  /** Two pops share their primary ancestry tag. */
  predicate SameTag(p: Population, q: Population)
  {
    |p.ancestry| > 0 && |q.ancestry| > 0 && p.ancestry[0].0 == q.ancestry[0].0
  }

  /** What a merged pop is made of: the summed cohort, the inherited traits
      and size, and the union of the recorded descendent pops. */
  datatype Merger = Merger(cohort: Cohort, traits: Traits, size: int, lineage: seq<Population>)

  /** The merge of a group: founders, descendents and children summed, the
      average ages weighted by head count, traits the group's mean. */
  function Merging(group: seq<Population>, sizeDraw: int): (m: Merger)
    requires |group| > 0 && SumStarting(group) != 0
    reads group
  {
    Merger(
      MergedCohort(group),
      InheritTraits(TraitsOf(group), NO_DEVIATION),
      InheritedSize(SizesOf(group), sizeDraw),
      Dedup(AllDescendentPops(group)))
  }

  /** The cohort of the pop merged from a group: summed founders,
      descendents and children, and head-count-weighted ages (0.0 for a group
      with no founders, which is dropped). */
  function MergedCohort(group: seq<Population>): (c: Cohort)
    requires |group| > 0
    reads group
    ensures c.starting == SumStarting(group) && c.descendents == SumDescendents(group)
  {
    var starting := SumStarting(group);
    var descendents := SumDescendents(group);
    Cohort(
      starting,
      descendents,
      if starting != 0 then PeopleYears(group) / starting as real else 0.0,
      if descendents > 0 then DescendentYears(group) / descendents as real else 0.0,
      ChildrenTotals(group))
  }

  /** Population(rng, starting, [(tag, 100)]) followed by the field updates
      merge_small_pops makes. */
  method NewMergedPop(tag: string, m: Merger) returns (merged: Population)
    requires m.cohort.starting >= 0 && m.cohort.descendents >= 0
    requires m.cohort.descendents == 0 ==> m.cohort.averageDescendentAge == 0.0
    ensures fresh(merged)
    ensures merged.Snapshot() == m.cohort
    ensures merged.traits == m.traits && merged.preferredPopulationSize == m.size
    ensures merged.ancestry == [(tag, 100)] && merged.descendentPops == m.lineage
    ensures merged.mergeable && merged.generation == 0 && merged.happiness == 1.0
  {
    merged := new Population(m.cohort.starting, [(tag, 100)], m.traits, m.size);
    merged.averageAge := m.cohort.averageAge;
    merged.descendents := m.cohort.descendents;
    if m.cohort.descendents > 0 {
      merged.averageDescendentAge := m.cohort.averageDescendentAge;
    }
    merged.children := m.cohort.children;
    merged.descendentPops := m.lineage;
  }

  /** Merges one group into a fresh pop tagged [(tag, 100)], or gives null
      when the group's founders sum to 0 (the group is dropped). */
  method MergeGroup(group: seq<Population>, tag: string, sizeDraw: int) returns (merged: Population?)
    requires |group| > 0
    requires forall i :: 0 <= i < |group| ==> group[i].Valid()
    requires -1000 <= sizeDraw <= 1000
    ensures merged == null <==> old(SumStarting(group)) == 0
    ensures merged != null ==> fresh(merged) && merged.Valid() && merged.mergeable && merged.generation == 0
    ensures merged != null ==> merged.ancestry == [(tag, 100)]
    ensures merged != null ==> merged.startingPopulation == SumStarting(group) && merged.descendents == SumDescendents(group)
    ensures merged != null ==> (
              && old(SumStarting(group)) != 0
              && var m := old(Merging(group, sizeDraw));
              && merged.Snapshot() == m.cohort && merged.traits == m.traits
              && merged.preferredPopulationSize == m.size && merged.descendentPops == m.lineage)
  {
    if SumStarting(group) == 0 {
      return null;
    }
    SumsOfValid(group);
    ChildrenTotalsValid(group);
    var m := Merging(group, sizeDraw);
    merged := NewMergedPop(tag, m);
    SumsFrame(group);
  }

  /** A merged pop holds the group's founders and descendents, element-wise
      summed children, head-count-weighted ages, the group's mean traits
      (average_opinion on the political axes) and a preferred size in
      [10, 1000]. */
  lemma MergingSums(group: seq<Population>, sizeDraw: int)
    requires |group| > 0 && SumStarting(group) != 0
    requires forall i :: 0 <= i < |group| ==> group[i].Valid()
    ensures var m := Merging(group, sizeDraw);
      && m.cohort.starting == SumStarting(group) && m.cohort.descendents == SumDescendents(group)
      && |m.cohort.children| == CHILD_SLOTS
      && (forall n :: 0 <= n < CHILD_SLOTS ==> m.cohort.children[n] == SlotTotal(group, n))
      && m.traits.opinion == AverageOpinion(OpinionsOf(TraitsOf(group)))
      && 10 <= m.size <= 1000
  {
    ChildrenTotalsValid(group);
    ChildrenTotalsSlots(group);
    InheritWithoutDeviation(TraitsOf(group));
  }

  /** The number of children in slot n over a list of pops. */
  function SlotTotal(ps: seq<Population>, n: nat): int
    reads ps
  {
    if ps == [] then 0
    else (if n < |ps[0].children| then ps[0].children[n] else 0) + SlotTotal(ps[1..], n)
  }

  lemma {:induction false} ChildrenTotalsSlots(ps: seq<Population>)
    requires |ps| > 0
    requires forall i :: 0 <= i < |ps| ==> ps[i].Valid()
    ensures |ChildrenTotals(ps)| == CHILD_SLOTS
    ensures forall n :: 0 <= n < CHILD_SLOTS ==> ChildrenTotals(ps)[n] == SlotTotal(ps, n)
    decreases |ps|
  {
    ChildrenTotalsValid(ps);
    if |ps| > 1 {
      ChildrenTotalsSlots(ps[1..]);
      ChildrenTotalsValid(ps[1..]);
    }
  }

  /** The loop collecting every pop whose primary tag is tag, in order. */
  method CollectPartners(remaining: seq<Population>, tag: string) returns (partners: seq<Population>)
    requires forall i :: 0 <= i < |remaining| ==> |remaining[i].ancestry| > 0
    ensures partners == Filter(remaining, HasTag(tag))
  {
    partners := [];
    for i := 0 to |remaining|
      invariant partners == Filter(remaining[..i], HasTag(tag))
    {
      assert remaining[..i + 1] == remaining[..i] + [remaining[i]];
      FilterAppend(remaining[..i], [remaining[i]], HasTag(tag));
      if remaining[i].PrimaryTag() == tag {
        partners := partners + [remaining[i]];
      }
    }
    assert remaining[..|remaining|] == remaining;
  }

  /** The loop removing each partner in turn with list.remove: what remains
      is exactly the pops with another primary tag, in their order. */
  method RemovePartners(remaining: seq<Population>, tag: string, partners: seq<Population>)
    returns (rest: seq<Population>)
    requires partners == Filter(remaining, HasTag(tag))
    ensures rest == Reject(remaining, HasTag(tag))
  {
    rest := remaining;
    for i := 0 to |partners|
      invariant Filter(rest, HasTag(tag)) == partners[i..]
      invariant Reject(rest, HasTag(tag)) == Reject(remaining, HasTag(tag))
    {
      RemoveFirstAccepted(rest, HasTag(tag));
      rest := RemoveFirst(rest, partners[i]);
    }
    NothingAccepted(rest, HasTag(tag));
  }

  /** The merging turn: the partners leave the remaining list and, together
      with the candidate, become one merged pop (out holds it), or nothing
      when their founders sum to 0. */
  method MergePartners(candidate: Population, remaining: seq<Population>, tag: string, partners: seq<Population>)
    returns (out: seq<Population>, rest: seq<Population>)
    requires candidate.Valid() && candidate.mergeable && tag == candidate.PrimaryTag()
    requires forall i :: 0 <= i < |remaining| ==> remaining[i].Valid()
    requires partners == Filter(remaining, HasTag(tag))
    ensures |out| <= 1 && (out == [] <==> old(MergedCohort(partners + [candidate])).starting == 0)
    ensures forall i :: 0 <= i < |out| ==> fresh(out[i]) && out[i].Valid() && out[i].mergeable && SameTag(out[i], candidate)
    ensures rest == Reject(remaining, HasTag(tag))
    ensures SumStarting(out) + SumStarting(rest) == candidate.startingPopulation + SumStarting(remaining)
    ensures SumDescendents(out) + SumDescendents(rest) <= candidate.descendents + SumDescendents(remaining)
    ensures forall i :: 0 <= i < |out| ==> out[i].ancestry == [(tag, 100)] && out[i].startingPopulation > 0
    ensures forall i :: 0 <= i < |out| ==> out[i].Snapshot() == old(MergedCohort(partners + [candidate]))
    ensures forall i :: 0 <= i < |out| ==> out[i].traits == InheritTraits(TraitsOf(partners + [candidate]), NO_DEVIATION)
  {
    rest := RemovePartners(remaining, tag, partners);
    var group := partners + [candidate];
    SumsOfValid(group);
    GroupSums(candidate, remaining, tag);
    ghost var starting, descendents := SumStarting(group), SumDescendents(group);
    out := MergeOutcome(group, tag, rest, remaining);
    assert SumStarting(out) == starting && SumDescendents(out) <= descendents;
  }

  /** The candidate's group and the pops left without its tag hold what
      the candidate and the remaining pops held. */
  lemma GroupSums(candidate: Population, remaining: seq<Population>, tag: string)
    ensures var group, rest := Filter(remaining, HasTag(tag)) + [candidate], Reject(remaining, HasTag(tag));
            && SumStarting(group) + SumStarting(rest) == candidate.startingPopulation + SumStarting(remaining)
            && SumDescendents(group) + SumDescendents(rest) == candidate.descendents + SumDescendents(remaining)
  {
    SumsAppend(Filter(remaining, HasTag(tag)), [candidate]);
    SumsOfOne(candidate);
    SumsSplit(remaining, HasTag(tag));
  }

  /** The merged pop of a group as a list of at most one pop: empty when the
      group has no founders. */
  method MergeOutcome(group: seq<Population>, tag: string, ghost rest: seq<Population>, ghost remaining: seq<Population>)
    returns (out: seq<Population>)
    requires |group| > 0 && forall i :: 0 <= i < |group| ==> group[i].Valid()
    ensures SumStarting(rest) == old(SumStarting(rest)) && SumDescendents(rest) == old(SumDescendents(rest))
    ensures SumStarting(remaining) == old(SumStarting(remaining))
    ensures SumDescendents(remaining) == old(SumDescendents(remaining))
    ensures |out| <= 1 && (out == [] <==> old(SumStarting(group)) == 0)
    ensures forall i :: 0 <= i < |out| ==> fresh(out[i]) && out[i].Valid() && out[i].mergeable
    ensures forall i :: 0 <= i < |out| ==> out[i].ancestry == [(tag, 100)]
    ensures SumStarting(out) == old(SumStarting(group))
    ensures SumDescendents(out) <= old(SumDescendents(group))
    ensures out != [] ==> SumDescendents(out) == old(SumDescendents(group))
    ensures forall i :: 0 <= i < |out| ==> out[i].Snapshot() == old(MergedCohort(group)) && out[i].startingPopulation > 0
    ensures forall i :: 0 <= i < |out| ==> out[i].traits == InheritTraits(TraitsOf(group), NO_DEVIATION)
  {
    SumsOfValid(group);
    var sizeDraw :| -1000 <= sizeDraw <= 1000;
    var merged := MergeGroup(group, tag, sizeDraw);
    if merged == null {
      out := [];
    } else {
      var m: Population := merged;
      out := [m];
      SumsOfOne(m);
    }
    SumsFrame(group);
  }

  lemma SumsOfOne(p: Population)
    ensures SumStarting([p]) == p.startingPopulation && SumDescendents([p]) == p.descendents
  {
  }

  /** Sums over pops whose fields did not change are unchanged. */
  twostate lemma SumsFrame(ps: seq<Population>)
    requires forall i :: 0 <= i < |ps| ==> old(allocated(ps[i])) && unchanged(ps[i])
    ensures SumStarting(ps) == old(SumStarting(ps)) && SumDescendents(ps) == old(SumDescendents(ps))
  {
  }

  /** What merge_small_pops keeps true while draining: every pop is valid,
      the remaining pops come from the input, the founders' total is
      conserved, descendents are never gained, and no mergeable pop already
      emitted shares its primary tag with another emitted mergeable pop or
      with a pop still remaining. */
  ghost predicate MergeInvariant(pops: seq<Population>, done: seq<Population>, remaining: seq<Population>)
    reads pops, done, remaining
  {
    && AllValid(done) && AllValid(remaining)
    && (forall i :: 0 <= i < |remaining| ==> remaining[i] in pops)
    && SumStarting(done) + SumStarting(remaining) == SumStarting(pops)
    && SumDescendents(done) + SumDescendents(remaining) <= SumDescendents(pops)
    && TagsApart(done, remaining)
  }

  ghost predicate AllValid(ps: seq<Population>)
    reads ps
  {
    forall i :: 0 <= i < |ps| ==> ps[i].Valid()
  }

  /** No two mergeable pops of done share a primary tag, and none shares its
      tag with a pop of remaining. */
  ghost predicate TagsApart(done: seq<Population>, remaining: seq<Population>)
    reads done
  {
    && (forall i, j :: 0 <= i < j < |done| && done[i].mergeable && done[j].mergeable ==> !SameTag(done[i], done[j]))
    && (forall i, j :: 0 <= i < |done| && done[i].mergeable && 0 <= j < |remaining| ==> !SameTag(done[i], remaining[j]))
  }

  /** Emitting pops whose tags are new to done and absent from what remains
      keeps the tags apart. */
  lemma TagsApartStep(done: seq<Population>, out: seq<Population>, rest: seq<Population>, candidate: Population,
                      after: seq<Population>)
    requires TagsApart(done, rest + [candidate])
    requires forall j :: 0 <= j < |after| ==> after[j] in rest
    requires forall i :: 0 <= i < |out| ==> out[i].mergeable ==> SameTag(out[i], candidate)
    requires |out| <= 1
    requires forall i :: 0 <= i < |out| ==> out[i].mergeable ==> forall j :: 0 <= j < |after| ==> !SameTag(out[i], after[j])
    ensures TagsApart(done + out, after)
  {
    var whole := rest + [candidate];
    var next := done + out;
    forall i, j | 0 <= i < j < |next| && next[i].mergeable && next[j].mergeable
      ensures !SameTag(next[i], next[j])
    {
      if j >= |done| {
        assert j == |done| && i < |done|;
        assert !SameTag(done[i], whole[|rest|]);
      }
    }
    forall i, j | 0 <= i < |next| && next[i].mergeable && 0 <= j < |after|
      ensures !SameTag(next[i], after[j])
    {
      if i < |done| {
        var k :| 0 <= k < |rest| && rest[k] == after[j];
        assert !SameTag(done[i], whole[k]);
      }
    }
  }

  /** A candidate that is emitted unchanged (not mergeable, or without
      partners) keeps the invariant. */
  lemma EmitCandidate(pops: seq<Population>, done: seq<Population>, rest: seq<Population>, candidate: Population)
    requires candidate.Valid()
    requires MergeInvariant(pops, done, rest + [candidate])
    requires candidate.mergeable ==> Filter(rest, HasTag(candidate.PrimaryTag())) == []
    ensures MergeInvariant(pops, done + [candidate], rest)
  {
    var whole := rest + [candidate];
    SumsAppend(rest, [candidate]);
    SumsAppend(done, [candidate]);
    if candidate.mergeable {
      NothingAccepted(rest, HasTag(candidate.PrimaryTag()));
    }
    forall j | 0 <= j < |rest|
      ensures rest[j] == whole[j]
    {
    }
    TagsApartStep(done, [candidate], rest, candidate, rest);
  }

  /** Absorbing the partners of a mergeable candidate (the pops with its
      tag) and emitting the merged pop, or nothing, keeps the invariant. */
  lemma EmitMerged(pops: seq<Population>, done: seq<Population>, rest: seq<Population>, candidate: Population,
                   out: seq<Population>, after: seq<Population>)
    requires candidate.Valid() && candidate.mergeable
    requires MergeInvariant(pops, done, rest + [candidate])
    requires after == Reject(rest, HasTag(candidate.PrimaryTag()))
    requires |out| <= 1
    requires forall i :: 0 <= i < |out| ==> out[i].Valid() && out[i].mergeable && SameTag(out[i], candidate)
    requires SumStarting(out) + SumStarting(after) == candidate.startingPopulation + SumStarting(rest)
    requires SumDescendents(out) + SumDescendents(after) <= candidate.descendents + SumDescendents(rest)
    ensures MergeInvariant(pops, done + out, after)
  {
    var whole := rest + [candidate];
    SumsAppend(rest, [candidate]);
    SumsAppend(done, out);
    forall j | 0 <= j < |rest|
      ensures rest[j] == whole[j]
    {
    }
    forall j | 0 <= j < |after|
      ensures after[j] in rest && !SameTag(candidate, after[j])
    {
    }
    TagsApartStep(done, out, rest, candidate, after);
  }

  /** One turn of merge_small_pops' loop as a value: the candidate passes
      through as it is, or the group of pops sharing its tag is merged into
      a pop with the given cohort. */
  /** What a turn of merge_small_pops reads from a pop: the pop itself
      (whose ancestry, and so its primary tag, never changes), its mergeable
      flag and its cohort. */
  datatype Entry = Entry(pop: Population, mergeable: bool, cohort: Cohort)

  /** One turn of merge_small_pops: the candidate passes through, or it and
      its partners are merged into one pop with the given tag and cohort. */
  datatype MergeStep = Pass(entry: Entry) | Merge(tag: string, group: seq<Entry>, cohort: Cohort)

  /** Every pop of the list has an ancestry, so a primary tag. */
  predicate Tagged(ps: seq<Population>)
  {
    forall i :: 0 <= i < |ps| ==> |ps[i].ancestry| > 0
  }

  lemma ValidTagged(ps: seq<Population>)
    requires forall i :: 0 <= i < |ps| ==> ps[i].Valid()
    ensures Tagged(ps)
  {
    forall i | 0 <= i < |ps|
      ensures |ps[i].ancestry| > 0
    {
      assert ps[i].Valid();
    }
  }

  /** The entry of p as it stands now. */
  ghost function EntryOf(p: Population): Entry
    reads p
  {
    Entry(p, p.mergeable, p.Snapshot())
  }

  /** es lists the pops of ps as they stand now. */
  ghost predicate Describes(es: seq<Entry>, ps: seq<Population>)
    reads ps
    decreases |ps|
  {
    |es| == |ps| && (ps != [] ==> es[0] == EntryOf(ps[0]) && Describes(es[1..], ps[1..]))
  }

  /** The entries of ps as they stand now. */
  ghost function Entries(ps: seq<Population>): seq<Entry>
    reads ps
    decreases |ps|
  {
    if ps == [] then [] else [EntryOf(ps[0])] + Entries(ps[1..])
  }

  lemma {:induction false} EntriesDescribe(ps: seq<Population>)
    ensures Describes(Entries(ps), ps)
    decreases |ps|
  {
    if ps != [] {
      EntriesDescribe(ps[1..]);
      assert Entries(ps)[1..] == Entries(ps[1..]);
    }
  }

  /** A list has only the one description. */
  lemma {:induction false} DescribedEntries(es: seq<Entry>, ps: seq<Population>)
    requires Describes(es, ps)
    ensures es == Entries(ps)
    decreases |ps|
  {
    if ps != [] {
      DescribedEntries(es[1..], ps[1..]);
      assert es == [es[0]] + es[1..];
    }
  }

  lemma {:induction false} DescribesAt(es: seq<Entry>, ps: seq<Population>, i: nat)
    requires Describes(es, ps) && i < |ps|
    ensures es[i] == EntryOf(ps[i])
    decreases i
  {
    if i > 0 {
      DescribesAt(es[1..], ps[1..], i - 1);
    }
  }

  /** Describing a list is describing both of its parts. */
  lemma {:induction false} DescribesSplit(es: seq<Entry>, ps: seq<Population>, n: nat)
    requires Describes(es, ps) && n <= |ps|
    ensures Describes(es[..n], ps[..n]) && Describes(es[n..], ps[n..])
    decreases n
  {
    if n > 0 {
      DescribesSplit(es[1..], ps[1..], n - 1);
      assert es[1..][..n - 1] == es[..n][1..] && ps[1..][..n - 1] == ps[..n][1..];
      assert es[1..][n - 1..] == es[n..] && ps[1..][n - 1..] == ps[n..];
    } else {
      assert es[n..] == es && ps[n..] == ps;
    }
  }

  lemma {:induction false} DescribesAppend(a: seq<Entry>, b: seq<Entry>, pa: seq<Population>, pb: seq<Population>)
    requires Describes(a, pa) && Describes(b, pb)
    ensures Describes(a + b, pa + pb)
    decreases |pa|
  {
    if pa == [] {
      assert a + b == b && pa + pb == pb;
    } else {
      DescribesAppend(a[1..], b, pa[1..], pb);
      assert (a + b)[1..] == a[1..] + b && (pa + pb)[1..] == pa[1..] + pb;
    }
  }

  lemma DescribedTagged(es: seq<Entry>, ps: seq<Population>)
    requires Describes(es, ps) && Tagged(ps)
    ensures EntriesTagged(es)
  {
    forall i | 0 <= i < |es|
      ensures |es[i].pop.ancestry| > 0
    {
      DescribesAt(es, ps, i);
    }
  }

  /** Every entry's pop has a primary tag. */
  predicate EntriesTagged(es: seq<Entry>)
  {
    forall i :: 0 <= i < |es| ==> |es[i].pop.ancestry| > 0
  }

  /** The test "primary ancestry tag is tag", on entries. */
  function OfTag(tag: string): Entry -> bool
  {
    (e: Entry) => |e.pop.ancestry| > 0 && e.pop.ancestry[0].0 == tag
  }

  function EntryStarting(es: seq<Entry>): int
  {
    if es == [] then 0 else es[0].cohort.starting + EntryStarting(es[1..])
  }

  function EntryDescendents(es: seq<Entry>): int
  {
    if es == [] then 0 else es[0].cohort.descendents + EntryDescendents(es[1..])
  }

  function EntryPeopleYears(es: seq<Entry>): real
  {
    if es == [] then 0.0 else es[0].cohort.starting as real * es[0].cohort.averageAge + EntryPeopleYears(es[1..])
  }

  function EntryDescendentYears(es: seq<Entry>): real
  {
    if es == [] then 0.0
    else es[0].cohort.descendents as real * es[0].cohort.averageDescendentAge + EntryDescendentYears(es[1..])
  }

  function EntryChildren(es: seq<Entry>): seq<int>
    requires |es| > 0
  {
    if |es| == 1 then es[0].cohort.children else ZipAdd(es[0].cohort.children, EntryChildren(es[1..]))
  }

  /** The cohort merged from a group of entries, as MergedCohort computes it
      from the pops. */
  function Combined(group: seq<Entry>): Cohort
    requires |group| > 0
  {
    var starting := EntryStarting(group);
    var descendents := EntryDescendents(group);
    Cohort(
      starting,
      descendents,
      if starting != 0 then EntryPeopleYears(group) / starting as real else 0.0,
      if descendents > 0 then EntryDescendentYears(group) / descendents as real else 0.0,
      EntryChildren(group))
  }

  /** Sums over the entries are the sums over the pops they describe. */
  lemma {:induction false} SumsDescribed(es: seq<Entry>, ps: seq<Population>)
    requires Describes(es, ps)
    ensures EntryStarting(es) == SumStarting(ps) && EntryDescendents(es) == SumDescendents(ps)
    ensures EntryPeopleYears(es) == PeopleYears(ps) && EntryDescendentYears(es) == DescendentYears(ps)
    ensures |es| > 0 ==> EntryChildren(es) == ChildrenTotals(ps)
    decreases |ps|
  {
    if ps != [] {
      assert Describes(es[1..], ps[1..]);
      SumsDescribed(es[1..], ps[1..]);
    }
  }

  lemma CombinedDescribed(es: seq<Entry>, ps: seq<Population>)
    requires Describes(es, ps) && |ps| > 0
    ensures Combined(es) == MergedCohort(ps)
  {
    SumsDescribed(es, ps);
  }

  /** Selecting by tag picks the same pops from the entries as from the
      list. */
  lemma {:induction false} SelectDescribed(es: seq<Entry>, ps: seq<Population>, tag: string)
    requires Describes(es, ps)
    ensures Describes(Filter(es, OfTag(tag)), Filter(ps, HasTag(tag)))
    ensures Describes(Reject(es, OfTag(tag)), Reject(ps, HasTag(tag)))
    decreases |ps|
  {
    if ps != [] {
      var keep, test := OfTag(tag), HasTag(tag);
      SelectDescribed(es[1..], ps[1..], tag);
      assert keep(es[0]) == test(ps[0]);
      var kept, taken := if keep(es[0]) then [es[0]] else [], if test(ps[0]) then [ps[0]] else [];
      var left, untaken := if keep(es[0]) then [] else [es[0]], if test(ps[0]) then [] else [ps[0]];
      assert Describes(kept, taken) && Describes(left, untaken);
      DescribesAppend(kept, Filter(es[1..], keep), taken, Filter(ps[1..], test));
      DescribesAppend(left, Reject(es[1..], keep), untaken, Reject(ps[1..], test));
    }
  }

  /** The turns merge_small_pops takes on a list, in order: the candidate is
      the last remaining pop; a non-mergeable one, or one no remaining pop
      shares a primary tag with, passes through; otherwise it and every
      remaining pop with its tag (whatever their own flag) form a group, and
      the rest carries on without them. */
  function MergePlan(remaining: seq<Entry>): (plan: seq<MergeStep>)
    requires EntriesTagged(remaining)
    decreases |remaining|
  {
    if remaining == [] then [] else [NextStep(remaining)] + MergePlan(AfterStep(remaining))
  }

  /** The turn taken on the last remaining pop, the candidate. */
  function NextStep(remaining: seq<Entry>): MergeStep
    requires remaining != [] && EntriesTagged(remaining)
  {
    var candidate := remaining[|remaining| - 1];
    var rest := remaining[..|remaining| - 1];
    var tag := candidate.pop.PrimaryTag();
    var partners := Filter(rest, OfTag(tag));
    if !candidate.mergeable || partners == [] then Pass(candidate)
    else
      var group := partners + [candidate];
      Merge(tag, group, Combined(group))
  }

  /** What remains after that turn: the others, without the group when one
      was merged. */
  function AfterStep(remaining: seq<Entry>): (after: seq<Entry>)
    requires remaining != [] && EntriesTagged(remaining)
    ensures |after| < |remaining| && EntriesTagged(after)
  {
    var candidate := remaining[|remaining| - 1];
    var rest := remaining[..|remaining| - 1];
    var tag := candidate.pop.PrimaryTag();
    if !candidate.mergeable || Filter(rest, OfTag(tag)) == [] then rest else Reject(rest, OfTag(tag))
  }

  /** The plan's next step on the entries of a list whose candidate passes
      through: the candidate's entry is passed and the others are left. */
  lemma PassDescribed(es: seq<Entry>, rest: seq<Population>, candidate: Population)
    requires es == Entries(rest + [candidate]) && Tagged(rest) && |candidate.ancestry| > 0
    requires candidate.mergeable ==> Filter(rest, HasTag(candidate.PrimaryTag())) == []
    ensures EntriesTagged(es)
    ensures NextStep(es) == Pass(EntryOf(candidate)) && AfterStep(es) == Entries(rest)
  {
    var remaining := rest + [candidate];
    var n := |rest|;
    assert remaining[..n] == rest && remaining[n] == candidate;
    assert Tagged(remaining);
    EntriesDescribe(remaining);
    DescribedTagged(es, remaining);
    DescribesSplit(es, remaining, n);
    DescribesAt(es, remaining, n);
    SelectDescribed(es[..n], rest, candidate.PrimaryTag());
    DescribedEntries(AfterStep(es), rest);
  }

  /** The plan's next step on the entries of a list whose mergeable
      candidate has partners: the group is merged into the cohort
      MergedCohort computes, and the pops without the candidate's tag are
      left. */
  lemma MergeDescribed(es: seq<Entry>, rest: seq<Population>, candidate: Population)
    requires es == Entries(rest + [candidate]) && Tagged(rest) && |candidate.ancestry| > 0
    requires candidate.mergeable && Filter(rest, HasTag(candidate.PrimaryTag())) != []
    ensures EntriesTagged(es)
    ensures var tag := candidate.PrimaryTag();
            && NextStep(es).Merge? && NextStep(es).tag == tag
            && NextStep(es).cohort == MergedCohort(Filter(rest, HasTag(tag)) + [candidate])
            && PopsOf(NextStep(es).group) == Filter(rest, HasTag(tag)) + [candidate]
            && AfterStep(es) == Entries(Reject(rest, HasTag(tag)))
  {
    var remaining := rest + [candidate];
    var n := |rest|;
    assert remaining[..n] == rest && remaining[n] == candidate;
    var tag := candidate.PrimaryTag();
    assert Tagged(remaining);
    EntriesDescribe(remaining);
    DescribedTagged(es, remaining);
    DescribesSplit(es, remaining, n);
    DescribesAt(es, remaining, n);
    var others := es[..n];
    SelectDescribed(others, rest, tag);
    var partners := Filter(rest, HasTag(tag));
    var group := Filter(others, OfTag(tag)) + [es[n]];
    assert es[..|es| - 1] == others && es[|es| - 1] == EntryOf(candidate);
    MergesWithPartners(es, tag);
    assert Describes([es[n]], [candidate]);
    DescribesAppend(Filter(others, OfTag(tag)), [es[n]], partners, [candidate]);
    CombinedDescribed(group, partners + [candidate]);
    DescribedPops(group, partners + [candidate]);
    DescribedEntries(Reject(others, OfTag(tag)), Reject(rest, HasTag(tag)));
  }

  /** A mergeable last entry with partners of its tag among the others
      merges with them, and the others without that tag are left. */
  lemma MergesWithPartners(es: seq<Entry>, tag: string)
    requires es != [] && EntriesTagged(es)
    requires es[|es| - 1].mergeable && es[|es| - 1].pop.PrimaryTag() == tag
    requires Filter(es[..|es| - 1], OfTag(tag)) != []
    ensures var group := Filter(es[..|es| - 1], OfTag(tag)) + [es[|es| - 1]];
            NextStep(es) == Merge(tag, group, Combined(group))
    ensures AfterStep(es) == Reject(es[..|es| - 1], OfTag(tag))
  {
  }

  /** The pops the entries list, in order. */
  function PopsOf(es: seq<Entry>): (ps: seq<Population>)
    ensures |ps| == |es| && forall i :: 0 <= i < |es| ==> ps[i] == es[i].pop
  {
    seq(|es|, i requires 0 <= i < |es| => es[i].pop)
  }

  /** A description lists the pops it describes. */
  lemma {:induction false} DescribedPops(es: seq<Entry>, ps: seq<Population>)
    requires Describes(es, ps)
    ensures PopsOf(es) == ps
    decreases |ps|
  {
    if ps != [] {
      DescribedPops(es[1..], ps[1..]);
      assert PopsOf(es) == [es[0].pop] + PopsOf(es[1..]);
    }
  }

  /** The entry e is what step emits: the candidate itself, or a mergeable
      pop tagged [(tag, 100)] holding the group's merged cohort and the
      group's mean traits. */
  ghost predicate EmittedEntry(e: Entry, step: MergeStep)
  {
    match step
    case Pass(x) => e.pop == x.pop
    case Merge(tag, group, cohort) =>
      && e.mergeable && e.pop.ancestry == [(tag, 100)] && e.cohort == cohort
      && |group| > 0 && e.pop.traits == InheritTraits(TraitsOf(PopsOf(group)), NO_DEVIATION)
  }

  /** The pop q, as it stands now, is what step emits. */
  ghost predicate Emitted(q: Population, step: MergeStep)
    reads q
  {
    EmittedEntry(EntryOf(q), step)
  }

  /** The steps of plan that emit a pop: all but the groups whose founders
      sum to 0. */
  function Emitting(plan: seq<MergeStep>): seq<MergeStep>
  {
    if plan == [] then []
    else (if plan[0].Merge? && plan[0].cohort.starting == 0 then [] else [plan[0]]) + Emitting(plan[1..])
  }

  lemma {:induction false} EmittingAppend(a: seq<MergeStep>, b: seq<MergeStep>)
    ensures Emitting(a + b) == Emitting(a) + Emitting(b)
    decreases |a|
  {
    if a == [] {
      assert a + b == b;
    } else {
      assert (a + b)[0] == a[0] && (a + b)[1..] == a[1..] + b;
      EmittingAppend(a[1..], b);
    }
  }

  /** out is what the steps of plan emit, in order. */
  ghost predicate Realises(out: seq<Population>, plan: seq<MergeStep>)
    reads out
  {
    var emits := Emitting(plan);
    |out| == |emits| && forall i :: 0 <= i < |out| ==> Emitted(out[i], emits[i])
  }

  /** The entries out describe what the steps of plan emit, in order. */
  ghost predicate EntriesRealise(out: seq<Entry>, plan: seq<MergeStep>)
  {
    var emits := Emitting(plan);
    |out| == |emits| && forall i :: 0 <= i < |out| ==> EmittedEntry(out[i], emits[i])
  }

  /** Pops that realise a plan are described by entries that realise it. */
  lemma RealisedEntries(out: seq<Population>, plan: seq<MergeStep>)
    requires Realises(out, plan)
    ensures EntriesRealise(Entries(out), plan)
  {
    EntriesDescribe(out);
    forall i | 0 <= i < |out|
      ensures Entries(out)[i] == EntryOf(out[i])
    {
      DescribesAt(Entries(out), out, i);
    }
  }

  /** The pops emitted so far, followed by what one more turn emits. */
  lemma EmittedExtend(done: seq<Population>, next: seq<Population>, steps: seq<MergeStep>, step: MergeStep)
    requires Realises(done, steps)
    requires |done| <= |next| && next[..|done|] == done && Realises(next[|done|..], [step])
    ensures Realises(next, steps + [step])
  {
    EmittingAppend(steps, [step]);
    forall i | 0 <= i < |next|
      ensures Emitted(next[i], Emitting(steps + [step])[i])
    {
      if i < |done| {
        assert next[i] == done[i];
      } else {
        assert next[i] == next[|done|..][i - |done|];
      }
    }
  }

  /** The entries a step takes from the list. */
  function StepEntries(step: MergeStep): seq<Entry>
  {
    if step.Pass? then [step.entry] else step.group
  }

  /** The entries a plan's steps take from the list, step by step. */
  function PlanEntries(plan: seq<MergeStep>): seq<Entry>
  {
    if plan == [] then [] else StepEntries(plan[0]) + PlanEntries(plan[1..])
  }

  /** A turn takes some pops and leaves the others: none is lost or taken
      twice. */
  lemma StepSplit(remaining: seq<Entry>)
    requires remaining != [] && EntriesTagged(remaining)
    ensures multiset(StepEntries(NextStep(remaining))) + multiset(AfterStep(remaining)) == multiset(remaining)
  {
    var candidate := remaining[|remaining| - 1];
    var rest := remaining[..|remaining| - 1];
    assert remaining == rest + [candidate];
    var tag := candidate.pop.PrimaryTag();
    if candidate.mergeable && Filter(rest, OfTag(tag)) != [] {
      FilterRejectSplit(rest, OfTag(tag));
    }
  }

  /** Every pop of the list is taken by exactly one turn: passed through or
      absorbed into exactly one group. */
  lemma {:induction false} PlanPartition(remaining: seq<Entry>)
    requires EntriesTagged(remaining)
    ensures multiset(PlanEntries(MergePlan(remaining))) == multiset(remaining)
    decreases |remaining|
  {
    if remaining != [] {
      var after := AfterStep(remaining);
      PlanPartition(after);
      StepSplit(remaining);
      var plan := MergePlan(remaining);
      assert plan[0] == NextStep(remaining) && plan[1..] == MergePlan(after);
    }
  }

  /** A pop that no other pop of the list shares a primary tag with passes
      through merge_small_pops as it is. */
  lemma {:induction false} LonePopPasses(remaining: seq<Entry>, e: Entry)
    requires EntriesTagged(remaining)
    requires e in remaining && Filter(remaining, OfTag(e.pop.PrimaryTag())) == [e]
    ensures Pass(e) in MergePlan(remaining)
    decreases |remaining|
  {
    var own := OfTag(e.pop.PrimaryTag());
    var candidate := remaining[|remaining| - 1];
    var rest := remaining[..|remaining| - 1];
    assert remaining == rest + [candidate];
    var tag := candidate.pop.PrimaryTag();
    var partners := Filter(rest, OfTag(tag));
    FilterAppend(rest, [candidate], own);
    assert Filter([candidate], own) == if own(candidate) then [candidate] else [];
    if candidate == e {
      assert partners == [];
    } else {
      assert e in rest;
      FilterMember(rest, own, e);
      assert Filter(rest, own) == [e] && !own(candidate);
      if !candidate.mergeable || partners == [] {
        LonePopPasses(rest, e);
      } else {
        var after := Reject(rest, OfTag(tag));
        LoneAfterReject(rest, OfTag(tag), own, e);
        LonePopPasses(after, e);
      }
    }
  }

  /** What a turn of merge_small_pops' loop leaves: the merge invariant on
      what is emitted (next) and what remains (rest), with fewer pops
      remaining; the turn is the plan's next step on es, the entries the
      remaining pops started as, and the plan's remainder describes rest;
      the pops emitted before stay, and the new ones realise the step. */
  ghost predicate Turned(pops: seq<Population>, done: seq<Population>, remaining: seq<Population>,
                         es: seq<Entry>, next: seq<Population>, rest: seq<Population>, step: MergeStep)
    reads pops, next, rest
  {
    && MergeInvariant(pops, next, rest) && |rest| < |remaining|
    && es != [] && EntriesTagged(es) && step == NextStep(es) && AfterStep(es) == Entries(rest)
    && |done| <= |next| && next[..|done|] == done && Realises(next[|done|..], [step])
  }

  /** One turn of merge_small_pops' loop, on the list es describes: the last
      remaining pop is the candidate; it is emitted as it is, or merged with
      its partners, or dropped with them. The turn is the plan's next step
      and leaves what the plan's remainder starts from (Turned, stated as
      one fact, so it is checked whole). */
  method TakeTurn(pops: seq<Population>, done: seq<Population>, remaining: seq<Population>, ghost es: seq<Entry>)
    returns (next: seq<Population>, rest: seq<Population>, ghost step: MergeStep)
    requires remaining != [] && MergeInvariant(pops, done, remaining)
    requires es == Entries(remaining)
    ensures Turned(pops, done, remaining, es, next, rest, step) == true
    ensures forall i :: |done| <= i < |next| ==> next[i] in pops || (fresh(next[i]) && next[i].startingPopulation > 0)
  {
    assert es != [];
    var candidate := remaining[|remaining| - 1];
    rest := remaining[..|remaining| - 1];
    assert remaining == rest + [candidate];
    assert candidate.Valid();
    var tag := candidate.PrimaryTag();
    var partners := [];
    if candidate.mergeable {
      partners := CollectPartners(rest, tag);
    }
    if partners == [] {
      next, step := PassTurn(pops, done, remaining, rest, candidate, es);
    } else {
      next, rest, step := MergeTurn(pops, done, remaining, rest, candidate, tag, partners, es);
    }
  }

  /** The turn of merge_small_pops' loop where the candidate passes
      through. */
  method PassTurn(pops: seq<Population>, done: seq<Population>, remaining: seq<Population>, rest: seq<Population>,
                  candidate: Population, ghost es: seq<Entry>)
    returns (next: seq<Population>, ghost step: MergeStep)
    requires remaining == rest + [candidate]
    requires candidate.Valid() && MergeInvariant(pops, done, remaining)
    requires candidate.mergeable ==> Filter(rest, HasTag(candidate.PrimaryTag())) == []
    requires es == Entries(remaining)
    ensures Turned(pops, done, remaining, es, next, rest, step)
    ensures next == done + [candidate]
    ensures forall i :: |done| <= i < |next| ==> next[i] in pops
  {
    EmitCandidate(pops, done, rest, candidate);
    assert (rest + [candidate])[|rest|] == candidate;
    next := done + [candidate];
    PassDescribed(es, rest, candidate);
    step := NextStep(es);
    assert next[|done|..] == [candidate];
    assert [step][1..] == [];
  }

  /** The turn of merge_small_pops' loop where a mergeable candidate has
      partners: the group is merged, or dropped when it has no founders. */
  method MergeTurn(pops: seq<Population>, done: seq<Population>, remaining: seq<Population>, rest: seq<Population>,
                   candidate: Population, tag: string, partners: seq<Population>, ghost es: seq<Entry>)
    returns (next: seq<Population>, after: seq<Population>, ghost step: MergeStep)
    requires remaining == rest + [candidate]
    requires candidate.Valid() && candidate.mergeable && tag == candidate.PrimaryTag()
    requires MergeInvariant(pops, done, remaining)
    requires partners == Filter(rest, HasTag(tag)) && partners != []
    requires es == Entries(remaining)
    ensures Turned(pops, done, remaining, es, next, after, step)
    ensures forall i :: |done| <= i < |next| ==> fresh(next[i]) && next[i].startingPopulation > 0
  {
    assert forall j :: 0 <= j < |rest| ==> rest[j] == (rest + [candidate])[j];
    ValidTagged(rest);
    MergeDescribed(es, rest, candidate);
    step := NextStep(es);
    next, after := MergeCandidate(pops, done, rest, candidate, tag, partners, step);
  }

  /** The merging itself: the group's pop is emitted, or nothing when the
      group has no founders. */
  method MergeCandidate(pops: seq<Population>, done: seq<Population>, rest: seq<Population>,
                        candidate: Population, tag: string, partners: seq<Population>,
                        ghost step: MergeStep)
    returns (next: seq<Population>, after: seq<Population>)
    requires candidate.Valid() && candidate.mergeable && tag == candidate.PrimaryTag()
    requires MergeInvariant(pops, done, rest + [candidate])
    requires partners == Filter(rest, HasTag(tag))
    requires step.Merge? && step.tag == tag && step.cohort == MergedCohort(partners + [candidate])
    requires PopsOf(step.group) == partners + [candidate]
    ensures MergeInvariant(pops, next, after)
    ensures after == Reject(rest, HasTag(tag))
    ensures |done| <= |next| && next[..|done|] == done && Realises(next[|done|..], [step])
    ensures forall i :: |done| <= i < |next| ==> fresh(next[i]) && next[i].startingPopulation > 0
  {
    assert forall j :: 0 <= j < |rest| ==> rest[j] == (rest + [candidate])[j];
    var out;
    out, after := MergePartners(candidate, rest, tag, partners);
    EmitMerged(pops, done, rest, candidate, out, after);
    next := done + out;
    assert next[|done|..] == out;
    MergedRealised(out, step);
  }

  /** A merging turn emits its merged pop, or nothing for a group with no
      founders. */
  lemma MergedRealised(out: seq<Population>, step: MergeStep)
    requires step.Merge? && |out| <= 1 && (out == [] <==> step.cohort.starting == 0)
    requires forall i :: 0 <= i < |out| ==> out[i].mergeable && out[i].ancestry == [(step.tag, 100)]
    requires forall i :: 0 <= i < |out| ==> out[i].Snapshot() == step.cohort
    requires |step.group| > 0
    requires forall i :: 0 <= i < |out| ==> out[i].traits == InheritTraits(TraitsOf(PopsOf(step.group)), NO_DEVIATION)
    ensures Realises(out, [step])
  {
    assert [step][1..] == [];
    if out != [] {
      assert Emitted(out[0], step);
      assert out[1..] == [];
    }
  }

  /** After one more turn, the steps taken so far still start the plan,
      and the pops emitted so far are what they emit. */
  lemma PlanAdvances(plan: seq<MergeStep>, steps: seq<MergeStep>, es: seq<Entry>, step: MergeStep,
                     done: seq<Population>, next: seq<Population>)
    requires es != [] && EntriesTagged(es)
    requires plan == steps + MergePlan(es) && step == NextStep(es)
    requires Realises(done, steps)
    requires |done| <= |next| && next[..|done|] == done && Realises(next[|done|..], [step])
    ensures plan == (steps + [step]) + MergePlan(AfterStep(es))
    ensures Realises(next, steps + [step])
  {
    var later := MergePlan(AfterStep(es));
    assert MergePlan(es) == [step] + later;
    AppendAssociates(steps, [step], later);
    EmittedExtend(done, next, steps, step);
  }

  /** What holds between two turns of merge_small_pops' loop: the merge
      invariant, and the steps taken so far start the plan of the pops as
      they were and realise the pops emitted so far. */
  ghost predicate MidMerge(pops: seq<Population>, done: seq<Population>, remaining: seq<Population>,
                          es: seq<Entry>, plan: seq<MergeStep>, steps: seq<MergeStep>)
    reads pops, done, remaining
  {
    && MergeInvariant(pops, done, remaining)
    && es == Entries(remaining) && EntriesTagged(es)
    && plan == steps + MergePlan(es) && Realises(done, steps)
    && Founded(pops, done)
  }

  /** Every pop emitted is one of the input or has founders of its own. */
  ghost predicate Founded(pops: seq<Population>, done: seq<Population>)
    reads done
  {
    forall i :: 0 <= i < |done| ==> done[i] in pops || done[i].startingPopulation > 0
  }

  lemma FoundedExtend(pops: seq<Population>, done: seq<Population>, next: seq<Population>)
    requires Founded(pops, done) && |done| <= |next| && next[..|done|] == done
    requires forall i :: |done| <= i < |next| ==> next[i] in pops || next[i].startingPopulation > 0
    ensures Founded(pops, next)
  {
    forall i | 0 <= i < |done|
      ensures next[i] == done[i]
    {
      assert next[..|done|][i] == next[i];
    }
  }

  /** One pass of merge_small_pops' loop: a turn is taken, and the steps
      taken so far still start the plan and realise the pops emitted so
      far. */
  method MergeRound(pops: seq<Population>, done: seq<Population>, remaining: seq<Population>,
                    ghost es: seq<Entry>, ghost plan: seq<MergeStep>, ghost steps: seq<MergeStep>)
    returns (next: seq<Population>, rest: seq<Population>, ghost es': seq<Entry>, ghost steps': seq<MergeStep>)
    requires remaining != [] && MidMerge(pops, done, remaining, es, plan, steps)
    ensures MidMerge(pops, next, rest, es', plan, steps') && |rest| < |remaining|
    ensures |done| <= |next| && forall i :: 0 <= i < |done| ==> next[i] == done[i]
    ensures forall i :: |done| <= i < |next| ==> next[i] in pops || fresh(next[i])
  {
    ghost var step;
    next, rest, step := TakeTurn(pops, done, remaining, es);
    PlanAdvances(plan, steps, es, step, done, next);
    FoundedExtend(pops, done, next);
    assert forall i :: 0 <= i < |done| ==> next[..|done|][i] == next[i];
    es', steps' := AfterStep(es), steps + [step];
  }

  /** Before the first turn nothing is emitted and the plan is all ahead. */
  lemma MergeStarts(pops: seq<Population>)
    requires AllValid(pops)
    ensures EntriesTagged(Entries(pops))
    ensures MidMerge(pops, [], pops, Entries(pops), MergePlan(Entries(pops)), [])
  {
    ValidTagged(pops);
    EntriesDescribe(pops);
    DescribedTagged(Entries(pops), pops);
    assert [] + MergePlan(Entries(pops)) == MergePlan(Entries(pops));
  }

  /** Once nothing remains, the pops emitted realise the whole plan and
      carry the merge invariant's totals and tags. */
  lemma MergeFinished(pops: seq<Population>, newPops: seq<Population>, es: seq<Entry>,
                      plan: seq<MergeStep>, steps: seq<MergeStep>)
    requires MidMerge(pops, newPops, [], es, plan, steps)
    ensures AllValid(newPops) && Realises(newPops, plan)
    ensures SumStarting(newPops) == SumStarting(pops)
    ensures SumDescendents(newPops) <= SumDescendents(pops)
    ensures forall i, j :: 0 <= i < j < |newPops| && newPops[i].mergeable && newPops[j].mergeable ==>
              !SameTag(newPops[i], newPops[j])
  {
    assert es == [];
    assert steps + [] == steps;
  }

  /** A pop of the result is one of the input or has founders of its own,
      so none is empty when none of the input was. */
  lemma NoneEmptied(pops: seq<Population>, newPops: seq<Population>)
    requires AllValid(newPops) && Founded(pops, newPops)
    ensures (forall i :: 0 <= i < |pops| ==> pops[i].Population() > 0) ==>
              forall i :: 0 <= i < |newPops| ==> newPops[i].Population() > 0
  {
    if forall i :: 0 <= i < |pops| ==> pops[i].Population() > 0 {
      forall i | 0 <= i < |newPops|
        ensures newPops[i].Population() > 0
      {
        if newPops[i] in pops {
          var j :| 0 <= j < |pops| && pops[j] == newPops[i];
        }
      }
    }
  }

  /** merge_small_pops: takes candidates from the end of the list; a
      non-mergeable candidate passes through; a mergeable one absorbs every
      remaining pop sharing its primary tag (whatever their own flag), or
      passes through when there is none. The result is what the plan of the
      pops as they were emits, in order; the founders' total is conserved,
      descendents are only lost with a dropped group, no two mergeable pops
      of the result share a primary tag, and no pop of the result is empty
      when none of the input was. */
  method MergeSmallPops(pops: seq<Population>) returns (newPops: seq<Population>)
    requires forall i :: 0 <= i < |pops| ==> pops[i].Valid()
    ensures forall i :: 0 <= i < |newPops| ==> newPops[i].Valid()
    ensures forall i :: 0 <= i < |newPops| ==> newPops[i] in pops || fresh(newPops[i])
    ensures SumStarting(newPops) == SumStarting(pops)
    ensures SumDescendents(newPops) <= SumDescendents(pops)
    ensures forall i, j :: 0 <= i < j < |newPops| && newPops[i].mergeable && newPops[j].mergeable ==>
              !SameTag(newPops[i], newPops[j])
    ensures EntriesTagged(old(Entries(pops))) && Realises(newPops, MergePlan(old(Entries(pops))))
    ensures (forall i :: 0 <= i < |pops| ==> pops[i].Population() > 0) ==>
              forall i :: 0 <= i < |newPops| ==> newPops[i].Population() > 0
  {
    newPops := [];
    var remaining := pops;
    ghost var es := Entries(pops);
    MergeStarts(pops);
    ghost var plan, steps := MergePlan(es), [];
    while remaining != []
      invariant MidMerge(pops, newPops, remaining, es, plan, steps)
      invariant forall i :: 0 <= i < |newPops| ==> newPops[i] in pops || fresh(newPops[i])
      decreases |remaining|
    {
      var next, rest;
      next, rest, es, steps := MergeRound(pops, newPops, remaining, es, plan, steps);
      newPops, remaining := next, rest;
    }
    MergeFinished(pops, newPops, es, plan, steps);
    NoneEmptied(pops, newPops);
  }
}
