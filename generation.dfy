/** form_next_generation: the descendents of a batch of parent pops leave
    them and found a new pop of the next generation, taking with them their
    share of each parent's children. */
module Generations {
  import opened Numeric
  import opened Politics
  import opened Populations

  // ---------------------------------------------------------------------------
  // One parent's bequest, as a function of its cohort

  /** The children that leave one parent: in every slot, the slot times the
      parent's descendent share, rounded down. */
  function MovedChildren(c: Cohort): (moved: seq<int>)
    requires c.starting + c.descendents != 0
    ensures |moved| == |c.children|
  {
    var percent := DescendentShare(c);
    seq(|c.children|, n requires 0 <= n < |c.children| => MovedSlot(percent, c.children[n]))
  }

  /** The children of one slot that move: the share of the slot, rounded
      down; a share in [0, 1] of a non-negative slot moves at most the slot. */
  function MovedSlot(percent: real, x: int): (m: int)
    ensures 0.0 <= percent <= 1.0 && x >= 0 ==> 0 <= m <= x
  {
    if 0.0 <= percent <= 1.0 && x >= 0 then
      MulNonNegative(percent, x as real);
      MulMonotone(percent, 1.0, x as real);
      RoundingWithin(percent * x as real, x);
      Floor(percent * x as real)
    else Floor(percent * x as real)
  }

  /** The descendents' share of a parent's people. */
  function DescendentShare(c: Cohort): (percent: real)
    requires c.starting + c.descendents != 0
    ensures c.starting >= 0 && c.descendents >= 0 ==> 0.0 <= percent <= 1.0
  {
    var p := (c.starting + c.descendents) as real;
    if c.starting >= 0 && c.descendents >= 0 then
      DivAtLeast(c.descendents as real, p, 0.0);
      DivAtMost(c.descendents as real, p, 1.0);
      c.descendents as real / p
    else c.descendents as real / p
  }

  /** The parent once its descendents and their children have left. */
  function Bequeathed(c: Cohort): (r: Cohort)
    requires c.starting + c.descendents != 0
  {
    var moved := MovedChildren(c);
    Cohort(c.starting, 0, c.averageAge, c.averageDescendentAge,
           seq(|c.children|, n requires 0 <= n < |c.children| => c.children[n] - moved[n]))
  }

  /** A parent with people keeps its founders, loses all its descendents,
      and in every slot keeps a non-negative part of its children, the rest
      moving: kept plus moved is what it had. */
  lemma BequeathedSplit(c: Cohort)
    requires ValidCohort(c) && c.starting + c.descendents > 0
    ensures var r := Bequeathed(c); var moved := MovedChildren(c);
      && ValidCohort(r) && r.starting == c.starting && r.descendents == 0
      && |r.children| == |c.children|
      && forall n :: 0 <= n < |c.children| ==>
           0 <= moved[n] <= c.children[n] && r.children[n] + moved[n] == c.children[n]
  {
    var moved := MovedChildren(c);
    assert forall n :: 0 <= n < |c.children| ==> moved[n] == MovedSlot(DescendentShare(c), c.children[n]);
  }

  // ---------------------------------------------------------------------------
  // The whole batch of parents, as cohorts

  ghost predicate Populated(cs: seq<Cohort>)
  {
    forall j :: 0 <= j < |cs| ==> ValidCohort(cs[j]) && cs[j].starting + cs[j].descendents > 0
  }

  /** Every parent after the bequest. */
  function AllBequeathed(cs: seq<Cohort>): (rs: seq<Cohort>)
    requires Populated(cs)
    ensures |rs| == |cs|
    ensures forall j :: 0 <= j < |cs| ==> rs[j] == Bequeathed(cs[j])
  {
    seq(|cs|, j requires 0 <= j < |cs| => Bequeathed(cs[j]))
  }

  /** The new pop's children: the moved children of every parent, added up
      slot by slot into a 20-slot buffer. */
  function NewChildren(cs: seq<Cohort>): (r: seq<int>)
    requires Populated(cs)
    ensures |r| == CHILD_SLOTS
  {
    if cs == [] then seq(CHILD_SLOTS, _ => 0)
    else ZipAdd(NewChildren(cs[..|cs| - 1]), MovedChildren(cs[|cs| - 1]))
  }

  function Descendents(cs: seq<Cohort>): int
  {
    if cs == [] then 0 else Descendents(cs[..|cs| - 1]) + cs[|cs| - 1].descendents
  }

  function People(cs: seq<Cohort>): int
  {
    if cs == [] then 0 else People(cs[..|cs| - 1]) + cs[|cs| - 1].starting + cs[|cs| - 1].descendents
  }

  /** Descendents times their average age, summed. */
  function DescendentAgeYears(cs: seq<Cohort>): real
  {
    if cs == [] then 0.0 else DescendentAgeYears(cs[..|cs| - 1]) + AgeYears(cs[|cs| - 1])
  }

  /** The years lived by a cohort's descendents. */
  function AgeYears(c: Cohort): real
  {
    c.descendents as real * c.averageDescendentAge
  }

  /** Slot n of the children buffers, summed over the cohorts. */
  function Slot(cs: seq<Cohort>, n: nat): int
    requires forall j :: 0 <= j < |cs| ==> n < |cs[j].children|
  {
    if cs == [] then 0 else Slot(cs[..|cs| - 1], n) + cs[|cs| - 1].children[n]
  }

  /** Nobody is lost or created: the people left in the parents plus the new
      pop's founders are the people the parents had. */
  lemma {:induction false} GenerationKeepsPeople(cs: seq<Cohort>)
    requires Populated(cs)
    ensures People(AllBequeathed(cs)) + Descendents(cs) == People(cs)
    decreases |cs|
  {
    if cs != [] {
      var init := cs[..|cs| - 1];
      GenerationKeepsPeople(init);
      assert AllBequeathed(cs)[..|cs| - 1] == AllBequeathed(init);
    }
  }

  /** No child is lost or created: slot by slot, the children left in the
      parents plus the new pop's are the children the parents had, and the
      new pop's slots are never negative. */
  lemma {:induction false} GenerationKeepsChildren(cs: seq<Cohort>)
    requires Populated(cs)
    ensures forall n :: 0 <= n < CHILD_SLOTS ==>
              Slot(AllBequeathed(cs), n) + NewChildren(cs)[n] == Slot(cs, n) && NewChildren(cs)[n] >= 0
    decreases |cs|
  {
    if cs != [] {
      var init := cs[..|cs| - 1];
      var last := cs[|cs| - 1];
      GenerationKeepsChildren(init);
      BequeathedSplit(last);
      assert AllBequeathed(cs)[..|cs| - 1] == AllBequeathed(init);
    }
  }

  // ---------------------------------------------------------------------------
  // The new pop's ancestry

  /** Every (tag, weighting) entry of the parents' ancestries, in order. */
  function AllAncestries(ps: seq<Population>): (entries: Ancestry)
  {
    if ps == [] then [] else AllAncestries(ps[..|ps| - 1]) + ps[|ps| - 1].ancestry
  }

  /** Parents with valid ancestries pool into a valid list of entries. */
  lemma {:induction false} AllAncestriesValid(ps: seq<Population>)
    requires |ps| > 0 && forall j :: 0 <= j < |ps| ==> ValidAncestry(ps[j].ancestry)
    ensures ValidAncestry(AllAncestries(ps))
    ensures |AllAncestries(ps)| >= |ps|
  {
    var init := ps[..|ps| - 1];
    if |init| > 0 {
      AllAncestriesValid(init);
    }
  }

  function Weights(c: Ancestry): (ws: seq<int>)
    ensures |ws| == |c|
    ensures forall i :: 0 <= i < |c| ==> ws[i] == c[i].1
  {
    seq(|c|, i requires 0 <= i < |c| => c[i].1)
  }

  /** The new pop's ancestry: the three tags of largest total weighting, each
      weighting turned into a rounded percentage of the three's total. */
  function NormalisedAncestry(entries: Ancestry): (a: Ancestry)
    requires ValidAncestry(entries)
  {
    var common := MostCommon(Tally(entries), 3);
    TopWeight(entries);
    var total := Sum(Weights(common));
    WeightsSum(common);
    Percentages(common, total)
  }

  /** The normalised ancestry holds the tags of most_common(3), in order,
      and is a valid one of one to three tags; its
      primary tag is one of largest total weighting, with a percentage of at
      least a third, and every percentage is in [0, 100]. */
  lemma NormalisedAncestryBounds(entries: Ancestry)
    requires ValidAncestry(entries)
    ensures var a := NormalisedAncestry(entries);
      && Keys(a) == Keys(MostCommon(Tally(entries), 3))
      && ValidAncestry(a) && 1 <= |a| <= 3
      && (forall k :: k in Keys(entries) ==> WeightOf(entries, a[0].0) >= WeightOf(entries, k))
      && a[0].1 >= 33
      && forall k :: 0 <= k < |a| ==> 0 <= a[k].1 <= 100
  {
    var common := MostCommon(Tally(entries), 3);
    TopWeight(entries);
    var total := Sum(Weights(common));
    PercentBounds(common, total);
    var a := NormalisedAncestry(entries);
    assert a == Percentages(common, total);
    assert a[0].0 == Keys(a)[0] == Keys(common)[0] == common[0].0;
  }

  /** Each weighting as a rounded percentage of total. */
  function Percentages(common: Ancestry, total: int): (a: Ancestry)
    requires total > 0
    ensures Keys(a) == Keys(common)
    ensures forall k :: 0 <= k < |a| ==> a[k].1 == RoundHalfEven(common[k].1 as real / total as real * 100.0)
  {
    var a := seq(|common|, k requires 0 <= k < |common| =>
      (common[k].0, RoundHalfEven(common[k].1 as real / total as real * 100.0)));
    assert Keys(a) == Keys(common);
    a
  }

  /** Percentages of a positive leader at least as heavy as the others: the
      leader's is at least a third and every one is in [0, 100]. */
  lemma PercentBounds(common: Ancestry, total: int)
    requires 1 <= |common| <= 3 && total == Sum(Weights(common))
    requires common[0].1 > 0
    requires forall k :: 0 <= k < |common| ==> 0 <= common[k].1 <= common[0].1
    ensures total > 0
    ensures var a := Percentages(common, total);
      && ValidAncestry(a) && |a| == |common| && a[0].1 >= 33
      && forall k :: 0 <= k < |a| ==> 0 <= a[k].1 <= 100
  {
    WeightsSum(common);
    var a := Percentages(common, total);
    forall k | 0 <= k < |common|
      ensures 0 <= a[k].1 <= 100
    {
      FractionWithin(common[k].1, total);
    }
    ThirdAtLeast(common[0].1, total);
  }

  lemma FractionWithin(w: int, total: int)
    requires 0 <= w <= total && total > 0
    ensures 0.0 <= w as real / total as real * 100.0 <= 100.0
  {
    DivAtLeast(w as real, total as real, 0.0);
    DivAtMost(w as real, total as real, 1.0);
  }

  lemma ThirdAtLeast(w: int, total: int)
    requires total > 0 && 3 * w >= total
    ensures w as real / total as real * 100.0 >= 100.0 / 3.0
  {
    DivAtLeast(w as real, total as real, 1.0 / 3.0);
  }

  /** Facts about the sum of at most three weights with a positive leader. */
  lemma WeightsSum(common: Ancestry)
    requires 1 <= |common| <= 3 && common[0].1 > 0
    requires forall k :: 0 <= k < |common| ==> 0 <= common[k].1 <= common[0].1
    ensures Sum(Weights(common)) > 0
    ensures forall k :: 0 <= k < |common| ==> common[k].1 <= Sum(Weights(common))
    ensures 3 * common[0].1 >= Sum(Weights(common))
  {
    var ws := Weights(common);
    SumSmall(ws);
  }

  lemma SumSmall(ws: seq<int>)
    requires 1 <= |ws| <= 3
    ensures |ws| == 1 ==> Sum(ws) == ws[0]
    ensures |ws| == 2 ==> Sum(ws) == ws[0] + ws[1]
    ensures |ws| == 3 ==> Sum(ws) == ws[0] + ws[1] + ws[2]
  {
    assert ws[..1][..0] == [];
    if |ws| >= 2 {
      assert ws[..2][..1] == ws[..1];
    }
    if |ws| == 3 {
      assert ws[..2] == ws[..|ws| - 1];
    } else if |ws| == 2 {
      assert ws[..1] == ws[..|ws| - 1];
    } else {
      assert ws[..0] == ws[..|ws| - 1];
    }
  }

  /** The most common tag weighs at least every tag, including the first
      entry's, whose weighting is positive; no tag weighs less than 0. */
  lemma TopWeight(entries: Ancestry)
    requires ValidAncestry(entries)
    ensures var common := MostCommon(Tally(entries), 3);
      && 1 <= |common| <= 3 && common[0].1 > 0
      && common[0].1 == WeightOf(entries, common[0].0)
      && (forall k :: k in Keys(entries) ==> common[0].1 >= WeightOf(entries, k))
      && forall k :: 0 <= k < |common| ==> 0 <= common[k].1 <= common[0].1
  {
    var c := Tally(entries);
    TallyHeaviest(entries);
    TallyNonNegative(entries);
    var common := MostCommon(c, 3);
    var top := c[FirstMaxIndex(c)];
    assert common[0] == top;
    MostCommonDraws(c, 3);
    forall k | 0 <= k < |common|
      ensures 0 <= common[k].1 <= top.1
    {
      assert common[k] in multiset(c);
      assert common[k] in c;
    }
  }

  lemma TallyNonNegative(entries: Ancestry)
    requires forall i :: 0 <= i < |entries| ==> entries[i].1 >= 0
    ensures forall i :: 0 <= i < |Tally(entries)| ==> Tally(entries)[i].1 >= 0
  {
    var c := Tally(entries);
    forall i | 0 <= i < |c|
      ensures c[i].1 >= 0
    {
      WeightNonNegative(entries, c[i].0);
    }
  }

  /** The tally's first heaviest entry weighs at least every tag, and at
      least the first entry's weighting. */
  lemma TallyHeaviest(entries: Ancestry)
    requires ValidAncestry(entries)
    ensures |Tally(entries)| > 0
    ensures var c := Tally(entries); var top := c[FirstMaxIndex(c)];
      && top.1 == WeightOf(entries, top.0) && top.1 >= entries[0].1
      && forall k :: k in Keys(entries) ==> top.1 >= WeightOf(entries, k)
  {
    var c := Tally(entries);
    assert entries[0].0 in Keys(entries);
    assert entries[0].0 in Keys(c);
    var top := c[FirstMaxIndex(c)];
    forall k | k in Keys(entries)
      ensures top.1 >= WeightOf(entries, k)
    {
      assert k in Keys(c);
      var j :| 0 <= j < |c| && c[j].0 == k;
    }
    WeightAtLeast(entries, 0);
  }

  lemma {:induction false} WeightNonNegative(entries: Ancestry, k: string)
    requires forall i :: 0 <= i < |entries| ==> entries[i].1 >= 0
    ensures WeightOf(entries, k) >= 0
    decreases |entries|
  {
    if entries != [] {
      WeightNonNegative(entries[..|entries| - 1], k);
    }
  }

  /** With no negative weightings, a tag weighs at least any one of its
      entries. */
  lemma {:induction false} WeightAtLeast(entries: Ancestry, i: nat)
    requires i < |entries|
    requires forall j :: 0 <= j < |entries| ==> entries[j].1 >= 0
    ensures WeightOf(entries, entries[i].0) >= entries[i].1
    decreases |entries|
  {
    var init := entries[..|entries| - 1];
    if i == |entries| - 1 {
      WeightNonNegative(init, entries[i].0);
    } else {
      assert init[i] == entries[i];
      WeightAtLeast(init, i);
    }
  }

  // ---------------------------------------------------------------------------
  // form_next_generation on the pops themselves

  function Snapshots(ps: seq<Population>): (cs: seq<Cohort>)
    reads ps
    ensures |cs| == |ps|
    ensures forall j :: 0 <= j < |ps| ==> cs[j] == ps[j].Snapshot()
  {
    seq(|ps|, j requires 0 <= j < |ps| reads ps => ps[j].Snapshot())
  }

  /** The cohorts' descendents are the pops' summed descendents. */
  lemma {:induction false} DescendentsOfSnapshots(ps: seq<Population>)
    ensures Descendents(Snapshots(ps)) == SumDescendents(ps)
    decreases |ps|
  {
    if ps != [] {
      var init := ps[..|ps| - 1];
      DescendentsOfSnapshots(init);
      assert Snapshots(ps)[..|ps| - 1] == Snapshots(init);
      assert ps == init + [ps[|ps| - 1]];
      SumsAppend(init, [ps[|ps| - 1]]);
    }
  }

  /** The fields of a pop that forming a generation leaves alone in the
      parents, apart from descendent_pops. */
  function Standing(p: Population): (int, real, bool)
    reads p`generation, p`happiness, p`mergeable
  {
    (p.generation, p.happiness, p.mergeable)
  }

  /** max(p.generation for p in pops) */
  function MaxGeneration(ps: seq<Population>): (g: int)
    requires |ps| > 0
    reads ps
    ensures forall j :: 0 <= j < |ps| ==> ps[j].generation <= g
    ensures exists j :: 0 <= j < |ps| && ps[j].generation == g
  {
    if |ps| == 1 then ps[0].generation
    else
      var g := MaxGeneration(ps[..|ps| - 1]);
      assert forall j :: 0 <= j < |ps| - 1 ==> ps[j] == ps[..|ps| - 1][j];
      if ps[|ps| - 1].generation > g then ps[|ps| - 1].generation else g
  }

  /** One parent's turn in form_next_generation's first loop: its
      descendents leave, and in every slot its share of the children moves
      into the new buffer. */
  method BequeathChildren(pop: Population, newChildren: seq<int>) returns (updated: seq<int>)
    requires pop.Valid() && pop.startingPopulation + pop.descendents > 0
    requires |newChildren| == CHILD_SLOTS
    modifies pop
    ensures pop.Snapshot() == Bequeathed(old(pop.Snapshot()))
    ensures updated == ZipAdd(newChildren, MovedChildren(old(pop.Snapshot())))
    ensures pop.Valid()
    ensures Standing(pop) == old(Standing(pop)) && pop.descendentPops == old(pop.descendentPops)
  {
    ghost var c := pop.Snapshot();
    ghost var moved := MovedChildren(c);
    var percent := pop.descendents as real / pop.Population() as real;
    assert percent == DescendentShare(c);
    pop.descendents := 0;
    updated := newChildren;
    for n := 0 to |pop.children|
      invariant |pop.children| == CHILD_SLOTS && |updated| == CHILD_SLOTS
      invariant forall m :: 0 <= m < n ==> pop.children[m] == c.children[m] - moved[m]
      invariant forall m :: 0 <= m < n ==> updated[m] == newChildren[m] + moved[m]
      invariant forall m :: n <= m < CHILD_SLOTS ==> pop.children[m] == c.children[m] && updated[m] == newChildren[m]
      invariant pop.Snapshot() == c.(descendents := 0, children := pop.children)
      invariant Standing(pop) == old(Standing(pop)) && pop.descendentPops == old(pop.descendentPops)
    {
      var childrenToMove := MovedSlot(percent, pop.children[n]);
      updated := updated[n := updated[n] + childrenToMove];
      pop.children := pop.children[n := pop.children[n] - childrenToMove];
    }
    BequeathedSplit(c);
  }

  /** A parent pop as the first loop sees it: holding cohort c, valid,
      and with its other fields as they were. */
  ghost predicate Parent(p: Population, c: Cohort, standing: (int, real, bool), descendentPops: seq<Population>)
    reads p
  {
    p.Snapshot() == c && p.Valid() && Standing(p) == standing && p.descendentPops == descendentPops
  }

  /** The running totals of the first loop, one parent further on. */
  lemma BequeathStep(cs: seq<Cohort>, i: nat)
    requires i < |cs| && Populated(cs)
    ensures Populated(cs[..i]) && Populated(cs[..i + 1])
    ensures Descendents(cs[..i + 1]) == Descendents(cs[..i]) + cs[i].descendents
    ensures DescendentAgeYears(cs[..i + 1]) == DescendentAgeYears(cs[..i]) + AgeYears(cs[i])
    ensures NewChildren(cs[..i + 1]) == ZipAdd(NewChildren(cs[..i]), MovedChildren(cs[i]))
  {
    assert cs[..i + 1][..i] == cs[..i];
  }

  /** The state of the first loop once it has done the first i parents,
      which held the cohorts in before. */
  ghost predicate Progress(pops: seq<Population>, before: seq<Cohort>, standings: seq<(int, real, bool)>,
                           links: seq<seq<Population>>, i: nat, newPopulation: int, peopleYears: real, newChildren: seq<int>)
    reads pops
  {
    |before| == |pops| == |standings| == |links| && i <= |pops| && Populated(before)
    && newPopulation == Descendents(before[..i])
    && peopleYears == DescendentAgeYears(before[..i])
    && Populated(before[..i]) && newChildren == NewChildren(before[..i])
    && (forall j :: 0 <= j < i ==> Parent(pops[j], Bequeathed(before[j]), standings[j], links[j]))
    && (forall j :: i <= j < |pops| ==> Parent(pops[j], before[j], standings[j], links[j]))
  }

  /** One turn of form_next_generation's first loop. */
  method BequeathNext(pops: seq<Population>, i: nat, newPopulation: int, peopleYears: real, newChildren: seq<int>,
                      ghost before: seq<Cohort>, ghost standings: seq<(int, real, bool)>, ghost links: seq<seq<Population>>)
    returns (population': int, peopleYears': real, newChildren': seq<int>)
    requires forall i, j :: 0 <= i < j < |pops| ==> pops[i] != pops[j]
    requires i < |pops| && Progress(pops, before, standings, links, i, newPopulation, peopleYears, newChildren)
    modifies pops[i]
    ensures Progress(pops, before, standings, links, i + 1, population', peopleYears', newChildren')
  {
    var pop := pops[i];
    BequeathStep(before, i);
    assert pop.Snapshot() == before[i];
    assert forall j :: 0 <= j < |pops| && j != i ==> pops[j] != pop;
    population' := newPopulation + pop.descendents;
    peopleYears' := peopleYears + AgeYears(pop.Snapshot());
    newChildren' := BequeathChildren(pop, newChildren);
  }

  /** form_next_generation's first loop: every parent bequeaths its
      descendents, their age-years and its share of the children. */
  method BequeathAll(pops: seq<Population>) returns (newPopulation: int, peopleYears: real, newChildren: seq<int>)
    requires forall i, j :: 0 <= i < j < |pops| ==> pops[i] != pops[j]
    requires forall j :: 0 <= j < |pops| ==> pops[j].Valid() && pops[j].startingPopulation + pops[j].descendents > 0
    modifies pops
    ensures Populated(old(Snapshots(pops)))
    ensures Snapshots(pops) == AllBequeathed(old(Snapshots(pops)))
    ensures newPopulation == Descendents(old(Snapshots(pops)))
    ensures peopleYears == DescendentAgeYears(old(Snapshots(pops)))
    ensures newChildren == NewChildren(old(Snapshots(pops)))
    ensures forall j :: 0 <= j < |pops| ==> pops[j].Valid()
    ensures forall j :: 0 <= j < |pops| ==>
              Standing(pops[j]) == old(Standing(pops[j])) && pops[j].descendentPops == old(pops[j].descendentPops)
  {
    ghost var before := Snapshots(pops);
    ghost var standings := seq(|pops|, j requires 0 <= j < |pops| reads pops => Standing(pops[j]));
    ghost var links := seq(|pops|, j requires 0 <= j < |pops| reads pops => pops[j].descendentPops);
    newPopulation, peopleYears, newChildren := 0, 0.0, seq(CHILD_SLOTS, _ => 0);
    assert before[..0] == [];
    for i := 0 to |pops|
      invariant Progress(pops, before, standings, links, i, newPopulation, peopleYears, newChildren)
    {
      newPopulation, peopleYears, newChildren :=
        BequeathNext(pops, i, newPopulation, peopleYears, newChildren, before, standings, links);
    }
    assert before[..|pops|] == before;
  }

  /** form_next_generation's last loop: every parent records the new pop. */
  method RecordDescendent(pops: seq<Population>, newPop: Population)
    requires forall i, j :: 0 <= i < j < |pops| ==> pops[i] != pops[j]
    requires newPop !in pops && forall j :: 0 <= j < |pops| ==> pops[j].Valid()
    modifies pops`descendentPops
    ensures unchanged(newPop)
    ensures forall j :: 0 <= j < |pops| ==> pops[j].descendentPops == old(pops[j].descendentPops) + [newPop]
    ensures forall j :: 0 <= j < |pops| ==> pops[j].Valid() && Standing(pops[j]) == old(Standing(pops[j]))
    ensures Snapshots(pops) == old(Snapshots(pops))
  {
    for i := 0 to |pops|
      invariant forall j :: 0 <= j < i ==> pops[j].descendentPops == old(pops[j].descendentPops) + [newPop]
      invariant forall j :: i <= j < |pops| ==> pops[j].descendentPops == old(pops[j].descendentPops)
    {
      pops[i].descendentPops := pops[i].descendentPops + [newPop];
    }
  }

  /** The new pop's cohort: the parents' descendents become its founders, at
      their head-count-weighted average age, with the children they take. */
  function Offspring(cs: seq<Cohort>): Cohort
    requires Populated(cs) && Descendents(cs) > 0
  {
    Cohort(Descendents(cs), 0, DescendentAgeYears(cs) / Descendents(cs) as real, 0.0, NewChildren(cs))
  }

  /** Population(rng, new_population, ancestry) followed by the field
      updates form_next_generation makes. */
  method NewGenerationPop(c: Cohort, ancestry: Ancestry, traits: Traits, size: int, generation: int)
    returns (newPop: Population)
    requires ValidCohort(c) && c.descendents == 0 && c.averageDescendentAge == 0.0 && ValidAncestry(ancestry)
    ensures fresh(newPop) && Founded(newPop, c, ancestry, traits, size, generation)
  {
    newPop := new Population(c.starting, ancestry, traits, size);
    newPop.children := c.children;
    newPop.averageAge := c.averageAge;
    newPop.generation := generation;
  }

  /** A pop just founded: valid, holding cohort c, with the heritage given,
      fully happy, mergeable and without descendent pops of its own. */
  ghost predicate Founded(p: Population, c: Cohort, ancestry: Ancestry, traits: Traits, size: int, generation: int)
    reads p
  {
    && p.Valid() && p.Snapshot() == c && p.ancestry == ancestry
    && p.traits == traits && p.preferredPopulationSize == size && p.generation == generation
    && p.happiness == 1.0 && p.mergeable && p.descendentPops == []
  }

  /** The new pop's cohort is a valid one. */
  lemma OffspringValid(cs: seq<Cohort>)
    requires Populated(cs) && Descendents(cs) > 0
    ensures ValidCohort(Offspring(cs))
  {
    GenerationKeepsChildren(cs);
  }

  /** The first half of form_next_generation: every parent hands its
      descendents over, and together they make up the new pop's cohort. */
  method Bequeath(pops: seq<Population>) returns (offspring: Cohort, generation: int)
    requires |pops| > 0 && forall i, j :: 0 <= i < j < |pops| ==> pops[i] != pops[j]
    requires forall j :: 0 <= j < |pops| ==> pops[j].Valid() && pops[j].startingPopulation + pops[j].descendents > 0
    requires SumDescendents(pops) > 0
    modifies pops
    ensures Populated(old(Snapshots(pops))) && Descendents(old(Snapshots(pops))) > 0
    ensures offspring == Offspring(old(Snapshots(pops))) && generation == old(MaxGeneration(pops)) + 1
    ensures ValidCohort(offspring) && offspring.descendents == 0 && offspring.averageDescendentAge == 0.0
    ensures Snapshots(pops) == AllBequeathed(old(Snapshots(pops)))
    ensures forall j :: 0 <= j < |pops| ==> pops[j].Valid()
    ensures forall j :: 0 <= j < |pops| ==>
              Standing(pops[j]) == old(Standing(pops[j])) && pops[j].descendentPops == old(pops[j].descendentPops)
  {
    ghost var before := Snapshots(pops);
    DescendentsOfSnapshots(pops);
    generation := MaxGeneration(pops) + 1;
    var newPopulation, peopleYears, newChildren := BequeathAll(pops);
    offspring := Cohort(newPopulation, 0, peopleYears / newPopulation as real, 0.0, newChildren);
    assert offspring == Offspring(before);
    OffspringValid(before);
  }

  /** form_next_generation up to the new pop's creation: the parents hand
      their descendents over and a fresh pop is founded with them and the
      heritage given. */
  method FoundNextGeneration(pops: seq<Population>, ancestry: Ancestry, traits: Traits, size: int)
    returns (newPop: Population)
    requires |pops| > 0 && forall i, j :: 0 <= i < j < |pops| ==> pops[i] != pops[j]
    requires forall j :: 0 <= j < |pops| ==> pops[j].Valid() && pops[j].startingPopulation + pops[j].descendents > 0
    requires SumDescendents(pops) > 0 && ValidAncestry(ancestry)
    modifies pops
    ensures Populated(old(Snapshots(pops))) && Descendents(old(Snapshots(pops))) > 0
    ensures fresh(newPop) && newPop !in pops
    ensures Founded(newPop, Offspring(old(Snapshots(pops))), ancestry, traits, size, old(MaxGeneration(pops)) + 1)
    ensures Snapshots(pops) == AllBequeathed(old(Snapshots(pops)))
    ensures forall j :: 0 <= j < |pops| ==> pops[j].Valid()
    ensures forall j :: 0 <= j < |pops| ==>
              Standing(pops[j]) == old(Standing(pops[j])) && pops[j].descendentPops == old(pops[j].descendentPops)
  {
    var offspring, generation := Bequeath(pops);
    newPop := NewGenerationPop(offspring, ancestry, traits, size, generation);
  }

  /** form_next_generation once the heritage is drawn: the new pop is
      founded and every parent records it as a descendent pop. */
  method FormGenerationWith(pops: seq<Population>, ancestry: Ancestry, traits: Traits, size: int)
    returns (newPop: Population)
    requires |pops| > 0 && forall i, j :: 0 <= i < j < |pops| ==> pops[i] != pops[j]
    requires forall j :: 0 <= j < |pops| ==> pops[j].Valid() && pops[j].startingPopulation + pops[j].descendents > 0
    requires SumDescendents(pops) > 0 && ValidAncestry(ancestry)
    modifies pops
    ensures Populated(old(Snapshots(pops))) && Descendents(old(Snapshots(pops))) > 0
    ensures fresh(newPop)
    ensures Founded(newPop, Offspring(old(Snapshots(pops))), ancestry, traits, size, old(MaxGeneration(pops)) + 1)
    ensures Snapshots(pops) == AllBequeathed(old(Snapshots(pops)))
    ensures forall j :: 0 <= j < |pops| ==> pops[j].Valid() && Standing(pops[j]) == old(Standing(pops[j]))
    ensures forall j :: 0 <= j < |pops| ==> pops[j].descendentPops == old(pops[j].descendentPops) + [newPop]
  {
    newPop := FoundNextGeneration(pops, ancestry, traits, size);
    RecordDescendent(pops, newPop);
  }

  /** form_next_generation: the parents' descendents leave them and found a
      fresh pop one generation on, whose ancestry is the parents' three
      heaviest tags as percentages, whose traits and preferred size are
      inherited from the parents with random deviations (draws from
      uniform(-0.125, 0.125) and randint(-1000, 1000)), and which every
      parent records as a descendent pop. */
  method FormNextGeneration(pops: seq<Population>, draws: seq<real>, sizeDraw: int) returns (newPop: Population)
    requires |pops| > 0 && forall i, j :: 0 <= i < j < |pops| ==> pops[i] != pops[j]
    requires forall j :: 0 <= j < |pops| ==> pops[j].Valid() && pops[j].startingPopulation + pops[j].descendents > 0
    requires SumDescendents(pops) > 0
    requires |draws| == 8 && forall k :: 0 <= k < 8 ==> -0.125 <= draws[k] <= 0.125
    requires -1000 <= sizeDraw <= 1000
    modifies pops
    ensures Populated(old(Snapshots(pops))) && Descendents(old(Snapshots(pops))) > 0
    ensures ValidAncestry(AllAncestries(pops))
    ensures fresh(newPop)
    ensures Founded(newPop, Offspring(old(Snapshots(pops))), NormalisedAncestry(AllAncestries(pops)),
                    InheritTraits(TraitsOf(pops), draws), InheritedSize(SizesOf(pops), sizeDraw),
                    old(MaxGeneration(pops)) + 1)
    ensures Snapshots(pops) == AllBequeathed(old(Snapshots(pops)))
    ensures forall j :: 0 <= j < |pops| ==> pops[j].Valid() && Standing(pops[j]) == old(Standing(pops[j]))
    ensures forall j :: 0 <= j < |pops| ==> pops[j].descendentPops == old(pops[j].descendentPops) + [newPop]
  {
    AllAncestriesValid(pops);
    NormalisedAncestryBounds(AllAncestries(pops));
    newPop := FormGenerationWith(pops, NormalisedAncestry(AllAncestries(pops)), InheritTraits(TraitsOf(pops), draws),
                                 InheritedSize(SizesOf(pops), sizeDraw));
  }
}
