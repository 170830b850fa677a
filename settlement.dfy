/** A settlement (a state on a planet): its pops, its government and its name;
    how a settlement is founded for a group of pops; and the steps of its year:
    births and deaths, government, and the split of its pops into those who
    stay and those who want to leave, with the effort the stayers put into
    science and manufacturing. */
module Settlements {
  import opened Numeric
  import opened Politics
  import opened Populations
  import opened Generations
  import opened Life
  import opened Governments
  import opened CityNames

  // ---------------------------------------------------------------------------
  // Founding: the most common preferred government and the heaviest origin.

  /** One vote (weight 1) for each key, in order. */
  function Votes<K>(keys: seq<K>): (votes: seq<(K, int)>)
    ensures |votes| == |keys|
    ensures forall i :: 0 <= i < |keys| ==> votes[i] == (keys[i], 1)
    ensures Keys(votes) == keys
  {
    var votes := seq(|keys|, i requires 0 <= i < |keys| => (keys[i], 1));
    assert Keys(votes) == keys;
    votes
  }

  /** Adding one vote per key counts the keys. */
  lemma {:induction false} VotesCount<K>(keys: seq<K>, k: K)
    ensures WeightOf(Votes(keys), k) == Count(keys, k)
    decreases |keys|
  {
    if keys != [] {
      var n := |keys| - 1;
      VotesCount(keys[..n], k);
      assert Votes(keys)[..n] == Votes(keys[..n]);
    }
  }

  /** government_types.most_common(1)[0][0]: the preferred government with the
      most votes; there is none for no pops. */
  function FavouriteKind(ps: seq<Population>): (k: Option<GovKind>)
    ensures k.Some? <==> ps != []
  {
    if ps == [] then None
    else
      var votes := Votes(PreferredKinds(ps));
      var c := Tally(votes);
      assert votes[0].0 in Keys(c);
      Some(c[FirstMaxIndex(c)].0)
  }

  /** The first most common key of a vote is one of the keys; no key has
      more votes, and one with as many votes first appears no earlier. */
  lemma VotesLeader<K>(keys: seq<K>)
    requires keys != []
    ensures var c := Tally(Votes(keys)); var top := c[FirstMaxIndex(c)].0;
      && top in keys
      && forall k :: k in keys ==>
           Count(keys, k) <= Count(keys, top)
           && (Count(keys, k) == Count(keys, top) ==> FirstIndex(keys, top) <= FirstIndex(keys, k))
  {
    var votes := Votes(keys);
    TallyLeader(votes);
    var c := Tally(votes);
    var top := c[FirstMaxIndex(c)].0;
    VotesCount(keys, top);
    forall k | k in keys
      ensures Count(keys, k) == WeightOf(votes, k)
    {
      VotesCount(keys, k);
    }
  }

  /** The favourite is some pop's preference, no preference has more votes,
      and one with as many votes is first preferred by a later pop. */
  lemma FavouriteKindWins(ps: seq<Population>)
    requires ps != []
    ensures var kinds := PreferredKinds(ps); var fav := FavouriteKind(ps).value;
      && fav in kinds
      && forall k :: k in kinds ==>
           Count(kinds, k) <= Count(kinds, fav)
           && (Count(kinds, k) == Count(kinds, fav) ==> FirstIndex(kinds, fav) <= FirstIndex(kinds, k))
  {
    VotesLeader(PreferredKinds(ps));
  }

  /** countries.most_common(1)[0][0]: the ancestry tag with the largest summed
      weighting over all pops, if any pop has an ancestry. */
  function Origin(ps: seq<Population>): (origin: Option<string>)
    ensures origin.Some? <==> AllAncestries(ps) != []
  {
    var entries := AllAncestries(ps);
    if entries == [] then None
    else
      var c := Tally(entries);
      assert entries[0].0 in Keys(c);
      Some(c[FirstMaxIndex(c)].0)
  }

  /** The origin is the heaviest tag, the first to appear among equally heavy
      ones. */
  lemma OriginHeaviest(ps: seq<Population>)
    requires AllAncestries(ps) != []
    ensures var entries := AllAncestries(ps); var origin := Origin(ps).value;
      && origin in Keys(entries)
      && forall k :: k in Keys(entries) ==>
           WeightOf(entries, k) <= WeightOf(entries, origin)
           && (WeightOf(entries, k) == WeightOf(entries, origin) ==>
                 FirstIndex(Keys(entries), origin) <= FirstIndex(Keys(entries), k))
  {
    TallyLeader(AllAncestries(ps));
  }

  /** Valid pops all have an ancestry, so some pops always have an origin. */
  lemma {:induction false} OriginOfValid(ps: seq<Population>)
    requires ps != [] && forall i :: 0 <= i < |ps| ==> ValidAncestry(ps[i].ancestry)
    ensures Origin(ps).Some?
  {
    AllAncestriesValid(ps);
  }

  // ---------------------------------------------------------------------------
  // Who stays and who leaves.

  predicate UnitDraws(draws: seq<real>)
  {
    forall i :: 0 <= i < |draws| ==> 0.0 <= draws[i] < 1.0
  }

  /** A pop leaves when the government does not suit it and it wants to move
      on the draw it is given. */
  predicate Leaves(g: Opinion, p: Population, draw: real)
    reads p
    requires 0.0 <= draw < 1.0
  {
    !Suits(g, p) && p.WantsToMove(draw)
  }

  /** Whether each pop leaves on its draw; pop i draws draws[i]. */
  function Flags(g: Opinion, ps: seq<Population>, draws: seq<real>): (flags: seq<bool>)
    reads ps
    requires |ps| == |draws| && UnitDraws(draws)
    ensures |flags| == |ps|
    ensures forall i :: 0 <= i < |ps| ==> flags[i] == Leaves(g, ps[i], draws[i])
  {
    seq(|ps|, i requires 0 <= i < |ps| reads ps => Leaves(g, ps[i], draws[i]))
  }

  /** The pops that leave (leaving) or stay (!leaving), in order. */
  function Partition(g: Opinion, ps: seq<Population>, draws: seq<real>, leaving: bool): (r: seq<Population>)
    reads ps
    requires |ps| == |draws| && UnitDraws(draws)
  {
    Side(ps, Flags(g, ps, draws), leaving)
  }

  /** Every pop lands on exactly one side: the two sides together are the
      pops. */
  lemma PartitionCovers(g: Opinion, ps: seq<Population>, draws: seq<real>)
    requires |ps| == |draws| && UnitDraws(draws)
    ensures multiset(Partition(g, ps, draws, true)) + multiset(Partition(g, ps, draws, false)) == multiset(ps)
  {
    SidesCover(ps, Flags(g, ps, draws));
  }

  /** A pop is on the leaving side exactly when it leaves on its draw. */
  lemma PartitionSides(g: Opinion, ps: seq<Population>, draws: seq<real>, leaving: bool)
    requires |ps| == |draws| && UnitDraws(draws)
    ensures forall i :: 0 <= i < |ps| && Leaves(g, ps[i], draws[i]) == leaving ==>
              ps[i] in Partition(g, ps, draws, leaving)
    ensures forall p :: p in Partition(g, ps, draws, leaving) ==>
              exists i :: 0 <= i < |ps| && ps[i] == p && Leaves(g, ps[i], draws[i]) == leaving
  {
    SideMembers(ps, Flags(g, ps, draws), leaving);
  }

  /** The loop of process_year that sorts the pops into movers and stayers. */
  method SortPops(g: Opinion, pops: seq<Population>, draws: seq<real>)
    returns (move: seq<Population>, stay: seq<Population>)
    requires |pops| == |draws| && UnitDraws(draws)
    ensures move == Partition(g, pops, draws, true)
    ensures stay == Partition(g, pops, draws, false)
  {
    ghost var flags := Flags(g, pops, draws);
    move, stay := [], [];
    for i := 0 to |pops|
      invariant move == Side(pops[..i], flags[..i], true)
      invariant stay == Side(pops[..i], flags[..i], false)
    {
      assert pops[..i + 1][..i] == pops[..i] && flags[..i + 1][..i] == flags[..i];
      if !Suits(g, pops[i]) && pops[i].WantsToMove(draws[i]) {
        move := move + [pops[i]];
      } else {
        stay := stay + [pops[i]];
      }
    }
    assert pops[..|pops|] == pops && flags[..|flags|] == flags;
  }

  /** How a non-empty settlement's pops split: the stayers and the movers
      of the partition, except that when nobody would stay, one of the
      movers stays instead; no pop is lost or duplicated. */
  ghost predicate Dispersed(g: Opinion, pops: seq<Population>, draws: seq<real>,
                            stay: seq<Population>, move: seq<Population>)
    reads pops
    requires |pops| == |draws| && UnitDraws(draws)
  {
    var leaving := Partition(g, pops, draws, true);
    var staying := Partition(g, pops, draws, false);
    && (staying != [] ==> stay == staying && move == leaving)
    && (staying == [] ==> |stay| == 1 && stay[0] in leaving && move == RemoveFirst(leaving, stay[0]))
    && multiset(stay) + multiset(move) == multiset(pops)
  }

  /** Somebody always stays after a dispersal. */
  lemma DispersedKeepsOne(g: Opinion, pops: seq<Population>, draws: seq<real>,
                          stay: seq<Population>, move: seq<Population>)
    requires |pops| == |draws| && UnitDraws(draws)
    requires Dispersed(g, pops, draws, stay, move)
    ensures stay != []
  {
  }

  /** The value-level dispersal of a non-empty settlement's pops under
      government opinion g: who stays and who moves. */
  method Dispersal(g: Opinion, pops: seq<Population>, draws: seq<real>)
    returns (stay: seq<Population>, move: seq<Population>)
    requires pops != [] && |pops| == |draws| && UnitDraws(draws)
    ensures Dispersed(g, pops, draws, stay, move)
  {
    var leaving, staying := SortPops(g, pops, draws);
    PartitionCovers(g, pops, draws);
    stay, move := KeepOne(leaving, staying);
  }

  /** When nobody would stay, one of the leavers (any one) is kept back;
      otherwise the two sides are left as they are. No pop is lost or
      duplicated. */
  method KeepOne(move: seq<Population>, stay: seq<Population>)
    returns (stay': seq<Population>, move': seq<Population>)
    requires move != [] || stay != []
    ensures stay != [] ==> stay' == stay && move' == move
    ensures stay == [] ==> |stay'| == 1 && stay'[0] in move && move' == RemoveFirst(move, stay'[0])
    ensures multiset(stay') + multiset(move') == multiset(stay) + multiset(move)
  {
    stay', move' := stay, move;
    if stay == [] {
      assert move[0] in move;
      var remainer :| remainer in move;
      move' := RemoveFirst(move, remainer);
      stay' := [remainer];
    }
  }

  // ---------------------------------------------------------------------------
  // Effort.

  /** round(population / POP_TARGET_SIZE / 3): the effort that feeding the
      settlement takes. */
  function AgriculturalRequirement(population: int): (a: int)
    ensures population >= 0 ==> a >= 0
  {
    RoundHalfEven(population as real / POP_TARGET_SIZE as real / 3.0)
  }

  /** A settlement of at most one and a half times the target size of a pop
      needs no farming effort (one half rounds to the even 0). */
  lemma SmallSettlementsNeedNoFarming(population: int)
    requires 0 <= population && 2 * population <= 3 * POP_TARGET_SIZE
    ensures AgriculturalRequirement(population) == 0
  {
    var p := POP_TARGET_SIZE as real;
    var x := population as real / p / 3.0;
    assert x == population as real / (3.0 * p);
    assert 2.0 * (population as real) <= 3.0 * p;
    assert x <= 0.5;
  }

  /** The effort a settlement puts in: its stayers and half its movers,
      less the agricultural requirement of its whole population. */
  function Effort(stayers: nat, movers: nat, population: int): int
  {
    stayers + movers / 2 - AgriculturalRequirement(population)
  }

  /** (manufacturing, science) for an effort: science takes the share of the
      government's traditionalist/technological value, rounded, and
      manufacturing the rest; no effort yields nothing. */
  function EffortSplit(effort: int, technological: Unit): (int, int)
  {
    if effort > 0 then
      var science := RoundHalfEven(technological * effort as real);
      (effort - science, science)
    else (0, 0)
  }

  /** A positive effort is shared out whole, science getting its share to
      within a half; no effort yields nothing. */
  lemma EffortSplitBounds(effort: int, technological: Unit)
    ensures var split := EffortSplit(effort, technological);
            && (effort > 0 ==> 0 <= split.1 <= effort && split.0 + split.1 == effort)
            && (effort > 0 ==> split.1 as real - 0.5 <= technological * effort as real <= split.1 as real + 0.5)
            && (effort <= 0 ==> split == (0, 0))
  {
    if effort > 0 {
      RoundFractionBounds(technological, effort);
    }
  }

  /** Each mover paired with the settlement it leaves. */
  function Paired<S>(s: S, moved: seq<Population>): (pairs: seq<(S, Population)>)
    ensures |pairs| == |moved|
    ensures forall i :: 0 <= i < |moved| ==> pairs[i] == (s, moved[i])
  {
    seq(|moved|, i requires 0 <= i < |moved| => (s, moved[i]))
  }

  class Settlement {
    var pops: seq<Population>
    var government: Government
    var name: string

    /** Settlement(rng, name, pops, government_type) with the government
        already built for these pops. */
    constructor (name: string, pops: seq<Population>, government: Government)
      ensures this.name == name && this.pops == pops && this.government == government
    {
      this.name := name;
      this.pops := pops;
      this.government := government;
    }

    /** The population property: the sum of the pops' populations, never
        negative for valid pops. */
    function Population(): (n: int)
      reads this, pops
      ensures (forall i :: 0 <= i < |pops| ==> pops[i].Valid()) ==> n >= 0
    {
      TotalPopulationSplits(pops);
      TotalPopulation(pops)
    }

    /** The name for_pops gives a settlement: the one supplied, leaving the
        city pools as they were, or else the draw from the city names of the
        pops' heaviest origin. */
    static ghost predicate Named(name: Option<string>, origin: Option<string>, before: Pools,
                                 chosen: Result<string>, used: nat, after: Pools)
    {
      && (name.Some? ==> chosen == Ok(name.value) && after == before)
      && (name.None? ==>
            && origin.Some?
            && Drawn(Touched(before, origin.value), origin.value, chosen, used, after))
    }

    static method NameFor(pops: seq<Population>, name: Option<string>, cities: CityList)
      returns (chosen: Result<string>, ghost used: nat)
      requires pops != [] && cities.Valid()
      requires AllValid(pops)
      modifies cities`pools
      ensures cities.Valid()
      ensures Named(name, Origin(pops), old(cities.pools), chosen, used, cities.pools)
    {
      if name.Some? {
        return Ok(name.value), 0;
      }
      OriginOfValid(pops);
      chosen, used := cities.GetName(Origin(pops).value);
    }

    /** Settlement.for_pops: the government is of the kind most pops prefer,
        and the name, unless one is supplied, is drawn from the city names of
        the heaviest origin. No pops means no most common entry (an
        IndexError); a failed draw or a failed government fails the call. */
    static method ForPops(pops: seq<Population>, name: Option<string>, cities: CityList, draws: Draws)
      returns (r: Result<Settlement>, ghost chosen: Result<string>, ghost used: nat)
      requires draws.InRange() && cities.Valid()
      requires AllValid(pops)
      modifies cities`pools, pops`mergeable
      ensures cities.Valid()
      ensures pops == [] ==> r == Err(IndexOutOfRange) && cities.pools == old(cities.pools)
      ensures pops != [] ==>
        && Named(name, Origin(pops), old(cities.pools), chosen, used, cities.pools)
        && (chosen.Err? ==> r == Err(chosen.fault))
      ensures r.Ok? ==>
        && fresh(r.value) && r.value.pops == pops && chosen == Ok(r.value.name)
        && r.value.government.kind == FavouriteKind(pops).value
        && r.value.government.Formed()
      ensures r.Err? && pops != [] && chosen.Ok? ==> FavouriteKind(pops).value.IsRepresentative()
    {
      if pops == [] {
        return Err(IndexOutOfRange), Err(EmptyChoice), 0;
      }
      ghost var before := cities.pools;
      var named;
      named, used := NameFor(pops, name, cities);
      chosen := named;
      ghost var after := cities.pools;
      assert Named(name, Origin(pops), before, chosen, used, after);
      if named.Err? {
        return Err(named.fault), chosen, used;
      }
      ghost var g, rule, fault, candidates;
      r, g, rule, fault, candidates := Establish(named.value, pops, draws);
      assert cities.pools == after;
    }

    /** The rest of for_pops once the name is settled: a government of the
        kind most pops prefer, and the settlement it governs. */
    static method Establish(name: string, pops: seq<Population>, draws: Draws)
      returns (r: Result<Settlement>, ghost g: Government, ghost rule: Rule, ghost fault: Option<Fault>,
               ghost candidates: seq<Population>)
      requires pops != [] && draws.InRange()
      requires AllValid(pops)
      modifies pops`mergeable
      ensures fresh(g) && g.kind == FavouriteKind(pops).value && rule == g.Holds()
      ensures Inaugurated(g.kind, rule, g.term, pops, draws, old(CouncilSizeFor(pops)), fault, candidates)
      ensures r.Ok? <==> fault.None?
      ensures r.Ok? ==>
        && fresh(r.value) && r.value.pops == pops && r.value.name == name
        && r.value.government == g && g.Formed()
      ensures r.Err? ==> r == Err(fault.value) && FavouriteKind(pops).value.IsRepresentative()
    {
      var kind := FavouriteKind(pops).value;
      var founded, failure;
      founded, failure, candidates := Government.Create(kind, pops, draws);
      g, rule, fault := founded, founded.Holds(), failure;
      if failure.Some? {
        return Err(failure.value), g, rule, fault, candidates;
      }
      var s := new Settlement(name, pops, founded);
      r := Ok(s);
    }

    /** births_and_deaths: the pops are replaced by those that survive the
        year (see Life.ProcessBirthsAndDeaths); small and tail record the
        small pops and what merging them gave. */
    method BirthsAndDeaths() returns (ghost grown: seq<Population>, ghost small: seq<Entry>, ghost tail: seq<Entry>)
      requires Distinct(pops)
      requires forall j :: 0 <= j < |pops| ==> pops[j].Valid() && pops[j].Population() > 0
      modifies this`pops, pops
      ensures |grown| >= |old(pops)| && grown[..|old(pops)|] == old(pops)
      ensures Life.Recorded(grown, pops, small, tail)
      ensures forall j :: 0 <= j < |pops| ==> pops[j].Valid()
    {
      var newPops;
      grown, newPops, small, tail := Survive(pops);
      pops := newPops;
    }

    /** The government step of process_year: the government governs (what
        that leaves is Governments.Governed), and a new government, when
        govern returns one, replaces the old one; otherwise the government
        stays. A failure of govern is the crashed outcome, carrying the
        fault govern returned. */
    method Govern(year: int, threshold: real, draws: Draws)
      returns (out: Outcome, ghost fault: Option<Fault>, ghost chosen: GovKind, ghost founded: Rule,
               ghost candidates: seq<Population>)
      requires government.Formed()
      requires 0.0 <= threshold < 0.5 && draws.InRange()
      requires forall i :: 0 <= i < |pops| ==> pops[i].Valid()
      modifies this`government, government`council, government`opinion, government`dictator,
        government`foundingYear, government.council`mergeable, pops`mergeable,
        AllDescendentPops(government.council)`mergeable, AllDescendentPops(pops)`mergeable
      ensures var g := old(government); var plan := Threat(g.kind, g.Holds(), pops);
        Governed(g.kind, g.term, old(g.CurrentStanding()), g.Holds(), old(CouncilSizeFor(pops)),
                 old(CircleOf(Inner(plan))), out, pops, year, threshold, fault, chosen, founded, candidates,
                 NextRule(out)) == true
      ensures government.Formed()
      ensures out.Replaced? ==> government == out.government && fresh(government)
      ensures !out.Replaced? ==> government == old(government)
    {
      hide *;
      var g := government;
      out, fault, chosen, founded, candidates := g.Govern(pops, year, threshold, draws);
      if out.Replaced? {
        government := out.government;
      }
    }

    /** The rest of process_year once the government is settled: the
        agricultural requirement of the whole population; the pops split
        into movers (unsuited by the government and wanting to move) and
        stayers; when nobody stays, one mover is made to stay (for no pops
        at all that choice fails); the stayers become the pops; and the
        effort, the stayers plus half the movers less the agricultural
        requirement, is split into manufacturing and science. The movers are
        returned paired with this settlement. */
    method Disperse(moveDraws: seq<real>)
      returns (unhappy: seq<(Settlement, Population)>, manufacturing: int, science: int,
               fault: Option<Fault>, ghost moved: seq<Population>)
      requires |moveDraws| == |pops| && UnitDraws(moveDraws)
      modifies this`pops
      ensures fault.Some? <==> old(pops) == []
      ensures fault.Some? ==> fault == Some(EmptyChoice) && pops == old(pops) && unhappy == []
      ensures fault.None? ==>
        var g := government.opinion;
        && Dispersed(g, old(pops), moveDraws, pops, moved)
        && unhappy == Paired(this, moved)
        && var split := EffortSplit(Effort(|pops|, |moved|, old(TotalPopulation(pops))), g.traditionalistTechnological);
           manufacturing == split.0 && science == split.1
    {
      if pops == [] {
        return [], 0, 0, Some(EmptyChoice), [];
      }
      var g := government.opinion;
      var total := TotalPopulation(pops);
      var stay, move := Dispersal(g, pops, moveDraws);
      pops := stay;
      moved := move;
      var split := EffortSplit(Effort(|stay|, |move|, total), g.traditionalistTechnological);
      manufacturing, science := split.0, split.1;
      unhappy := Paired(this, move);
      fault := None;
    }

    /** process_year: births and deaths, then the rest of the year
        (RuleAndDisperse). The year may reach any pop there is (the
        mergeable flags of a ruler's descendents, the descendent lists of
        the pops), so world stands for every pop. Since governing changes
        mergeable flags afterwards, small and tail record the small pops and
        the merged ones as births and deaths left them (that record is
        stated as one fact, so it is checked whole). */
    method ProcessYear(year: int, threshold: real, draws: Draws, ghost world: set<Population>)
      returns (unhappy: seq<(Settlement, Population)>, manufacturing: int, science: int,
               fault: Option<Fault>, moveDraws: seq<real>,
               ghost grown: seq<Population>, ghost survivors: seq<Population>, ghost moved: seq<Population>,
               ghost small: seq<Entry>, ghost tail: seq<Entry>,
               ghost ruled: Outcome, ghost failure: Option<Fault>, ghost chosen: GovKind, ghost founded: Rule,
               ghost candidates: seq<Population>, ghost was: Standing, ghost size: nat, ghost circle: Circle)
      requires Distinct(pops)
      requires forall j :: 0 <= j < |pops| ==> pops[j].Valid() && pops[j].Population() > 0
      requires government.Formed() && 0.0 <= threshold < 0.5 && draws.InRange()
      requires forall p: Population :: p in world
      modifies this`pops, this`government, pops, government`council, government`opinion,
        government`dictator, government`foundingYear, world`mergeable
      ensures |grown| >= |old(pops)| && grown[..|old(pops)|] == old(pops)
      ensures Life.Recorded(grown, survivors, small, tail) == true
      ensures was.rule == old(government.Holds())
      ensures var g := old(government);
        Governed(g.kind, g.term, was, g.Holds(), size, circle, ruled, survivors, year, threshold, failure, chosen,
                 founded, candidates, NextRule(ruled)) == true
      ensures government == (if ruled.Replaced? then ruled.government else old(government))
      ensures ruled.Replaced? ==> fresh(ruled.government)
      ensures ruled.Crashed? ==> fault == Some(ruled.fault)
      ensures !ruled.Crashed? && fault.Some? ==> survivors == [] && fault == Some(EmptyChoice)
      ensures government.Formed()
      ensures fault.Some? ==> pops == survivors && unhappy == []
      ensures fault.None? ==>
        && |moveDraws| == |survivors| && UnitDraws(moveDraws)
        && Dispersed(government.opinion, survivors, moveDraws, pops, moved)
        && pops != []
        && unhappy == Paired(this, moved)
        && var split := EffortSplit(Effort(|pops|, |moved|, TotalPopulation(survivors)),
                                    government.opinion.traditionalistTechnological);
           manufacturing == split.0 && science == split.1
      ensures survivors == [] ==> fault.Some?
    {
      hide *;
      grown, small, tail := BirthsAndDeaths();
      survivors := pops;
      unhappy, manufacturing, science, fault, moveDraws, moved, ruled, failure, chosen, founded, candidates,
        was, size, circle := RuleAndDisperse(year, threshold, draws);
    }

    /** The rest of process_year once births and deaths are done: govern (a
        new government replaces the old one; a failure ends the year with
        its fault), then the dispersal, with the year's own move draws, and
        the effort split. */
    method RuleAndDisperse(year: int, threshold: real, draws: Draws)
      returns (unhappy: seq<(Settlement, Population)>, manufacturing: int, science: int,
               fault: Option<Fault>, moveDraws: seq<real>, ghost moved: seq<Population>,
               ghost ruled: Outcome, ghost failure: Option<Fault>, ghost chosen: GovKind, ghost founded: Rule,
               ghost candidates: seq<Population>, ghost was: Standing, ghost size: nat, ghost circle: Circle)
      requires forall j :: 0 <= j < |pops| ==> pops[j].Valid()
      requires government.Formed() && 0.0 <= threshold < 0.5 && draws.InRange()
      modifies this`pops, this`government, government`council, government`opinion, government`dictator,
        government`foundingYear, government.council`mergeable, pops`mergeable,
        AllDescendentPops(government.council)`mergeable, AllDescendentPops(pops)`mergeable
      ensures was == old(government.CurrentStanding()) && size == old(CouncilSizeFor(pops))
      ensures var g := old(government); var plan := Threat(g.kind, g.Holds(), old(pops));
        circle == old(CircleOf(Inner(plan)))
      ensures var g := old(government);
        Governed(g.kind, g.term, was, g.Holds(), size, circle, ruled, old(pops), year, threshold, failure, chosen,
                 founded, candidates, NextRule(ruled)) == true
      ensures government == (if ruled.Replaced? then ruled.government else old(government))
      ensures ruled.Replaced? ==> fresh(ruled.government)
      ensures ruled.Crashed? ==> fault == Some(ruled.fault)
      ensures !ruled.Crashed? && fault.Some? ==> old(pops) == [] && fault == Some(EmptyChoice)
      ensures government.Formed()
      ensures fault.Some? ==> pops == old(pops) && unhappy == []
      ensures fault.None? ==>
        && |moveDraws| == |old(pops)| && UnitDraws(moveDraws)
        && Dispersed(government.opinion, old(pops), moveDraws, pops, moved)
        && pops != []
        && unhappy == Paired(this, moved)
        && var split := EffortSplit(Effort(|pops|, |moved|, TotalPopulation(old(pops))),
                                    government.opinion.traditionalistTechnological);
           manufacturing == split.0 && science == split.1
      ensures old(pops) == [] ==> fault.Some?
    {
      hide Governed;
      ghost var g := government;
      was, size := g.CurrentStanding(), CouncilSizeFor(pops);
      var out;
      out, failure, chosen, founded, candidates := Govern(year, threshold, draws);
      ruled := out;
      ghost var plan := Threat(g.kind, g.Holds(), pops);
      circle := old(CircleOf(Inner(plan)));
      if out.Crashed? {
        return [], 0, 0, Some(out.fault), [], [], ruled, failure, chosen, founded, candidates, was, size, circle;
      }
      ghost var now, next := g.Holds(), NextRule(ruled);
      unhappy, manufacturing, science, fault, moveDraws, moved := DisperseDrawn();
      assert g.Holds() == now && NextRule(ruled) == next;
    }

    /** The dispersal as process_year runs it: the move draws are the
        year's own (any draws in [0, 1)), and a dispersal that succeeds
        leaves some pop in the settlement. */
    method DisperseDrawn()
      returns (unhappy: seq<(Settlement, Population)>, manufacturing: int, science: int,
               fault: Option<Fault>, moveDraws: seq<real>, ghost moved: seq<Population>)
      modifies this`pops
      ensures fault.Some? <==> old(pops) == []
      ensures fault.Some? ==> fault == Some(EmptyChoice) && pops == old(pops) && unhappy == []
      ensures fault.None? ==>
        && |moveDraws| == |old(pops)| && UnitDraws(moveDraws)
        && Dispersed(government.opinion, old(pops), moveDraws, pops, moved)
        && pops != []
        && unhappy == Paired(this, moved)
        && var split := EffortSplit(Effort(|pops|, |moved|, TotalPopulation(old(pops))),
                                    government.opinion.traditionalistTechnological);
           manufacturing == split.0 && science == split.1
    {
      var unit := seq(|pops|, _ => 0.0);
      assert UnitDraws(unit);
      moveDraws :| |moveDraws| == |pops| && UnitDraws(moveDraws);
      ghost var before := pops;
      unhappy, manufacturing, science, fault, moved := Disperse(moveDraws);
      if fault.None? {
        DispersedKeepsOne(government.opinion, before, moveDraws, pops, moved);
      }
    }
  }
}
