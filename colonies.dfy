/** Starships and the planets they fly between: starships.py, the
    inhabited-planet bookkeeping of inhabitedplanet.py (science, shipbuilding,
    population), and as much of the cartography as those two touch. */
module Colonies {
  import opened Numeric
  import Science
  import opened Politics
  import opened Populations
  import opened Life
  import opened Governments
  import opened CityNames
  import opened Settlements
  import opened Shipyard

  type ScienceNode = Science.ScienceNode

  /** A star as the colonies see it: its neighbours, nearest first, with
      their distances, and its habitable planets. */
  class Star {
    var neighbours: seq<(Star, real)>
    var habitablePlanets: seq<Planet>

    constructor ()
      ensures neighbours == [] && habitablePlanets == []
    {
      neighbours := [];
      habitablePlanets := [];
    }
  }

  /** A planet: its star, the colony on it if any, and the ships docked there. */
  class Planet {
    const star: Star
    var inhabited: InhabitedPlanet?
    var ships: seq<Starship>

    constructor (star: Star)
      ensures this.star == star && inhabited == null && ships == []
    {
      this.star := star;
      inhabited := null;
      ships := [];
    }
  }

  /** The pops of cargo placed in settlement s, in cargo order. */
  ghost function Arrivals(cargo: seq<Population>, targets: seq<Settlement>, s: Settlement): seq<Population>
    requires |cargo| == |targets|
  {
    if cargo == [] then []
    else
      var n := |cargo| - 1;
      Arrivals(cargo[..n], targets[..n], s) + (if targets[n] == s then [cargo[n]] else [])
  }

  /** How many pops the settlements of ss received between them. */
  ghost function ArrivalTotal(cargo: seq<Population>, targets: seq<Settlement>, ss: seq<Settlement>): nat
    requires |cargo| == |targets|
  {
    if ss == [] then 0 else |Arrivals(cargo, targets, ss[0])| + ArrivalTotal(cargo, targets, ss[1..])
  }

  /** Appending one placement adds one to the total of the settlements that
      hold its target once. */
  lemma {:induction false} ArrivalTotalStep(cargo: seq<Population>, targets: seq<Settlement>, ss: seq<Settlement>)
    requires |cargo| == |targets| && cargo != []
    ensures var n := |cargo| - 1;
      ArrivalTotal(cargo, targets, ss)
        == ArrivalTotal(cargo[..n], targets[..n], ss) + Count(ss, targets[n])
  {
    if ss != [] {
      ArrivalTotalStep(cargo, targets, ss[1..]);
      assert ss == [ss[0]] + ss[1..];
      CountFront(ss, targets[|cargo| - 1]);
    }
  }

  lemma {:induction false} CountFront<T>(xs: seq<T>, x: T)
    requires xs != []
    ensures Count(xs, x) == (if xs[0] == x then 1 else 0) + Count(xs[1..], x)
    decreases |xs|
  {
    var n := |xs| - 1;
    if n > 0 {
      CountFront(xs[..n], x);
      assert xs[..n][1..] == xs[1..][..n - 1];
    }
  }

  /** Every pop is placed in exactly one settlement: when each target is one
      of the (distinct) settlements, they receive |cargo| pops between them. */
  /** Each settlement of ss holds what it held before and then the cargo
      pops sent to it. */
  ghost predicate Received(ss: seq<Settlement>, before: seq<seq<Population>>, cargo: seq<Population>, targets: seq<Settlement>)
    requires |before| == |ss| && |cargo| == |targets|
    reads ss
  {
    forall k :: 0 <= k < |ss| ==> ss[k].pops == before[k] + Arrivals(cargo, targets, ss[k])
  }

  /** Placing cargo[i] at target extends the arrivals of target alone. */
  lemma ArrivalsSnoc(cargo: seq<Population>, targets: seq<Settlement>, i: nat, target: Settlement, s: Settlement)
    requires |targets| == i < |cargo|
    ensures Arrivals(cargo[..i + 1], targets + [target], s)
              == Arrivals(cargo[..i], targets, s) + (if target == s then [cargo[i]] else [])
  {
    assert cargo[..i + 1][..i] == cargo[..i];
    assert (targets + [target])[..i] == targets;
  }

  lemma {:induction false} ArrivalsPartition(cargo: seq<Population>, targets: seq<Settlement>, ss: seq<Settlement>)
    requires |cargo| == |targets|
    requires forall k :: 0 <= k < |targets| ==> Count(ss, targets[k]) == 1
    ensures ArrivalTotal(cargo, targets, ss) == |cargo|
    decreases |cargo|
  {
    if cargo == [] {
      ZeroTotal(targets, ss);
    } else {
      var n := |cargo| - 1;
      ArrivalsPartition(cargo[..n], targets[..n], ss);
      ArrivalTotalStep(cargo, targets, ss);
    }
  }

  lemma {:induction false} ZeroTotal(targets: seq<Settlement>, ss: seq<Settlement>)
    requires targets == []
    ensures ArrivalTotal([], targets, ss) == 0
    decreases |ss|
  {
    if ss != [] {
      ZeroTotal(targets, ss[1..]);
    }
  }

  /** The opinions of the settlements' governments, in order. */
  function GovernmentOpinions(ss: seq<Settlement>): (os: seq<Opinion>)
    reads ss`government, (set s | s in ss :: s.government)`opinion
    ensures |os| == |ss|
    ensures forall k :: 0 <= k < |ss| ==> os[k] == ss[k].government.opinion
  {
    if ss == [] then [] else [ss[0].government.opinion] + GovernmentOpinions(ss[1..])
  }

  /** The index of the first government opinion that suits p, or |os| when
      none does (the for-else of offload_to_settlement). */
  function FirstSuitable(os: seq<Opinion>, p: Population): (i: nat)
    ensures i <= |os|
  {
    if os == [] then 0
    else if Suits(os[0], p) then 0
    else 1 + FirstSuitable(os[1..], p)
  }

  /** The index found suits p and no earlier one does; at |os| none does. */
  lemma {:induction false} FirstSuitableIsFirst(os: seq<Opinion>, p: Population)
    ensures FirstSuitable(os, p) < |os| ==> Suits(os[FirstSuitable(os, p)], p)
    ensures forall j :: 0 <= j < FirstSuitable(os, p) ==> !Suits(os[j], p)
  {
    if os != [] && !Suits(os[0], p) {
      FirstSuitableIsFirst(os[1..], p);
    }
  }

  /** The happiness a pop arrives with: 1 in a settlement that suits it,
      0.75 when it had to be put anywhere. */
  function Welcome(os: seq<Opinion>, p: Population): real
  {
    if FirstSuitable(os, p) < |os| then 1.0 else 0.75
  }

  /** Where a cargo pop went, given the opinions os of the governments of
      ss: the first suiting settlement, or else any one. */
  ghost predicate PlacedAt(ss: seq<Settlement>, os: seq<Opinion>, p: Population, target: Settlement)
  {
    target in ss
    && (FirstSuitable(os, p) < |ss| ==> target == ss[FirstSuitable(os, p)])
  }

  class Starship {
    const name: string
    const capacity: int
    const founded: int
    const lifespan: int
    const acceleration: real
    const sublightRange: real
    const ftl: Option<Fold>
    const scienceLevel: int
    const discoveries: seq<ScienceNode>
    var decommissioned: bool

    var origin: InhabitedPlanet?
    var destination: Planet?
    var destinationInhabited: InhabitedPlanet?
    var objective: Option<int>
    var subjective: Option<int>
    var cargo: seq<Population>

    /** A ship with the given design, docked and empty. */
    constructor (name: string, design: Design, founded: int, lifespan: int,
                 scienceLevel: int, discoveries: seq<ScienceNode>)
      ensures Built(design, name, founded, scienceLevel, discoveries) && this.lifespan == lifespan
      ensures origin == null && destination == null && destinationInhabited == null
      ensures objective == None && subjective == None && cargo == [] && !decommissioned
    {
      this.name := name;
      capacity := design.capacity;
      this.founded := founded;
      this.lifespan := lifespan;
      acceleration := design.acceleration;
      sublightRange := design.sublightRange;
      ftl := design.ftl;
      this.scienceLevel := scienceLevel;
      this.discoveries := discoveries;
      decommissioned := false;
      origin := null;
      destination := null;
      destinationInhabited := null;
      objective := None;
      subjective := None;
      cargo := [];
    }

    /** The ship was built to design d. */
    ghost predicate Built(d: Design, name: string, founded: int, scienceLevel: int, discoveries: seq<ScienceNode>)
    {
      && this.name == name && this.founded == founded
      && this.scienceLevel == scienceLevel && this.discoveries == discoveries
      && capacity == d.capacity && acceleration == d.acceleration
      && sublightRange == d.sublightRange && ftl == d.ftl
    }

    function Range(): real
    {
      Shipyard.Range(sublightRange, ftl)
    }

    function Clock(): Clock
      reads this
    {
      Shipyard.Clock(objective, subjective)
    }

    /** construct_from_available_technologies: the design Blueprint picks from
        the deduplicated technologies, a lifespan drawn from 25..100, and the
        price; no chassis or no engine means max() of nothing. */
    static method Construct(scienceLevel: int, discoveries: seq<ScienceNode>, name: string, year: int)
      returns (r: Result<(Starship, int)>)
      ensures var plan := Blueprint(Dedup(Provided(discoveries)));
        && (plan.Err? ==> r == Err(MaxOfEmpty))
        && (plan.Ok? ==>
              && r.Ok? && fresh(r.value.0) && r.value.1 == plan.value.cost
              && r.value.0.Built(plan.value, name, year, scienceLevel, discoveries)
              && 25 <= r.value.0.lifespan <= 100
              && r.value.0.destination == null && r.value.0.cargo == [])
    {
      var techs := CollectTechs(discoveries);
      var plan := Blueprint(techs);
      if plan.Err? {
        return Err(MaxOfEmpty);
      }
      var lifespan :| 25 <= lifespan <= 100;
      var ship := new Starship(name, plan.value, year, lifespan, scienceLevel, discoveries);
      r := Ok((ship, plan.value.cost));
    }

    /** travel_to: origin and destination are recorded first (the colony's
        planet when a colony is given, else the planet given); too much cargo
        then raises; otherwise the cargo is loaded and both clocks are set
        from the distance to the destination and the sublight formulas'
        results (a folding drive of speed 0 divides by zero). */
    method TravelTo(current: InhabitedPlanet, cargo: seq<Population>, inhabited: InhabitedPlanet?, planet: Planet?,
                    distance: real, objectiveYears: nat, subjectiveYears: nat)
      returns (fault: Option<Fault>)
      modifies this
      ensures origin == current
      ensures inhabited != null ==> destination == inhabited.planet && destinationInhabited == inhabited
      ensures inhabited == null ==> destination == planet && destinationInhabited == null
      ensures |cargo| > capacity ==>
        fault == Some(CargoOverCapacity) && this.cargo == old(this.cargo) && Clock() == old(Clock())
      ensures |cargo| <= capacity ==> this.cargo == cargo
      ensures |cargo| <= capacity && Covers(ftl, distance) && ftl.value.speed == 0.0 ==>
        fault == Some(DivisionByZero) && Clock() == old(Clock())
      ensures fault.None? <==> |cargo| <= capacity && !(Covers(ftl, distance) && ftl.value.speed == 0.0)
      ensures fault.None? ==>
        && objective == TravelTime(sublightRange, ftl, distance, objectiveYears)
        && subjective == TravelTime(sublightRange, ftl, distance, subjectiveYears)
      ensures fault.None? ==> |this.cargo| <= capacity
    {
      origin := current;
      if inhabited != null {
        destination := inhabited.planet;
        destinationInhabited := inhabited;
      } else {
        destination := planet;
        destinationInhabited := null;
      }
      if |cargo| > capacity {
        return Some(CargoOverCapacity);
      }
      this.cargo := cargo;
      if Covers(ftl, distance) && ftl.value.speed == 0.0 {
        return Some(DivisionByZero);
      }
      objective := TravelTime(sublightRange, ftl, distance, objectiveYears);
      subjective := TravelTime(sublightRange, ftl, distance, subjectiveYears);
      fault := None;
    }

    /** The cargo process_births_and_deaths can age: distinct living pops. */
    ghost predicate CargoReady()
      reads this, cargo
    {
      Distinct(cargo) && forall j :: 0 <= j < |cargo| ==> cargo[j].Valid() && cargo[j].Population() > 0
    }

    /** transit: one year of the trip. The clocks move as Tick says; while the
        subjective clock runs the cargo lives through a year and is replaced
        by its survivors. The result says whether the ship has arrived; an
        objective clock of None cannot be decremented. */
    method Transit() returns (r: Result<bool>, ghost grown: seq<Population>)
      requires CargoReady()
      modifies this`objective, this`subjective, this`cargo, cargo
      ensures Clock() == Tick(old(Clock()))
      ensures old(objective).None? ==> r == Err(NoneOperand)
      ensures old(objective).Some? ==> r == Ok(objective == Some(0))
      ensures old(Ages(Clock())) ==> |grown| >= |old(cargo)| && grown[..|old(cargo)|] == old(cargo) && Life.Survivors(grown, cargo)
      ensures !old(Ages(Clock())) ==> cargo == old(cargo)
    {
      if objective == Some(0) {
        return Ok(true), [];
      }
      grown := [];
      var ages := Truthy(subjective);
      r := TickClocks();
      if ages {
        grown := LiveThroughYear();
      }
    }

    /** The clocks' part of transit, on a ship that has not arrived: the
        subjective clock counts down while truthy, then the objective one,
        which cannot be decremented from None. */
    method TickClocks() returns (r: Result<bool>)
      requires objective != Some(0)
      modifies this`objective, this`subjective
      ensures Clock() == Tick(old(Clock()))
      ensures old(objective).None? ==> r == Err(NoneOperand)
      ensures old(objective).Some? ==> r == Ok(objective == Some(0))
    {
      if Truthy(subjective) {
        subjective := Some(subjective.value - 1);
      }
      if objective.None? {
        return Err(NoneOperand);
      }
      objective := Some(objective.value - 1);
      r := Ok(objective == Some(0));
    }

    /** The cargo's year aboard (process_births_and_deaths): the pops age in
        place, newly founded pops are appended, and the survivors become the
        cargo. */
    method LiveThroughYear() returns (ghost grown: seq<Population>)
      requires CargoReady()
      modifies this`cargo, cargo
      ensures |grown| >= |old(cargo)| && grown[..|old(cargo)|] == old(cargo) && Life.Survivors(grown, cargo)
    {
      var survivors;
      ghost var small, tail;
      grown, survivors, small, tail := Survive(cargo);
      cargo := survivors;
    }

    /** reset: the ship forgets its destination and unloads. */
    method Reset()
      modifies this
      ensures destination == null && destinationInhabited == null && cargo == []
      ensures origin == old(origin) && Clock() == old(Clock())
    {
      destination := null;
      destinationInhabited := null;
      cargo := [];
    }

    /** The colony the ship lands at: the one it was sent to, else the one
        on its destination planet, if any. */
    function Landing(): InhabitedPlanet?
      reads this, destination
    {
      if destinationInhabited != null then destinationInhabited
      else if destination != null then destination.inhabited
      else null
    }

    /** offload_to_settlement: each cargo pop joins the first settlement of
        the colony whose government suits it, with happiness 1, or else a
        random one, with happiness 0.75; a random choice among no settlements
        raises. */
    method OffloadToSettlement() returns (fault: Option<Fault>, ghost targets: seq<Settlement>)
      requires destinationInhabited != null
      modifies destinationInhabited.settlements, cargo
      ensures fault.Some? <==> old(destinationInhabited.settlements) == [] && cargo != []
      ensures fault.Some? ==> fault.value == EmptyChoice
      ensures fault.None? ==>
        var ss := destinationInhabited.settlements;
        && Offloaded(cargo, ss, old(GovernmentOpinions(ss)), targets)
        && forall k :: 0 <= k < |ss| ==> ss[k].pops == old(ss[k].pops) + Arrivals(cargo, targets, ss[k])
    {
      var ss := destinationInhabited.settlements;
      if ss == [] && cargo != [] {
        cargo[0].SetHappiness(0.75);
        return Some(EmptyChoice), [];
      }
      // The governments are not changed by the offloading, so their
      // opinions are read once.
      var os := GovernmentOpinions(ss);
      targets := Distribute(ss, os, cargo);
      fault := None;
    }

    /** The loop of offload_to_settlement: the crew pops, in order, each go
        where Place sends them. */
    static method Distribute(ss: seq<Settlement>, os: seq<Opinion>, crew: seq<Population>)
      returns (ghost targets: seq<Settlement>)
      requires |os| == |ss| && (crew != [] ==> ss != [])
      modifies ss, crew
      ensures |targets| == |crew|
      ensures forall k :: 0 <= k < |ss| ==> ss[k].pops == old(ss[k].pops) + Arrivals(crew, targets, ss[k])
      ensures Offloaded(crew, ss, os, targets)
    {
      targets := [];
      ghost var before := seq(|ss|, k requires 0 <= k < |ss| reads ss => ss[k].pops);
      for i := 0 to |crew|
        invariant |targets| == i && |before| == |ss|
        invariant Received(ss, before, crew[..i], targets) && Offloaded(crew[..i], ss, os, targets)
      {
        var target := OffloadNext(ss, os, crew, i, crew[i], before, targets);
        targets := targets + [target];
      }
      assert crew[..|crew|] == crew;
    }

    /** The step of offload_to_settlement for crew[i]: it joins the settlement
        Place picks and takes the happiness that goes with it. */
    static method OffloadNext(ss: seq<Settlement>, os: seq<Opinion>, crew: seq<Population>, i: nat, pop: Population,
                              ghost before: seq<seq<Population>>, ghost targets: seq<Settlement>)
      returns (target: Settlement)
      requires i < |crew| && crew[i] == pop && |targets| == i && |before| == |ss| == |os| && ss != []
      requires Received(ss, before, crew[..i], targets) && Offloaded(crew[..i], ss, os, targets)
      modifies ss, pop`happiness
      ensures Received(ss, before, crew[..i + 1], targets + [target])
      ensures Offloaded(crew[..i + 1], ss, os, targets + [target])
    {
      var welcome;
      target, welcome := Place(ss, os, pop);
      Join(ss, crew, i, target, before, targets);
      label Before:
      pop.SetHappiness(welcome);
      forall k | 0 <= k < i
        ensures crew[k].happiness == Welcome(os, crew[k])
      {
        assert old@Before(crew[..i][k].happiness) == Welcome(os, crew[k]);
      }
      OffloadedSnoc(crew, i, ss, os, targets, target);
    }

    /** crew[i] is appended to the pops of target, one of ss. */
    static method Join(ss: seq<Settlement>, crew: seq<Population>, i: nat, target: Settlement,
                       ghost before: seq<seq<Population>>, ghost targets: seq<Settlement>)
      requires i < |crew| && |targets| == i && |before| == |ss| && target in ss
      requires Received(ss, before, crew[..i], targets)
      modifies target`pops
      ensures Received(ss, before, crew[..i + 1], targets + [target])
    {
      label Before:
      target.pops := target.pops + [crew[i]];
      forall k | 0 <= k < |ss|
        ensures ss[k].pops == before[k] + Arrivals(crew[..i + 1], targets + [target], ss[k])
      {
        assert old@Before(ss[k].pops) == before[k] + Arrivals(crew[..i], targets, ss[k]);
        ArrivalsSnoc(crew, targets, i, target, ss[k]);
      }
    }

    /** Where one cargo pop goes: the first settlement that suits it, to be
        made fully happy there, or else any settlement, at 0.75. */
    static method Place(ss: seq<Settlement>, os: seq<Opinion>, pop: Population)
      returns (target: Settlement, welcome: real)
      requires ss != [] && |os| == |ss|
      ensures PlacedAt(ss, os, pop, target) && welcome == Welcome(os, pop)
      ensures 0.0 <= welcome <= 1.0
    {
      var j := FindSuitable(os, pop);
      if j < |ss| {
        target, welcome := ss[j], 1.0;
      } else {
        assert ss[0] in ss;
        target :| target in ss;
        welcome := 0.75;
      }
    }

    /** The search of one cargo pop for a government that suits it. */
    static method FindSuitable(os: seq<Opinion>, pop: Population) returns (j: nat)
      ensures j == FirstSuitable(os, pop)
    {
      j := 0;
      while j < |os| && !Suits(os[j], pop)
        invariant j <= |os|
        invariant FirstSuitable(os, pop) == j + FirstSuitable(os[j..], pop)
      {
        assert os[j..][1..] == os[j + 1..];
        j := j + 1;
      }
    }

    /** settle_planet: the cargo founds a colony on the destination. The
        colony is named from the city names of the cargo's heaviest origin,
        starts with the ship's science, and holds one settlement of all the
        cargo, every pop made fully happy. No cargo has no most common origin
        (an IndexError); a failed name draw or a failed government raises. */
    method SettlePlanet(tree: ScienceNode, cities: CityList, draws: Draws)
      returns (r: Result<InhabitedPlanet>, ghost chosen: Result<string>, ghost used: nat)
      requires destination != null
      requires cities.Valid() && draws.InRange() && AllValid(cargo)
      modifies destination`inhabited, cargo, cities
      ensures cities.Valid()
      ensures cargo == [] ==> r == Err(IndexOutOfRange) && cities.pools == old(cities.pools)
      ensures cargo != [] ==> Settlement.Named(None, Origin(cargo), old(cities.pools), chosen, used, cities.pools)
      ensures cargo != [] && chosen.Err? ==> r == Err(chosen.fault)
      ensures r.Ok? ==> Ok(r.value.name) == chosen && fresh(r.value) && Colonised(r.value)
    {
      if cargo == [] {
        return Err(IndexOutOfRange), Err(EmptyChoice), 0;
      }
      var named;
      named, used := Settlement.NameFor(cargo, None, cities);
      chosen := named;
      if named.Err? {
        return Err(named.fault), chosen, used;
      }
      r := Colonise(named.value, tree, draws);
    }

    /** What settle_planet leaves when it succeeds: the colony stands on the
        destination, which records it, knows the ship's science, and holds
        one new settlement, under the colony's name, of all the cargo, every
        pop of it fully happy. */
    ghost predicate Colonised(colony: InhabitedPlanet)
      reads this, destination, colony, colony.settlements, cargo
    {
      && destination != null && colony.planet == destination && destination.inhabited == colony
      && colony.scienceLevel == scienceLevel && colony.discoveries == discoveries
      && |colony.settlements| == 1
      && colony.settlements[0].pops == cargo && colony.settlements[0].name == colony.name
      && forall k :: 0 <= k < |cargo| ==> cargo[k].happiness == 1.0
    }

    /** The cargo, made fully happy, forms the colony's settlement. */
    method Gather(name: string, draws: Draws) returns (r: Result<Settlement>)
      requires cargo != [] && draws.InRange() && AllValid(cargo)
      modifies cargo
      ensures r.Ok? ==> fresh(r.value) && r.value.pops == cargo && r.value.name == name
      ensures forall k :: 0 <= k < |cargo| ==> cargo[k].happiness == 1.0
    {
      hide *;
      Cheer(cargo, 1.0);
      ghost var g, rule, fault, candidates;
      r, g, rule, fault, candidates := Settlement.Establish(name, cargo, draws);
    }

    /** The founding half of settle_planet, once the name is drawn. A failed
        government leaves the colony recorded on the planet without a
        settlement. */
    method Colonise(name: string, tree: ScienceNode, draws: Draws) returns (r: Result<InhabitedPlanet>)
      requires destination != null && cargo != []
      requires draws.InRange() && AllValid(cargo)
      modifies destination`inhabited, cargo
      ensures r.Ok? ==> r.value.name == name && fresh(r.value) && Colonised(r.value) && fresh(r.value.settlements[0])
    {
      var founding :| true;
      var colony := new InhabitedPlanet(destination, name, founding, tree);
      colony.scienceLevel := scienceLevel;
      colony.discoveries := discoveries;
      var settled := Gather(name, draws);
      if settled.Err? {
        return Err(settled.fault);
      }
      colony.settlements := colony.settlements + [settled.value];
      r := Ok(colony);
    }

    /** offload: the ship lands at its destination's colony, or founds one;
        it docks there unless its service life is over; it is then reset.
        A failure of either landing aborts before docking. */
    method Offload(year: int, tree: ScienceNode, cities: CityList, draws: Draws)
      returns (r: Result<InhabitedPlanet?>)
      requires destination != null
      requires cities.Valid() && draws.InRange() && AllValid(cargo)
      modifies this, destination, cargo, cities
      modifies if Landing() != null then Landing().settlements else []
      ensures cities.Valid()
      ensures r.Ok? ==> destination == null && destinationInhabited == null && cargo == []
      ensures r.Ok? ==> old(destination).ships
                          == old(destination.ships) + (if founded + lifespan > year then [this] else [])
      ensures r.Err? ==> old(destination).ships == old(destination.ships)
      ensures old(Landing()) != null && r.Ok? ==> r.value == null
      ensures old(Landing()) == null && r.Ok? ==>
        r.value != null && fresh(r.value) && r.value.planet == old(destination) && old(destination).inhabited == r.value
    {
      var place := destination;
      r := Land(tree, cities, draws);
      if r.Err? {
        return;
      }
      if founded + lifespan > year {
        place.ships := place.ships + [this];
      }
      Reset();
    }

    /** The landing part of offload: the cargo joins the colony the ship lands
        at, or founds a new colony, which is returned. */
    method Land(tree: ScienceNode, cities: CityList, draws: Draws) returns (r: Result<InhabitedPlanet?>)
      requires destination != null
      requires cities.Valid() && draws.InRange() && AllValid(cargo)
      modifies this`destinationInhabited, destination`inhabited, cargo, cities
      modifies if Landing() != null then Landing().settlements else []
      ensures cities.Valid()
      ensures destinationInhabited == old(Landing())
      ensures old(Landing()) != null && r.Ok? ==> r.value == null
      ensures old(Landing()) == null && r.Ok? ==>
        r.value != null && fresh(r.value) && r.value.planet == old(destination) && old(destination).inhabited == r.value
    {
      destinationInhabited := Landing();
      if destinationInhabited != null {
        var fault, targets := OffloadToSettlement();
        if fault.Some? {
          return Err(fault.value);
        }
        r := Ok(null);
      } else {
        var settled, chosen, used := SettlePlanet(tree, cities, draws);
        if settled.Err? {
          return Err(settled.fault);
        }
        r := Ok(settled.value);
      }
    }
  }

  /** What offload_to_settlement leaves: each cargo pop went to the settlement
      targets names, which is where PlacedAt says, with the happiness Welcome
      gives, and each settlement gained exactly the pops sent to it. */
  ghost predicate Offloaded(cargo: seq<Population>, ss: seq<Settlement>, os: seq<Opinion>, targets: seq<Settlement>)
    reads cargo
  {
    && |targets| == |cargo|
    && (forall k :: 0 <= k < |cargo| ==> PlacedAt(ss, os, cargo[k], targets[k]))
    && (forall k :: 0 <= k < |cargo| ==> cargo[k].happiness == Welcome(os, cargo[k]))
  }

  /** Placing cargo[i] at target, with its welcome, extends what Offloaded
      says of the first i pops to the first i + 1. */
  lemma OffloadedSnoc(cargo: seq<Population>, i: nat, ss: seq<Settlement>, os: seq<Opinion>,
                      targets: seq<Settlement>, target: Settlement)
    requires |targets| == i < |cargo|
    requires forall k :: 0 <= k < i ==> PlacedAt(ss, os, cargo[k], targets[k])
    requires forall k :: 0 <= k <= i ==> cargo[k].happiness == Welcome(os, cargo[k])
    requires PlacedAt(ss, os, cargo[i], target)
    ensures Offloaded(cargo[..i + 1], ss, os, targets + [target])
  {
  }

  /** Sets every pop's happiness (for pop in cargo: pop.happiness = value). */
  method Cheer(pops: seq<Population>, value: real)
    requires 0.0 <= value <= 1.0 && AllValid(pops)
    modifies pops
    ensures AllValid(pops)
    ensures forall k :: 0 <= k < |pops| ==> pops[k].happiness == value
    ensures forall k :: 0 <= k < |pops| ==> pops[k].Snapshot() == old(pops[k].Snapshot())
  {
    for i := 0 to |pops|
      invariant AllValid(pops)
      invariant forall k :: 0 <= k < i ==> pops[k].happiness == value
      invariant forall k :: 0 <= k < |pops| ==> pops[k].Snapshot() == old(pops[k].Snapshot())
    {
      pops[i].SetHappiness(value);
    }
  }

  /** The (level × 10)³ science surplus the next level costs. */
  function Threshold(level: int): (t: int)
    ensures level == 0 ==> t == 0
    ensures t >= 0 <==> level >= 0
  {
    var x := level * 10;
    CubeSign(x);
    x * x * x
  }

  lemma CubeSign(x: int)
    ensures x == 0 ==> x * x * x == 0
    ensures x * x * x >= 0 <==> x >= 0
  {
    if x > 0 {
      assert x * x > 0;
    } else if x < 0 {
      assert x * x > 0;
    }
  }

  /** The options of the discoveries, discovery by discovery. */
  ghost function OptionsOf(ds: seq<ScienceNode>): seq<ScienceNode>
    reads ds
  {
    if ds == [] then []
    else
      var n := |ds| - 1;
      OptionsOf(ds[..n]) + ds[n].options
  }

  /** Each of cs not in ds, once, in order of first appearance. */
  function Unlockable(cs: seq<ScienceNode>, ds: seq<ScienceNode>): seq<ScienceNode>
  {
    if cs == [] then []
    else
      var n := |cs| - 1;
      var r := Unlockable(cs[..n], ds);
      if cs[n] in ds || cs[n] in r then r else r + [cs[n]]
  }

  /** The options science_upgrade chooses from. */
  ghost function Frontier(ds: seq<ScienceNode>): seq<ScienceNode>
    reads ds
  {
    Unlockable(OptionsOf(ds), ds)
  }

  /** The unlockable nodes are exactly the candidates not yet discovered,
      each listed once. */
  lemma {:induction false} UnlockableMembers(cs: seq<ScienceNode>, ds: seq<ScienceNode>)
    ensures forall x :: x in Unlockable(cs, ds) <==> x in cs && x !in ds
    ensures forall i, j :: 0 <= i < j < |Unlockable(cs, ds)| ==> Unlockable(cs, ds)[i] != Unlockable(cs, ds)[j]
  {
    if cs != [] {
      var n := |cs| - 1;
      UnlockableMembers(cs[..n], ds);
      assert cs == cs[..n] + [cs[n]];
    }
  }

  /** Some discovery among ds offers x. */
  ghost predicate Offered(x: ScienceNode, ds: seq<ScienceNode>)
    reads ds
  {
    exists i :: 0 <= i < |ds| && x in ds[i].options
  }

  lemma {:induction false} OptionsOfMembers(ds: seq<ScienceNode>, x: ScienceNode)
    ensures x in OptionsOf(ds) <==> Offered(x, ds)
  {
    if ds != [] {
      var n := |ds| - 1;
      var front := ds[..n];
      OptionsOfMembers(front, x);
      if x in OptionsOf(front) {
        var i :| 0 <= i < |front| && x in front[i].options;
        assert x in ds[i].options;
      } else if x in ds[n].options {
        assert Offered(x, ds);
      } else {
        assert forall i :: 0 <= i < n ==> ds[i] == front[i];
      }
    }
  }

  /** The frontier holds exactly the options of current discoveries that are
      not yet discovered, without repeats. */
  lemma FrontierMembers(ds: seq<ScienceNode>)
    ensures forall x :: x in Frontier(ds) <==> x !in ds && Offered(x, ds)
    ensures forall i, j :: 0 <= i < j < |Frontier(ds)| ==> Frontier(ds)[i] != Frontier(ds)[j]
  {
    forall x ensures x in OptionsOf(ds) <==> Offered(x, ds) {
      OptionsOfMembers(ds, x);
    }
    UnlockableMembers(OptionsOf(ds), ds);
  }

  class InhabitedPlanet {
    var settlements: seq<Settlement>
    var scienceLevel: int
    var scienceSurplus: int
    var manufacturingBase: int
    var manufacturingSurplus: int
    const foundingYear: int
    const planet: Planet
    const name: string
    var discoveries: seq<ScienceNode>
    var isEarth: bool
    var populationByYear: seq<int>

    /** A new colony on planet, which now records it; it knows only the root
        of the technology tree. */
    constructor (planet: Planet, name: string, foundingYear: int, tree: ScienceNode)
      modifies planet`inhabited
      ensures planet.inhabited == this
      ensures this.planet == planet && this.name == name && this.foundingYear == foundingYear
      ensures settlements == [] && scienceLevel == 0 && manufacturingBase == 1
      ensures discoveries == [tree] && scienceSurplus == 0 && manufacturingSurplus == 0
      ensures !isEarth && populationByYear == []
    {
      settlements := [];
      this.planet := planet;
      this.name := name;
      this.foundingYear := foundingYear;
      scienceLevel := 0;
      manufacturingBase := 1;
      discoveries := [tree];
      scienceSurplus := 0;
      manufacturingSurplus := 0;
      isEarth := false;
      populationByYear := [];
      new;
      planet.inhabited := this;
    }

    /** The population property: the settlements' populations summed. */
    function Population(): int
      reads this, settlements, Residents(settlements)
    {
      PopulationOf(settlements)
    }

    /** science_upgrade: below the (level × 10)³ threshold nothing happens;
        otherwise the threshold is paid, the level rises, and one node of the
        frontier is discovered. An empty frontier fails the random choice
        after the level has already risen. */
    method ScienceUpgrade() returns (fault: Option<Fault>)
      modifies this`scienceSurplus, this`scienceLevel, this`discoveries
      ensures var needed := Threshold(old(scienceLevel));
        if old(scienceSurplus) < needed then
          fault.None? && scienceSurplus == old(scienceSurplus) && scienceLevel == old(scienceLevel)
          && discoveries == old(discoveries)
        else
          && scienceSurplus == old(scienceSurplus) - needed && scienceLevel == old(scienceLevel) + 1
          && (old(Frontier(discoveries)) == [] ==> fault == Some(EmptyChoice) && discoveries == old(discoveries))
          && (old(Frontier(discoveries)) != [] ==>
                fault.None? && |discoveries| == |old(discoveries)| + 1
                && discoveries[..|old(discoveries)|] == old(discoveries)
                && discoveries[|old(discoveries)|] in old(Frontier(discoveries)))
    {
      var needed := Threshold(scienceLevel);
      if scienceSurplus < needed {
        return None;
      }
      scienceSurplus := scienceSurplus - needed;
      scienceLevel := scienceLevel + 1;
      var options := FindFrontier(discoveries);
      if options == [] {
        return Some(EmptyChoice);
      }
      assert options[0] in options;
      var choice :| choice in options;
      discoveries := discoveries + [choice];
      fault := None;
    }

    /** build_ships: ships of the best design are bought, each under a name
        drawn from the pool, until the capacity bought reaches what is needed
        or the next ship is unaffordable. Each purchase pays the price, docks
        the ship, and replaces its name in the pool by the name's successor. */
    method BuildShips(year: int, needed: int, pool: NamePool)
      returns (fault: Option<Fault>, ghost built: seq<Starship>, ghost taken: seq<string>)
      requires ChassisCarry(discoveries)
      modifies this`manufacturingSurplus, planet`ships, pool
      ensures planet.ships == old(planet.ships) + built && |taken| == |built|
      ensures var plan := Blueprint(Dedup(Provided(discoveries)));
        && (built != [] ==> plan.Ok? && manufacturingSurplus >= 0)
        && (built == [] ==> manufacturingSurplus == old(manufacturingSurplus))
        && (built != [] ==> manufacturingSurplus == old(manufacturingSurplus) - |built| * plan.value.cost)
        && (forall k :: 0 <= k < |built| ==>
              fresh(built[k]) && built[k].Built(plan.value, taken[k], year, scienceLevel, discoveries))
        && (fault.None? && needed > 0 ==>
              plan.Ok? && (|built| * plan.value.capacity >= needed || manufacturingSurplus < plan.value.cost))
      ensures fault.None? ==> |pool.names| == |old(pool.names)| && Renamed(old(pool.names), taken, pool.names)
    {
      ghost var plan := Blueprint(Dedup(Provided(discoveries)));
      if plan.Ok? {
        CarriesSomeone(discoveries);
      }
      var purchased := 0;
      ghost var spent := 0;
      built, taken := [], [];
      while purchased < needed
        invariant Books(old(planet.ships), old(manufacturingSurplus), planet.ships, manufacturingSurplus,
                        built, taken, purchased, spent, plan, year, scienceLevel, discoveries)
        invariant forall k :: 0 <= k < |built| ==> fresh(built[k])
        invariant |pool.names| == |old(pool.names)| && Renamed(old(pool.names), taken, pool.names)
        decreases needed - purchased
      {
        var bought;
        ghost var before := built;
        fault, bought, built, taken, purchased, spent :=
          Purchase(year, pool, plan, old(planet.ships), old(manufacturingSurplus), old(pool.names),
                   built, taken, purchased, spent);
        forall k | 0 <= k < |built|
          ensures fresh(built[k])
        {
          if k < |before| {
            assert built[k] == before[k];
            assert fresh(before[k]);
          } else {
            assert k == |before|;
            assert fresh(built[|before|]);
          }
        }
        if !bought {
          return;
        }
      }
      fault := None;
    }

    /** One pass of the purchasing loop of build_ships, with its books: a
        ship is bought when a name and a design are at hand and the ship is
        affordable; a pass that buys nothing, or whose name has no
        successor, ends the loop. */
    method Purchase(year: int, pool: NamePool, ghost plan: Result<Design>,
                    ghost ships0: seq<Starship>, ghost surplus0: int, ghost names0: seq<string>,
                    ghost built: seq<Starship>, ghost taken: seq<string>, purchased: int, ghost spent: int)
      returns (fault: Option<Fault>, bought: bool, ghost built': seq<Starship>, ghost taken': seq<string>,
               purchased': int, ghost spent': int)
      requires plan == Blueprint(Dedup(Provided(discoveries))) && (plan.Ok? ==> plan.value.capacity >= 1)
      requires Books(ships0, surplus0, planet.ships, manufacturingSurplus, built, taken, purchased, spent,
                     plan, year, scienceLevel, discoveries)
      requires Renamed(names0, taken, pool.names)
      modifies this`manufacturingSurplus, planet`ships, pool
      ensures Books(ships0, surplus0, planet.ships, manufacturingSurplus, built', taken', purchased', spent',
                    plan, year, scienceLevel, discoveries)
      ensures |built| <= |built'| <= |built| + 1 && forall k :: 0 <= k < |built| ==> built'[k] == built[k]
      ensures |built'| > |built| ==> fresh(built'[|built|])
      ensures bought ==> fault.None? && purchased' > purchased
      ensures !bought ==> fault.Some? || (plan.Ok? && manufacturingSurplus < plan.value.cost)
      ensures fault.None? ==> |pool.names| == |old(pool.names)| && Renamed(names0, taken', pool.names)
    {
      built', taken', purchased', spent' := built, taken, purchased, spent;
      ghost var names := pool.names;
      var ship;
      ghost var shipName;
      fault, ship, shipName := BuyShip(year, pool, plan);
      if ship == null {
        return fault, false, built', taken', purchased', spent';
      }
      BooksStep(ships0, surplus0, old(planet.ships), old(manufacturingSurplus), built, taken, purchased, spent,
                plan, year, scienceLevel, discoveries, ship, shipName);
      built', taken' := built + [ship], taken + [shipName];
      purchased', spent' := purchased + ship.capacity, spent + plan.value.cost;
      if fault.Some? {
        return fault, false, built', taken', purchased', spent';
      }
      RenamedStep(names0, taken, names, shipName, pool.names);
      bought := true;
    }


    /** One pass of the purchasing loop of build_ships: a name is drawn from
        the pool and a ship of the best design is quoted; when the quote is
        affordable the ship is paid for and docked, and its name replaced in
        the pool by the name's successor. No name to draw or no design fails
        with nothing changed; an unaffordable quote stops with nothing
        changed; a successor that does not parse fails after the purchase. */
    method BuyShip(year: int, pool: NamePool, ghost plan: Result<Design>)
      returns (fault: Option<Fault>, ship: Starship?, ghost shipName: string)
      requires plan == Blueprint(Dedup(Provided(discoveries)))
      modifies this`manufacturingSurplus, planet`ships, pool
      ensures
        && (old(pool.names) == [] ==> fault == Some(EmptyChoice))
        && (old(pool.names) != [] && plan.Err? ==> fault == Some(MaxOfEmpty))
        && (ship == null ==> fault.Some? || (plan.Ok? && manufacturingSurplus < plan.value.cost))
        && (old(pool.names) != [] && plan.Ok? && old(manufacturingSurplus) >= plan.value.cost <==> ship != null)
      ensures ship == null ==>
        && manufacturingSurplus == old(manufacturingSurplus) && planet.ships == old(planet.ships)
        && pool.names == old(pool.names)
      ensures ship != null ==>
        && plan.Ok? && fresh(ship) && ship.Built(plan.value, shipName, year, scienceLevel, discoveries)
        && manufacturingSurplus == old(manufacturingSurplus) - plan.value.cost
        && planet.ships == old(planet.ships) + [ship]
        && shipName in old(pool.names)
        && (fault.None? <==> NextName(shipName).Ok?)
        && (fault.None? ==> pool.names == RemoveFirst(old(pool.names), shipName) + [NextName(shipName).value])
    {
      ship, shipName := null, "";
      if pool.names == [] {
        return Some(EmptyChoice), ship, shipName;
      }
      assert pool.names[0] in pool.names;
      var name :| name in pool.names;
      shipName := name;
      var made := Starship.Construct(scienceLevel, discoveries, name, year);
      if made.Err? {
        return Some(made.fault), ship, shipName;
      }
      var (built, cost) := made.value;
      if manufacturingSurplus < cost {
        return None, ship, shipName;
      }
      ship := built;
      manufacturingSurplus := manufacturingSurplus - cost;
      planet.ships := planet.ships + [ship];
      fault := pool.Recycle(name);
    }
  }

  /** What the purchasing loop of build_ships has done so far: the ships
      bought are docked after the ones there before, each of the design and
      under the name drawn for it, and the surplus has paid for them. */
  ghost predicate Books(ships0: seq<Starship>, surplus0: int, ships: seq<Starship>, surplus: int,
                        built: seq<Starship>, taken: seq<string>, purchased: int, spent: int,
                        plan: Result<Design>, year: int, scienceLevel: int, discoveries: seq<ScienceNode>)
    reads built
  {
    && ships == ships0 + built && |taken| == |built|
    && surplus == surplus0 - spent
    && (built == [] ==> purchased == 0 && spent == 0)
    && (built != [] ==> plan.Ok? && surplus >= 0 && Ledger(|built|, purchased, spent, plan.value))
    && (plan.Ok? ==> Fleet(built, taken, plan.value, year, scienceLevel, discoveries))
  }

  lemma BooksStep(ships0: seq<Starship>, surplus0: int, ships: seq<Starship>, surplus: int,
                  built: seq<Starship>, taken: seq<string>, purchased: int, spent: int,
                  plan: Result<Design>, year: int, scienceLevel: int, discoveries: seq<ScienceNode>,
                  ship: Starship, name: string)
    requires Books(ships0, surplus0, ships, surplus, built, taken, purchased, spent, plan, year, scienceLevel, discoveries)
    requires plan.Ok? && plan.value.capacity >= 1 && surplus >= plan.value.cost
    requires ship.Built(plan.value, name, year, scienceLevel, discoveries)
    ensures Books(ships0, surplus0, ships + [ship], surplus - plan.value.cost, built + [ship], taken + [name],
                  purchased + plan.value.capacity, spent + plan.value.cost, plan, year, scienceLevel, discoveries)
  {
    LedgerStep(|built|, purchased, spent, plan.value);
    FleetStep(built, taken, ship, name, plan.value, year, scienceLevel, discoveries);
  }

  /** The ships bought so far each carry the design, the name drawn for
      them, the year and the science of the planet that built them. */
  ghost predicate Fleet(built: seq<Starship>, taken: seq<string>, plan: Design, year: int,
                        scienceLevel: int, discoveries: seq<ScienceNode>)
    reads built
  {
    |taken| == |built| &&
    forall k :: 0 <= k < |built| ==> built[k].Built(plan, taken[k], year, scienceLevel, discoveries)
  }

  lemma FleetStep(built: seq<Starship>, taken: seq<string>, ship: Starship, name: string, plan: Design, year: int,
                  scienceLevel: int, discoveries: seq<ScienceNode>)
    requires Fleet(built, taken, plan, year, scienceLevel, discoveries)
    requires ship.Built(plan, name, year, scienceLevel, discoveries)
    ensures Fleet(built + [ship], taken + [name], plan, year, scienceLevel, discoveries)
  {
  }

  /** The ledger of the purchasing loop: n ships of the design bought carry
      n times its capacity and cost n times its price. */
  ghost predicate Ledger(n: nat, purchased: int, spent: int, plan: Design)
  {
    purchased == n * plan.capacity && spent == n * plan.cost && (n > 0 ==> plan.capacity >= 1)
  }

  lemma LedgerStep(n: nat, purchased: int, spent: int, plan: Design)
    requires n == 0 ==> purchased == 0 && spent == 0
    requires n > 0 ==> Ledger(n, purchased, spent, plan)
    requires plan.capacity >= 1
    ensures Ledger(n + 1, purchased + plan.capacity, spent + plan.cost, plan)
  {
    assert (n + 1) * plan.capacity == n * plan.capacity + plan.capacity;
    assert (n + 1) * plan.cost == n * plan.cost + plan.cost;
  }

  /** Every chassis the discoveries provide carries at least one pop, which
      is what makes the purchasing loop of build_ships terminate. */
  ghost predicate ChassisCarry(discoveries: seq<ScienceNode>)
  {
    forall t :: t in Provided(discoveries) && t.SuperheavySpacecraft? ==> t.capacity >= 1
  }

  lemma CarriesSomeone(discoveries: seq<ScienceNode>)
    requires ChassisCarry(discoveries)
    requires Blueprint(Dedup(Provided(discoveries))).Ok?
    ensures Blueprint(Dedup(Provided(discoveries))).value.capacity >= 1
  {
    BlueprintChassis(Dedup(Provided(discoveries)));
  }

  /** The pool after the names taken were each replaced by their successor:
      nothing was lost but the taken names and nothing gained but their
      successors. */
  ghost predicate Renamed(before: seq<string>, taken: seq<string>, after: seq<string>)
  {
    && (forall k :: 0 <= k < |taken| ==> NextName(taken[k]).Ok?)
    && multiset(after) + multiset(taken) == multiset(before) + multiset(Successors(taken))
  }

  ghost function Successors(names: seq<string>): seq<string>
    requires forall k :: 0 <= k < |names| ==> NextName(names[k]).Ok?
  {
    if names == [] then []
    else
      var n := |names| - 1;
      Successors(names[..n]) + [NextName(names[n]).value]
  }

  lemma RenamedStep(start: seq<string>, taken: seq<string>, before: seq<string>, name: string, after: seq<string>)
    requires Renamed(start, taken, before)
    requires name in before && NextName(name).Ok?
    requires after == RemoveFirst(before, name) + [NextName(name).value]
    ensures Renamed(start, taken + [name], after)
  {
    var next := NextName(name).value;
    var ts := taken + [name];
    assert ts[..|taken|] == taken;
    assert Successors(ts) == Successors(taken) + [next];
    Exchange(start, taken, Successors(taken), before, name, next, after);
  }

  /** One exchange of x for y keeps the multiset balance of a pool. */
  lemma Exchange<T>(start: seq<T>, out: seq<T>, in_: seq<T>, before: seq<T>, x: T, y: T, after: seq<T>)
    requires multiset(before) + multiset(out) == multiset(start) + multiset(in_)
    requires x in before && after == RemoveFirst(before, x) + [y]
    ensures multiset(after) + multiset(out + [x]) == multiset(start) + multiset(in_ + [y])
  {
    var rest := RemoveFirst(before, x);
    assert x in multiset(before);
    assert multiset(rest) + multiset{x} == multiset(before);
    assert multiset(after) == multiset(rest) + multiset{y};
    assert multiset(out + [x]) == multiset(out) + multiset{x};
    assert multiset(in_ + [y]) == multiset(in_) + multiset{y};
    calc {
      multiset(after) + multiset(out + [x]);
      (multiset(rest) + multiset{y}) + (multiset(out) + multiset{x});
      (multiset(rest) + multiset{x}) + multiset(out) + multiset{y};
      multiset(before) + multiset(out) + multiset{y};
      multiset(start) + multiset(in_) + multiset{y};
      multiset(start) + multiset(in_ + [y]);
    }
  }

  /** The frontier search of science_upgrade: for each discovery, each of
      its options not yet discovered nor already listed is appended. */
  method FindFrontier(ds: seq<ScienceNode>) returns (options: seq<ScienceNode>)
    ensures options == Frontier(ds)
  {
    options := [];
    for i := 0 to |ds|
      invariant options == Unlockable(OptionsOf(ds[..i]), ds)
    {
      assert ds[..i + 1][..i] == ds[..i];
      options := Unlock(options, OptionsOf(ds[..i]), ds[i].options, ds);
    }
    assert ds[..|ds|] == ds;
  }

  /** The inner loop of the frontier search, over one discovery's options. */
  method Unlock(options: seq<ScienceNode>, ghost seen: seq<ScienceNode>, more: seq<ScienceNode>, ds: seq<ScienceNode>)
    returns (r: seq<ScienceNode>)
    requires options == Unlockable(seen, ds)
    ensures r == Unlockable(seen + more, ds)
  {
    r := options;
    assert seen + more[..0] == seen;
    for j := 0 to |more|
      invariant r == Unlockable(seen + more[..j], ds)
    {
      SnocSlice(seen, more, j);
      assert (seen + more[..j] + [more[j]])[..|seen + more[..j]|] == seen + more[..j];
      if more[j] !in ds && more[j] !in r {
        r := r + [more[j]];
      }
    }
    assert more[..|more|] == more;
  }

  /** The pops of the settlements. */
  ghost function Residents(ss: seq<Settlement>): set<Population>
    reads ss
  {
    if ss == [] then {} else (set p | p in ss[0].pops) + Residents(ss[1..])
  }

  /** The summed population of the settlements. */
  function PopulationOf(ss: seq<Settlement>): int
    reads ss, Residents(ss)
  {
    if ss == [] then 0 else ss[0].Population() + PopulationOf(ss[1..])
  }

  /** A new settlement adds its population to the planet's. */
  lemma {:induction false} PopulationAppend(ss: seq<Settlement>, s: Settlement)
    ensures PopulationOf(ss + [s]) == PopulationOf(ss) + s.Population()
  {
    if ss == [] {
      assert [s][1..] == [];
    } else {
      assert (ss + [s])[1..] == ss[1..] + [s];
      PopulationAppend(ss[1..], s);
    }
  }
}
