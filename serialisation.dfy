/** The starmap written out for the viewer: one record per star system with
    its planets (named, with their native life and their colony), and one
    trade route per pair of planets ships travelled between, with the share
    of each year's transits that used it. The records are values built from
    what the serialiser reads of the simulation's objects; producing JSON
    from them is outside the model. */
module Serialisation {
  import opened Numeric

  /** A UUID; only compared for equality. */
  type Uuid = int

  datatype Rgb = Rgb(r: real, g: real, b: real)

  /** The star's record; the spectral subtype is the float the star parsed
      from the catalogue's text. */
  datatype StarRecord = StarRecord(spectralType: string, spectralSubtype: real, luminosity: real,
                                   colour: Rgb, mass: real, radius: real)

  datatype NativeLife = NativeLife(kind: string, level: nat)

  datatype GovernmentRecord = GovernmentRecord(kind: string, philosophy: string, support: real)

  /** A country (one settlement of a colony), as the serialiser reads it. */
  datatype Country = Country(uuid: Uuid, founded: int, name: string, populationByYear: seq<int>,
                             ancestries: seq<seq<string>>, government: GovernmentRecord)

  datatype SettlementRecord = SettlementRecord(founded: int, populationByYear: seq<int>, countries: seq<Country>)

  datatype PlanetRecord = PlanetRecord(
    uuid: Uuid, mass: real, name: string, settlement: Option<SettlementRecord>,
    orbitalRadius: real, yearLengthHours: real, dayLengthHours: real, solid: bool,
    surfaceWater: Option<real>, moons: nat, greenhouseFactor: int, surfaceTemperature: int,
    nativeLife: Option<NativeLife>)

  datatype SystemRecord = SystemRecord(name: string, uuid: Uuid, position: (real, real, real),
                                       star: StarRecord, planets: seq<PlanetRecord>)

  datatype TradeRoute = TradeRoute(start: Uuid, end: Uuid, frequencyByYear: seq<real>)

  datatype Starmap = Starmap(systems: seq<SystemRecord>, tradeRoutes: seq<TradeRoute>)

  /** What the serialiser reads of an inhabited planet. */
  datatype Colony = Colony(name: string, foundingYear: int, populationByYear: seq<int>, countries: seq<Country>)

  /** What the serialiser reads of a planet; a life level of 0 is "none". */
  datatype PlanetState = PlanetState(
    uuid: Uuid, mass: real, starName: string, inhabited: Option<Colony>,
    orbitalRadius: real, orbitalPeriod: real, dayLengthHours: real, solid: bool,
    surfaceWater: Option<real>, moons: nat, greenhouseFactor: int, surfaceTemperature: int,
    lifeLevel: nat, nativeLife: Option<string>)

  /** What the serialiser reads of a star. */
  datatype StarState = StarState(name: string, uuid: Uuid, position: (real, real, real),
                                 spectralType: string, spectralSubtype: real, luminosity: real,
                                 colour: Rgb, mass: real, radius: real, planets: seq<PlanetState>)

  // ---------------------------------------------------------------------------
  // Planets and systems.

  /** The letters that name a star's planets, in orbital order. */
  const PLANET_LETTERS := "bcdefghijklmnopqrstuvwxyz"

  /** No two planets share a letter. */
  lemma PlanetLettersDistinct()
    ensures |PLANET_LETTERS| == 25
    ensures forall i, j :: 0 <= i < j < 25 ==> PLANET_LETTERS[i] != PLANET_LETTERS[j]
  {
  }

  /** An uninhabited planet's name: its star's name, a dash and its letter. */
  function PlanetName(p: PlanetState, index: nat): (r: Result<string>)
  {
    if p.inhabited.Some? then Ok(p.inhabited.value.name)
    else if index < |PLANET_LETTERS| then Ok(p.starName + "-" + [PLANET_LETTERS[index]])
    else Err(IndexOutOfRange)
  }

  /** Planet.serialise: a colony's planet is named after the colony, any
      other one after its star and its place in orbit, which fails past the
      25th planet; native life is recorded exactly when the life level is
      not "none" (and reading it fails when the planet has none recorded);
      the settlement is recorded exactly when the planet is inhabited, with
      its countries in order. */
  function SerialisePlanet(p: PlanetState, index: nat): (r: Result<PlanetRecord>)
    ensures r.Err? <==> (p.inhabited.None? && index >= 25) || (p.lifeLevel != 0 && p.nativeLife.None?)
    ensures r.Err? && p.inhabited.None? && index >= 25 ==> r.fault == IndexOutOfRange
    ensures r.Ok? ==>
      && r.value.uuid == p.uuid
      && (p.inhabited.Some? ==> r.value.name == p.inhabited.value.name)
      && (p.inhabited.None? ==> r.value.name == p.starName + "-" + [PLANET_LETTERS[index]])
      && (r.value.nativeLife.Some? <==> p.lifeLevel != 0)
      && (r.value.nativeLife.Some? ==> r.value.nativeLife.value == NativeLife(p.nativeLife.value, p.lifeLevel))
      && (r.value.settlement.Some? <==> p.inhabited.Some?)
      && (r.value.settlement.Some? ==>
            var c := p.inhabited.value;
            r.value.settlement.value == SettlementRecord(c.foundingYear, c.populationByYear, c.countries))
  {
    var name := PlanetName(p, index);
    if name.Err? then Err(name.fault)
    else if p.lifeLevel != 0 && p.nativeLife.None? then Err(NoneOperand)
    else
      var life := if p.lifeLevel != 0 then Some(NativeLife(p.nativeLife.value, p.lifeLevel)) else None;
      var settlement :=
        if p.inhabited.Some? then
          var c := p.inhabited.value;
          Some(SettlementRecord(c.foundingYear, c.populationByYear, c.countries))
        else None;
      Ok(PlanetRecord(p.uuid, p.mass, name.value, settlement, p.orbitalRadius, p.orbitalPeriod,
                      p.dayLengthHours, p.solid, p.surfaceWater, p.moons, p.greenhouseFactor,
                      p.surfaceTemperature, life))
  }

  /** Two uninhabited planets of one star at different places in orbit get
      different names. */
  lemma PlanetNamesDistinct(p: PlanetState, i: nat, q: PlanetState, j: nat)
    requires p.inhabited.None? && q.inhabited.None? && p.starName == q.starName && i != j
    requires PlanetName(p, i).Ok? && PlanetName(q, j).Ok?
    ensures PlanetName(p, i).value != PlanetName(q, j).value
  {
    var a := PlanetName(p, i).value;
    var b := PlanetName(q, j).value;
    assert a[|a| - 1] == PLANET_LETTERS[i];
    assert b[|b| - 1] == PLANET_LETTERS[j];
    PlanetLettersDistinct();
  }

  /** The planets of one system, numbered from `from`; the first failure
      aborts. */
  function SerialisePlanets(ps: seq<PlanetState>, from: nat): Result<seq<PlanetRecord>>
    decreases |ps|
  {
    if ps == [] then Ok([])
    else
      var first := SerialisePlanet(ps[0], from);
      var rest := SerialisePlanets(ps[1..], from + 1);
      if first.Err? then Err(first.fault)
      else if rest.Err? then rest
      else Ok([first.value] + rest.value)
  }

  /** The system's planets are serialised one by one, each with its own
      place in orbit, and the list fails exactly when one of them does. */
  lemma SerialisePlanetsEach(ps: seq<PlanetState>, from: nat)
    ensures var r := SerialisePlanets(ps, from);
      && (r.Ok? <==> forall i :: 0 <= i < |ps| ==> SerialisePlanet(ps[i], from + i).Ok?)
      && (r.Ok? ==> |r.value| == |ps| && forall i :: 0 <= i < |ps| ==> r.value[i] == SerialisePlanet(ps[i], from + i).value)
  {
    SerialisePlanetsFail(ps, from);
    SerialisePlanetsValues(ps, from);
  }

  /** The list fails exactly when one of the planets does. */
  lemma {:induction false} SerialisePlanetsFail(ps: seq<PlanetState>, from: nat)
    ensures SerialisePlanets(ps, from).Ok? <==> forall i :: 0 <= i < |ps| ==> SerialisePlanet(ps[i], from + i).Ok?
    decreases |ps|
  {
    if ps != [] {
      SerialisePlanetsFail(ps[1..], from + 1);
      assert forall i :: 1 <= i < |ps| ==> ps[i] == ps[1..][i - 1];
    }
  }

  /** A list that does not fail holds each planet's record at its place. */
  lemma {:induction false} SerialisePlanetsValues(ps: seq<PlanetState>, from: nat)
    ensures var r := SerialisePlanets(ps, from);
      r.Ok? ==> |r.value| == |ps| && forall i :: 0 <= i < |ps| ==> SerialisePlanet(ps[i], from + i) == Ok(r.value[i])
    decreases |ps|
  {
    var r := SerialisePlanets(ps, from);
    if ps != [] && r.Ok? {
      var rest := SerialisePlanets(ps[1..], from + 1);
      SerialisePlanetsValues(ps[1..], from + 1);
      assert r.value == [SerialisePlanet(ps[0], from).value] + rest.value;
      forall i | 1 <= i < |ps|
        ensures SerialisePlanet(ps[i], from + i) == Ok(r.value[i])
      {
        assert ps[i] == ps[1..][i - 1] && r.value[i] == rest.value[i - 1];
      }
    }
  }

  /** System.serialise. */
  function SerialiseSystem(s: StarState): Result<SystemRecord>
  {
    var planets := SerialisePlanets(s.planets, 0);
    if planets.Err? then Err(planets.fault)
    else
      Ok(SystemRecord(s.name, s.uuid, s.position,
                      StarRecord(s.spectralType, s.spectralSubtype, s.luminosity, s.colour, s.mass, s.radius),
                      planets.value))
  }

  /** A system records every planet of its star in order, the i-th named as
      the i-th planet. */
  lemma SerialiseSystemPlanets(s: StarState)
    ensures var r := SerialiseSystem(s);
      && (r.Ok? <==> forall i :: 0 <= i < |s.planets| ==> SerialisePlanet(s.planets[i], i).Ok?)
      && (r.Ok? ==>
            && r.value.name == s.name && |r.value.planets| == |s.planets|
            && forall i :: 0 <= i < |s.planets| ==> r.value.planets[i] == SerialisePlanet(s.planets[i], i).value)
  {
    SerialisePlanetsEach(s.planets, 0);
  }

  /** The systems of the starmap, in order; the first failure aborts. */
  function SerialiseSystems(stars: seq<StarState>): Result<seq<SystemRecord>>
    decreases |stars|
  {
    if stars == [] then Ok([])
    else
      var first := SerialiseSystem(stars[0]);
      var rest := SerialiseSystems(stars[1..]);
      if first.Err? then Err(first.fault)
      else if rest.Err? then rest
      else Ok([first.value] + rest.value)
  }

  lemma {:induction false} SerialiseSystemsEach(stars: seq<StarState>)
    ensures var r := SerialiseSystems(stars);
      && (r.Ok? <==> forall i :: 0 <= i < |stars| ==> SerialiseSystem(stars[i]).Ok?)
      && (r.Ok? ==> |r.value| == |stars| && forall i :: 0 <= i < |stars| ==> r.value[i] == SerialiseSystem(stars[i]).value)
    decreases |stars|
  {
    if stars != [] {
      SerialiseSystemsEach(stars[1..]);
      assert forall i :: 1 <= i < |stars| ==> stars[i] == stars[1..][i - 1];
    }
  }

  // ---------------------------------------------------------------------------
  // Trade routes.

  /** A route: the UUIDs of the planets a transit left and reached. */
  type Route = (Uuid, Uuid)

  /** Every transit, year after year. */
  function Flatten(transits: seq<seq<Route>>): seq<Route>
    decreases |transits|
  {
    if transits == [] then [] else Flatten(transits[..|transits| - 1]) + transits[|transits| - 1]
  }

  lemma {:induction false} FlattenMembers(transits: seq<seq<Route>>, r: Route)
    ensures r in Flatten(transits) <==> exists y :: 0 <= y < |transits| && r in transits[y]
    decreases |transits|
  {
    if transits != [] {
      var n := |transits| - 1;
      FlattenMembers(transits[..n], r);
      assert forall y :: 0 <= y < n ==> transits[..n][y] == transits[y];
    }
  }

  /** The routes, in the order their first transit happened (the order of a
      dict's keys). */
  function Routes(transits: seq<seq<Route>>): seq<Route>
  {
    Dedup(Flatten(transits))
  }

  /** The share of year n's transits that used the route. */
  function Frequency(transits: seq<seq<Route>>, route: Route, n: nat): real
    requires n < |transits| && transits[n] != []
  {
    Count(transits[n], route) as real / |transits[n]| as real
  }

  /** Some year saw no transit at all. */
  predicate QuietYear(transits: seq<seq<Route>>)
  {
    exists n :: 0 <= n < |transits| && transits[n] == []
  }

  /** TradeRoute.serialise, as a value: one route per pair of planets some
      transit joined, in first-transit order, with its share of every
      year's transits. A year without transits divides by zero as soon as
      there is any route. */
  function TradeRoutesOf(transits: seq<seq<Route>>): (r: Result<seq<TradeRoute>>)
    ensures r.Ok? ==> forall i :: 0 <= i < |r.value| ==> |r.value[i].frequencyByYear| == |transits|
  {
    var routes := Routes(transits);
    if routes == [] then Ok([])
    else if QuietYear(transits) then Err(DivisionByZero)
    else Ok(seq(|routes|, i requires 0 <= i < |routes| => RouteRecord(transits, routes[i])))
  }

  /** One route with its share of every year's transits. */
  function RouteRecord(transits: seq<seq<Route>>, route: Route): TradeRoute
    requires !QuietYear(transits)
  {
    TradeRoute(route.0, route.1, seq(|transits|, n requires 0 <= n < |transits| => Frequency(transits, route, n)))
  }

  /** How many times each route was taken in year y, after the transits of
      the earlier years and the first k of year `year`. */
  function SoFar(transits: seq<seq<Route>>, year: nat, k: nat, route: Route, y: nat): nat
    requires year < |transits| ==> k <= |transits[year]|
  {
    if y < year && y < |transits| then Count(transits[y], route)
    else if y == year && year < |transits| then Count(transits[year][..k], route)
    else 0
  }

  /** The value of a defaultdict(int) at a key. */
  function Get(m: map<nat, nat>, y: nat): nat
  {
    if y in m then m[y] else 0
  }

  /** The routes and per-year counts after the transits of the years before
      `year` and the first k of year `year`: the routes in first-transit
      order, and each route's count in every year. */
  ghost predicate Tallied(transits: seq<seq<Route>>, year: nat, k: nat, order: seq<Route>, byRoute: map<Route, map<nat, nat>>)
    requires year <= |transits|
    requires year < |transits| ==> k <= |transits[year]|
  {
    && order == Dedup(Flatten(transits[..year]) + (if year < |transits| then transits[year][..k] else []))
    && (forall r :: r in byRoute <==> r in order)
    && (forall r, y :: r in byRoute ==> Get(byRoute[r], y) == SoFar(transits, year, k, r, y))
  }

  /** The first-transit order once the route has been taken. */
  function AddRoute(order: seq<Route>, route: Route): seq<Route>
  {
    if route in order then order else order + [route]
  }

  /** by_route[route][year] += 1 on a dictionary of defaultdicts. */
  function Bump(byRoute: map<Route, map<nat, nat>>, route: Route, year: nat): map<Route, map<nat, nat>>
  {
    var years := if route in byRoute then byRoute[route] else map[];
    byRoute[route := years[year := Get(years, year) + 1]]
  }

  /** Counting the k-th transit of a year adds one to that route in that
      year and changes no other count. */
  lemma SoFarStep(transits: seq<seq<Route>>, year: nat, k: nat, r: Route, y: nat)
    requires year < |transits| && k < |transits[year]|
    ensures SoFar(transits, year, k + 1, r, y)
         == SoFar(transits, year, k, r, y) + (if r == transits[year][k] && y == year then 1 else 0)
  {
    assert transits[year][..k + 1][..k] == transits[year][..k];
  }

  /** A route not taken so far has no count in any year. */
  lemma AbsentSoFar(transits: seq<seq<Route>>, year: nat, k: nat, route: Route, y: nat)
    requires year < |transits| && k <= |transits[year]|
    requires route !in Flatten(transits[..year]) + transits[year][..k]
    ensures SoFar(transits, year, k, route, y) == 0
  {
    if y < year {
      FlattenMembers(transits[..year], route);
      assert transits[..year][y] == transits[y];
      CountAbsent(transits[y], route);
    } else if y == year {
      CountAbsent(transits[year][..k], route);
    }
  }

  /** The first-transit order after the k-th transit of a year. */
  lemma OrderStep(transits: seq<seq<Route>>, year: nat, k: nat)
    requires year < |transits| && k < |transits[year]|
    ensures var seen := Flatten(transits[..year]);
      AddRoute(Dedup(seen + transits[year][..k]), transits[year][k]) == Dedup(seen + transits[year][..k + 1])
  {
    var seen := Flatten(transits[..year]);
    SnocSlice(seen, transits[year], k);
    DedupSnoc(seen + transits[year][..k], transits[year][k]);
  }

  /** Counting the k-th transit of a year. */
  lemma TallyStep(transits: seq<seq<Route>>, year: nat, k: nat, order: seq<Route>, byRoute: map<Route, map<nat, nat>>)
    requires year < |transits| && k < |transits[year]|
    requires Tallied(transits, year, k, order, byRoute)
    ensures Tallied(transits, year, k + 1, AddRoute(order, transits[year][k]), Bump(byRoute, transits[year][k], year))
  {
    var route := transits[year][k];
    OrderStep(transits, year, k);
    var after := Bump(byRoute, route, year);
    assert forall r :: r in after <==> r in AddRoute(order, route);
    TallyCounts(transits, year, k, order, byRoute);
  }

  /** Counting the k-th transit of a year, count by count. */
  lemma TallyCounts(transits: seq<seq<Route>>, year: nat, k: nat, order: seq<Route>, byRoute: map<Route, map<nat, nat>>)
    requires year < |transits| && k < |transits[year]|
    requires Tallied(transits, year, k, order, byRoute)
    ensures var after := Bump(byRoute, transits[year][k], year);
      forall r, y :: r in after ==> Get(after[r], y) == SoFar(transits, year, k + 1, r, y)
  {
    var route := transits[year][k];
    var after := Bump(byRoute, route, year);
    forall r, y | r in after
      ensures Get(after[r], y) == SoFar(transits, year, k + 1, r, y)
    {
      GetBump(byRoute, route, year, r, y);
      SoFarStep(transits, year, k, r, y);
      if r !in byRoute {
        AbsentSoFar(transits, year, k, route, y);
      }
    }
  }

  /** What a bump does to one count. */
  lemma GetBump(byRoute: map<Route, map<nat, nat>>, route: Route, year: nat, r: Route, y: nat)
    requires r in Bump(byRoute, route, year)
    ensures r !in byRoute ==> r == route
    ensures Get(Bump(byRoute, route, year)[r], y)
         == (if r in byRoute then Get(byRoute[r], y) else 0) + (if r == route && y == year then 1 else 0)
  {
  }

  lemma {:induction false} CountAbsent(xs: seq<Route>, x: Route)
    requires x !in xs
    ensures Count(xs, x) == 0
    decreases |xs|
  {
    if xs != [] {
      CountAbsent(xs[..|xs| - 1], x);
    }
  }

  /** A year counted to its end is the start of the next. */
  lemma TallyNextYear(transits: seq<seq<Route>>, year: nat, order: seq<Route>, byRoute: map<Route, map<nat, nat>>)
    requires year < |transits|
    requires Tallied(transits, year, |transits[year]|, order, byRoute)
    ensures Tallied(transits, year + 1, 0, order, byRoute)
  {
    assert transits[..year + 1] == transits[..year] + [transits[year]];
    assert transits[year][..|transits[year]|] == transits[year];
    assert Flatten(transits[..year + 1]) == Flatten(transits[..year]) + transits[year];
    if year + 1 < |transits| {
      assert transits[year + 1][..0] == [];
      assert Flatten(transits[..year + 1]) + transits[year + 1][..0] == Flatten(transits[..year + 1]);
    } else {
      assert Flatten(transits[..year + 1]) + [] == Flatten(transits[..year + 1]);
    }
  }

  /** The counting loop: the number of transits of every year and of every
      route in every year. */
  method CountTransits(transits: seq<seq<Route>>)
    returns (perYear: seq<nat>, order: seq<Route>, byRoute: map<Route, map<nat, nat>>)
    ensures |perYear| == |transits| && forall y :: 0 <= y < |transits| ==> perYear[y] == |transits[y]|
    ensures Tallied(transits, |transits|, 0, order, byRoute)
  {
    perYear, order, byRoute := [], [], map[];
    TallyStart(transits);
    for year := 0 to |transits|
      invariant |perYear| == year && forall y :: 0 <= y < year ==> perYear[y] == |transits[y]|
      invariant Tallied(transits, year, 0, order, byRoute)
    {
      perYear := perYear + [|transits[year]|];
      order, byRoute := TallyYear(transits, year, order, byRoute);
    }
  }

  /** Nothing is counted before the first year. */
  lemma TallyStart(transits: seq<seq<Route>>)
    ensures Tallied(transits, 0, 0, [], map[])
  {
    assert transits[..0] == [];
    if transits != [] {
      assert transits[0][..0] == [];
    }
  }

  /** The inner counting loop: every transit of one year. */
  method TallyYear(transits: seq<seq<Route>>, year: nat, order: seq<Route>, byRoute: map<Route, map<nat, nat>>)
    returns (order': seq<Route>, byRoute': map<Route, map<nat, nat>>)
    requires year < |transits| && Tallied(transits, year, 0, order, byRoute)
    ensures Tallied(transits, year + 1, 0, order', byRoute')
  {
    order', byRoute' := order, byRoute;
    for k := 0 to |transits[year]|
      invariant Tallied(transits, year, k, order', byRoute')
    {
      var route := transits[year][k];
      TallyStep(transits, year, k, order', byRoute');
      byRoute' := Bump(byRoute', route, year);
      order' := AddRoute(order', route);
    }
    TallyNextYear(transits, year, order', byRoute');
  }

  /** One route's frequencies, year by year. */
  method RouteFrequencies(transits: seq<seq<Route>>, perYear: seq<nat>, route: Route, years: map<nat, nat>)
    returns (r: Result<seq<real>>)
    requires |perYear| == |transits|
    requires forall y :: 0 <= y < |transits| ==> perYear[y] == |transits[y]|
    requires forall y :: 0 <= y < |transits| ==> Get(years, y) == Count(transits[y], route)
    ensures r.Err? <==> QuietYear(transits)
    ensures r.Err? ==> r.fault == DivisionByZero
    ensures r.Ok? ==> r.value == seq(|transits|, n requires 0 <= n < |transits| => Frequency(transits, route, n))
  {
    var frequencies: seq<real> := [];
    for n := 0 to |transits|
      invariant forall m :: 0 <= m < n ==> transits[m] != []
      invariant frequencies == seq(n, m requires 0 <= m < n => Frequency(transits, route, m))
    {
      if perYear[n] == 0 {
        return Err(DivisionByZero);
      }
      frequencies := frequencies + [Get(years, n) as real / perYear[n] as real];
    }
    r := Ok(frequencies);
  }

  /** TradeRoute.serialise: count the transits, then turn each route's
      counts into shares of its year's transits. */
  method SerialiseTradeRoutes(transits: seq<seq<Route>>) returns (r: Result<seq<TradeRoute>>)
    ensures r == TradeRoutesOf(transits)
  {
    var perYear, order, byRoute := CountTransits(transits);
    assert transits[..|transits|] == transits;
    assert Flatten(transits[..|transits|]) + [] == Flatten(transits);
    assert order == Routes(transits);
    var routes: seq<TradeRoute> := [];
    for i := 0 to |order|
      invariant |routes| == i
      invariant i > 0 ==> !QuietYear(transits)
      invariant forall j :: 0 <= j < i ==> routes[j] == RouteRecord(transits, order[j])
    {
      var route := order[i];
      var years := byRoute[route];
      assert forall y :: 0 <= y < |transits| ==> Get(years, y) == SoFar(transits, |transits|, 0, route, y);
      var frequencies := RouteFrequencies(transits, perYear, route, years);
      if frequencies.Err? {
        return Err(DivisionByZero);
      }
      routes := routes + [TradeRoute(route.0, route.1, frequencies.value)];
    }
    r := Ok(routes);
    if order != [] {
      assert TradeRoutesOf(transits).Ok?;
      assert routes == TradeRoutesOf(transits).value;
    }
  }

  // ---------------------------------------------------------------------------
  // What the trade routes mean.

  /** How many of xs are each of keys, added up. */
  function CountAll(keys: seq<Route>, xs: seq<Route>): nat
    decreases |keys|
  {
    if keys == [] then 0 else CountAll(keys[..|keys| - 1], xs) + Count(xs, keys[|keys| - 1])
  }

  lemma {:induction false} CountAllSnoc(keys: seq<Route>, xs: seq<Route>, x: Route)
    ensures CountAll(keys, xs + [x]) == CountAll(keys, xs) + Count(keys, x)
    decreases |keys|
  {
    if keys != [] {
      CountAllSnoc(keys[..|keys| - 1], xs, x);
      assert (xs + [x])[..|xs|] == xs;
    }
  }

  lemma {:induction false} CountDistinct(keys: seq<Route>, x: Route)
    requires forall i, j :: 0 <= i < j < |keys| ==> keys[i] != keys[j]
    ensures Count(keys, x) == if x in keys then 1 else 0
    decreases |keys|
  {
    if keys != [] {
      var n := |keys| - 1;
      CountDistinct(keys[..n], x);
      assert keys == keys[..n] + [keys[n]];
      if keys[n] == x {
        assert x !in keys[..n];
      }
    }
  }

  /** Counting every element of xs against distinct keys that cover them
      counts each element once. */
  lemma {:induction false} CountAllCovers(keys: seq<Route>, xs: seq<Route>)
    requires forall i, j :: 0 <= i < j < |keys| ==> keys[i] != keys[j]
    requires forall i :: 0 <= i < |xs| ==> xs[i] in keys
    ensures CountAll(keys, xs) == |xs|
    decreases |xs|
  {
    if xs == [] {
      CountAllEmpty(keys);
    } else {
      var n := |xs| - 1;
      assert xs == xs[..n] + [xs[n]];
      CountAllCovers(keys, xs[..n]);
      CountAllSnoc(keys, xs[..n], xs[n]);
      CountDistinct(keys, xs[n]);
    }
  }

  lemma {:induction false} CountAllEmpty(keys: seq<Route>)
    ensures CountAll(keys, []) == 0
    decreases |keys|
  {
    if keys != [] {
      CountAllEmpty(keys[..|keys| - 1]);
    }
  }

  /** Every route's share of year n. */
  function Shares(transits: seq<seq<Route>>, keys: seq<Route>, n: nat): seq<real>
    requires n < |transits| && transits[n] != []
  {
    seq(|keys|, i requires 0 <= i < |keys| => Frequency(transits, keys[i], n))
  }

  lemma AddShares(a: real, b: real, t: real)
    requires t > 0.0
    ensures a / t + b / t == (a + b) / t
  {
  }

  /** The shares add up to the counts they cover over the year's total. */
  lemma {:induction false} SumOfShares(transits: seq<seq<Route>>, keys: seq<Route>, n: nat)
    requires n < |transits| && transits[n] != []
    ensures SumReal(Shares(transits, keys, n)) == CountAll(keys, transits[n]) as real / |transits[n]| as real
    decreases |keys|
  {
    if keys == [] {
    } else {
      var m := |keys| - 1;
      SumOfShares(transits, keys[..m], n);
      assert Shares(transits, keys, n)[..m] == Shares(transits, keys[..m], n);
      AddShares(CountAll(keys[..m], transits[n]) as real, Count(transits[n], keys[m]) as real, |transits[n]| as real);
    }
  }

  /** The shares of year n, route by route. */
  function YearShares(routes: seq<TradeRoute>, n: nat): seq<real>
    requires forall i :: 0 <= i < |routes| ==> n < |routes[i].frequencyByYear|
  {
    seq(|routes|, i requires 0 <= i < |routes| => routes[i].frequencyByYear[n])
  }

  lemma Whole(x: real)
    requires x > 0.0
    ensures x / x == 1.0
  {
  }

  /** In every year with a transit, the shares of all routes add up to one. */
  lemma SharesSumToOne(transits: seq<seq<Route>>, n: nat)
    requires TradeRoutesOf(transits).Ok? && n < |transits| && transits[n] != []
    ensures SumReal(YearShares(TradeRoutesOf(transits).value, n)) == 1.0
  {
    var keys := Routes(transits);
    var routes := TradeRoutesOf(transits).value;
    forall i | 0 <= i < |transits[n]|
      ensures transits[n][i] in keys
    {
      FlattenMembers(transits, transits[n][i]);
    }
    CountAllCovers(keys, transits[n]);
    SumOfShares(transits, keys, n);
    Whole(|transits[n]| as real);
    assert !QuietYear(transits);
    forall i | 0 <= i < |routes|
      ensures routes[i].frequencyByYear[n] == Shares(transits, keys, n)[i]
    {
      assert routes[i] == RouteRecord(transits, keys[i]);
    }
    assert YearShares(routes, n) == Shares(transits, keys, n);
  }

  /** The routes are distinct, and a pair of planets has a route exactly
      when some transit joined them; every share lies between 0 and 1. */
  lemma TradeRoutesShape(transits: seq<seq<Route>>)
    requires TradeRoutesOf(transits).Ok?
    ensures var routes := TradeRoutesOf(transits).value;
      && (forall i, j :: 0 <= i < j < |routes| ==> Pairs(routes)[i] != Pairs(routes)[j])
      && (forall r :: r in Pairs(routes) <==> exists y :: 0 <= y < |transits| && r in transits[y])
      && (forall i, n :: 0 <= i < |routes| && 0 <= n < |transits| ==> 0.0 <= routes[i].frequencyByYear[n] <= 1.0)
  {
    var keys := Routes(transits);
    var routes := TradeRoutesOf(transits).value;
    assert Pairs(routes) == keys;
    forall r
      ensures r in Pairs(routes) <==> exists y :: 0 <= y < |transits| && r in transits[y]
    {
      FlattenMembers(transits, r);
    }
    forall i, n | 0 <= i < |routes| && 0 <= n < |transits|
      ensures 0.0 <= routes[i].frequencyByYear[n] <= 1.0
    {
      CountAtMost(transits[n], keys[i]);
      DivAtMost(Count(transits[n], keys[i]) as real, |transits[n]| as real, 1.0);
    }
  }

  /** The pair of planets of each route. */
  function Pairs(routes: seq<TradeRoute>): seq<Route>
  {
    seq(|routes|, i requires 0 <= i < |routes| => (routes[i].start, routes[i].end))
  }

  lemma {:induction false} CountAtMost(xs: seq<Route>, x: Route)
    ensures Count(xs, x) <= |xs|
    decreases |xs|
  {
    if xs != [] {
      CountAtMost(xs[..|xs| - 1], x);
    }
  }

  // ---------------------------------------------------------------------------
  // The starmap.

  /** Starmap.serialise: every system, then the trade routes. */
  method SerialiseStarmap(stars: seq<StarState>, transits: seq<seq<Route>>) returns (r: Result<Starmap>)
    ensures var systems := SerialiseSystems(stars);
      && (systems.Err? ==> r == Err(systems.fault))
      && (systems.Ok? && TradeRoutesOf(transits).Err? ==> r == Err(DivisionByZero))
      && (systems.Ok? && TradeRoutesOf(transits).Ok? ==> r == Ok(Starmap(systems.value, TradeRoutesOf(transits).value)))
  {
    var systems := SerialiseSystems(stars);
    if systems.Err? {
      return Err(systems.fault);
    }
    var routes := SerialiseTradeRoutes(transits);
    if routes.Err? {
      return Err(routes.fault);
    }
    r := Ok(Starmap(systems.value, routes.value));
  }
}
