/** The migration of unhappy pops: InhabitedPlanet.migrate_pops of
    inhabitedplanet.py. The unhappy pops are split into colonists and
    settlers; settlers look for a suiting state on their own planet; the
    fleet is topped up and shuffled; colonists leave for empty planets and the
    settlers nobody here suits for colonies abroad; whoever is still left
    goes home or, on a colony, may found a state of their own. */
module Migration {
  import opened Numeric
  import opened Politics
  import opened Populations
  import opened Governments
  import opened Settlements
  import opened Colonies
  import opened Shipyard
  import opened CityNames

  /** An unhappy pop together with the settlement it wants to leave. */
  type Mover = (Settlement, Population)

  /** The pops of some movers, in order. */
  function PopsOf(ms: seq<Mover>): (ps: seq<Population>)
    ensures |ps| == |ms| && forall k :: 0 <= k < |ms| ==> ps[k] == ms[k].1
  {
    seq(|ms|, k requires 0 <= k < |ms| => ms[k].1)
  }

  /** Taking the last element of xs[..k] extends the order in which popping
      from the end drains xs. */
  lemma PopOrder<T>(xs: seq<T>, k: nat)
    requires 0 < k <= |xs|
    ensures Reverse(xs[k - 1..]) == Reverse(xs[k..]) + [xs[k - 1]]
  {
    assert xs[k - 1..] == [xs[k - 1]] + xs[k..];
    ReverseCons(xs[k - 1], xs[k..]);
  }

  lemma {:induction false} ReverseCons<T>(x: T, xs: seq<T>)
    ensures Reverse([x] + xs) == Reverse(xs) + [x]
    decreases |xs|
  {
    if xs != [] {
      var n := |xs| - 1;
      assert ([x] + xs)[..|xs|] == [x] + xs[..n];
      ReverseCons(x, xs[..n]);
    } else {
      assert [x] + xs == [x];
    }
  }

  /** Reversing keeps every element, as often as it was there. */
  lemma {:induction false} ReverseKeeps<T>(xs: seq<T>)
    ensures multiset(Reverse(xs)) == multiset(xs)
    decreases |xs|
  {
    if xs != [] {
      var n := |xs| - 1;
      ReverseKeeps(xs[..n]);
      assert xs == xs[..n] + [xs[n]];
    }
  }

  // ---------------------------------------------------------------------------
  // Colonists and settlers (inhabitedplanet.py:166-171)

  /** A mover leaning to the colonial end of the settler/colonial axis: it
      wants a new world rather than another state. */
  function Colonial(m: Mover): bool
  {
    m.1.traits.settlerColonial < 0.5
  }

  /** The first loop of migrate_pops: the unhappy pops are popped from the end
      of their list, colonists (settler/colonial below 0.5) to one list and
      the rest to the other, each in the order popped. */
  method Classify(unhappy: seq<Mover>) returns (colonists: seq<Mover>, settlers: seq<Mover>)
    ensures colonists == Filter(Reverse(unhappy), Colonial)
    ensures settlers == Reject(Reverse(unhappy), Colonial)
  {
    var i := |unhappy|;
    colonists, settlers := [], [];
    assert unhappy[i..] == [];
    while i > 0
      invariant i <= |unhappy|
      invariant colonists == Filter(Reverse(unhappy[i..]), Colonial)
      invariant settlers == Reject(Reverse(unhappy[i..]), Colonial)
    {
      var m := unhappy[i - 1];
      ClassifyStep(unhappy, i, colonists, settlers);
      if Colonial(m) {
        colonists := colonists + [m];
      } else {
        settlers := settlers + [m];
      }
      i := i - 1;
    }
    assert unhappy[0..] == unhappy;
  }

  /** Popping unhappy[i - 1] puts it on the side its settler/colonial trait
      picks. */
  lemma ClassifyStep(unhappy: seq<Mover>, i: nat, colonists: seq<Mover>, settlers: seq<Mover>)
    requires 0 < i <= |unhappy|
    requires colonists == Filter(Reverse(unhappy[i..]), Colonial)
    requires settlers == Reject(Reverse(unhappy[i..]), Colonial)
    ensures var m := unhappy[i - 1];
      && Filter(Reverse(unhappy[i - 1..]), Colonial) == colonists + (if Colonial(m) then [m] else [])
      && Reject(Reverse(unhappy[i - 1..]), Colonial) == settlers + (if Colonial(m) then [] else [m])
  {
    var m := unhappy[i - 1];
    PopOrder(unhappy, i);
    FilterAppend(Reverse(unhappy[i..]), [m], Colonial);
    RejectAppend(Reverse(unhappy[i..]), [m], Colonial);
  }

  /** Every unhappy pop becomes exactly one of a colonist or a settler: the
      two lists hold the unhappy pops between them, colonists being exactly
      those below 0.5 on the settler/colonial axis. */
  lemma ClassifiedOnce(unhappy: seq<Mover>)
    ensures multiset(Filter(Reverse(unhappy), Colonial)) + multiset(Reject(Reverse(unhappy), Colonial))
              == multiset(unhappy)
    ensures forall m :: m in Filter(Reverse(unhappy), Colonial) ==> Colonial(m)
    ensures forall m :: m in Reject(Reverse(unhappy), Colonial) ==> !Colonial(m)
  {
    FilterRejectSplit(Reverse(unhappy), Colonial);
    ReverseKeeps(unhappy);
  }

  // ---------------------------------------------------------------------------
  // Settlers on their own planet (inhabitedplanet.py:173-182)

  /** settlements_by_government[h]: the settlements whose government has
      opinion hash h; the defaultdict gives none for a hash it lacks. */
  function Bucket(buckets: map<nat, seq<Settlement>>, h: nat): seq<Settlement>
  {
    if h in buckets then buckets[h] else []
  }

  /** The government opinions of bucket h, as Views records them. */
  function ViewOf(views: map<nat, seq<Opinion>>, h: nat): seq<Opinion>
  {
    if h in views then views[h] else []
  }

  /** The settlements of all buckets. */
  ghost function Members(buckets: map<nat, seq<Settlement>>): set<Settlement>
  {
    set h, s | h in buckets && s in buckets[h] :: s
  }

  /** The governments of the settlements of all buckets. */
  ghost function Governors(buckets: map<nat, seq<Settlement>>): set<Government>
    reads Members(buckets)`government
  {
    set h, s | h in buckets && s in buckets[h] :: s.government
  }

  /** The government opinions of each bucket, in bucket order. */
  function Views(buckets: map<nat, seq<Settlement>>): (views: map<nat, seq<Opinion>>)
    reads Members(buckets)`government, Governors(buckets)`opinion
  {
    map h | h in buckets ::
      (assert forall s :: s in buckets[h] ==> s in Members(buckets) && s.government in Governors(buckets);
       GovernmentOpinions(buckets[h]))
  }

  /** Where a settler finds a home: the first settlement in the bucket of its
      opinion hash whose government suits it, none when no government there
      does (the for-else of migrate_pops). */
  function Home(buckets: map<nat, seq<Settlement>>, views: map<nat, seq<Opinion>>, p: Population): Option<Settlement>
  {
    var b := Bucket(buckets, p.OpinionHash());
    var i := FirstSuitable(ViewOf(views, p.OpinionHash()), p);
    if i < |b| then Some(b[i]) else None
  }

  /** Movers who find a home on their own planet. */
  function Housed(buckets: map<nat, seq<Settlement>>, views: map<nat, seq<Opinion>>): Mover -> bool
  {
    (m: Mover) => Home(buckets, views, m.1).Some?
  }

  /** With each bucket's opinions those of its governments, a settler's home
      is the first settlement of its bucket whose government suits it; with
      no home, no government of its bucket suits it. */
  lemma HomeIsFirstSuiting(buckets: map<nat, seq<Settlement>>, views: map<nat, seq<Opinion>>, p: Population)
    requires views.Keys == buckets.Keys && forall h :: h in buckets ==> |views[h]| == |buckets[h]|
    ensures var h := p.OpinionHash();
      && (Home(buckets, views, p).Some? ==>
            exists i :: 0 <= i < |Bucket(buckets, h)|
              && Home(buckets, views, p).value == Bucket(buckets, h)[i]
              && Suits(ViewOf(views, h)[i], p)
              && forall j :: 0 <= j < i ==> !Suits(ViewOf(views, h)[j], p))
      && (Home(buckets, views, p).None? ==>
            forall j :: 0 <= j < |ViewOf(views, h)| ==> !Suits(ViewOf(views, h)[j], p))
  {
    var h := p.OpinionHash();
    var os := ViewOf(views, h);
    FirstSuitableIsFirst(os, p);
    assert |os| == |Bucket(buckets, h)|;
  }

  /** The settlers placed in settlement s, in the order they were placed. */
  function Arrived(ms: seq<Mover>, buckets: map<nat, seq<Settlement>>, views: map<nat, seq<Opinion>>,
                   s: Settlement): seq<Population>
  {
    if ms == [] then []
    else
      var n := |ms| - 1;
      Arrived(ms[..n], buckets, views, s) + (if Home(buckets, views, ms[n].1) == Some(s) then [ms[n].1] else [])
  }

  /** The settler loop: settlers are popped from the end of their list; each
      joins its home when it has one and becomes an offworld settler
      otherwise. Only the pops of the settlements change, so the
      governments' opinions stay as they were. */
  method PlaceSettlers(settlers: seq<Mover>, buckets: map<nat, seq<Settlement>>)
    returns (offworld: seq<Mover>, views: map<nat, seq<Opinion>>)
    modifies Members(buckets)`pops
    ensures views == old(Views(buckets))
    ensures offworld == Reject(Reverse(settlers), Housed(buckets, views))
    ensures forall s :: s in Members(buckets) ==>
              s.pops == old(s.pops) + Arrived(Reverse(settlers), buckets, views, s)
  {
    views := Views(buckets);
    ghost var before := map s | s in Members(buckets) :: s.pops;
    var i := |settlers|;
    offworld := [];
    ghost var done := [];
    assert settlers[i..] == [];
    while i > 0
      invariant i <= |settlers| && done == Reverse(settlers[i..])
      invariant offworld == Reject(done, Housed(buckets, views))
      invariant Landed(before, done, buckets, views)
    {
      var m := settlers[i - 1];
      SettleStep(settlers, i, buckets, views);
      var housed := PlaceNext(m, done, buckets, views, before);
      if !housed {
        offworld := offworld + [m];
      }
      done := done + [m];
      i := i - 1;
    }
    assert settlers[0..] == settlers;
  }

  /** Each settlement holds what it held before and then the settlers of ms
      whose home it is. */
  ghost predicate Landed(before: map<Settlement, seq<Population>>, ms: seq<Mover>,
                         buckets: map<nat, seq<Settlement>>, views: map<nat, seq<Opinion>>)
    reads before.Keys
  {
    forall s :: s in before ==> s.pops == before[s] + Arrived(ms, buckets, views, s)
  }

  /** The settler loop's step: settler m goes home, if it has one. */
  method PlaceNext(m: Mover, ghost done: seq<Mover>, buckets: map<nat, seq<Settlement>>,
                   views: map<nat, seq<Opinion>>, ghost before: map<Settlement, seq<Population>>)
    returns (housed: bool)
    requires before.Keys == Members(buckets)
    requires Landed(before, done, buckets, views)
    modifies Members(buckets)`pops
    ensures housed == Home(buckets, views, m.1).Some?
    ensures Landed(before, done + [m], buckets, views)
  {
    var home := FindHome(m.1, buckets, views);
    housed := home.Some?;
    ArrivedSnoc(done, m, buckets, views);
    if housed {
      Join(home.value, m, done, buckets, views, before);
    }
  }

  /** A settler arrives at its home and nowhere else. */
  lemma ArrivedSnoc(done: seq<Mover>, m: Mover, buckets: map<nat, seq<Settlement>>, views: map<nat, seq<Opinion>>)
    ensures forall s :: Arrived(done + [m], buckets, views, s)
              == Arrived(done, buckets, views, s) + (if Home(buckets, views, m.1) == Some(s) then [m.1] else [])
  {
    assert (done + [m])[..|done|] == done;
  }

  /** The settler m joins its home. */
  method Join(home: Settlement, m: Mover, ghost done: seq<Mover>, buckets: map<nat, seq<Settlement>>,
              ghost views: map<nat, seq<Opinion>>, ghost before: map<Settlement, seq<Population>>)
    requires Home(buckets, views, m.1) == Some(home) && home in before
    requires Landed(before, done, buckets, views)
    requires forall s :: Arrived(done + [m], buckets, views, s)
               == Arrived(done, buckets, views, s) + (if Home(buckets, views, m.1) == Some(s) then [m.1] else [])
    modifies home`pops
    ensures Landed(before, done + [m], buckets, views)
  {
    home.pops := home.pops + [m.1];
  }

  /** Popping settlers[i - 1] extends the order of the settlers popped and
      the offworld settlers by that settler alone. */
  lemma SettleStep(settlers: seq<Mover>, i: nat, buckets: map<nat, seq<Settlement>>, views: map<nat, seq<Opinion>>)
    requires 0 < i <= |settlers|
    ensures var m := settlers[i - 1];
      && Reverse(settlers[i - 1..]) == Reverse(settlers[i..]) + [m]
      && Reject(Reverse(settlers[i - 1..]), Housed(buckets, views))
           == Reject(Reverse(settlers[i..]), Housed(buckets, views)) + (if Housed(buckets, views)(m) then [] else [m])
  {
    var m := settlers[i - 1];
    PopOrder(settlers, i);
    RejectAppend(Reverse(settlers[i..]), [m], Housed(buckets, views));
  }

  /** The search of one settler for its home: the first settlement of its
      bucket whose government suits it. */
  method FindHome(p: Population, buckets: map<nat, seq<Settlement>>, views: map<nat, seq<Opinion>>)
    returns (home: Option<Settlement>)
    ensures home == Home(buckets, views, p)
    ensures home.Some? ==> home.value in Members(buckets)
  {
    var h := p.OpinionHash();
    var b := Bucket(buckets, h);
    var os := ViewOf(views, h);
    var j := Starship.FindSuitable(os, p);
    if j < |b| {
      assert b[j] in buckets[h];
      return Some(b[j]);
    }
    home := None;
  }

  // ---------------------------------------------------------------------------
  // The fleet (inhabitedplanet.py:184-189)

  /** The summed capacity of ships. */
  function TotalCapacity(ships: seq<Starship>): int
  {
    if ships == [] then 0
    else
      var n := |ships| - 1;
      TotalCapacity(ships[..n]) + ships[n].capacity
  }

  lemma {:induction false} TotalCapacityAppend(a: seq<Starship>, b: seq<Starship>)
    ensures TotalCapacity(a + b) == TotalCapacity(a) + TotalCapacity(b)
    decreases |b|
  {
    if b != [] {
      var n := |b| - 1;
      assert (a + b)[..|a| + n] == a + b[..n];
      TotalCapacityAppend(a, b[..n]);
    } else {
      assert a + b == a;
    }
  }

  /** Ships all of one capacity c carry c times their number. */
  lemma {:induction false} UniformCapacity(ships: seq<Starship>, c: int)
    requires forall k :: 0 <= k < |ships| ==> ships[k].capacity == c
    ensures TotalCapacity(ships) == |ships| * c
    decreases |ships|
  {
    if ships != [] {
      var n := |ships| - 1;
      UniformCapacity(ships[..n], c);
      assert (n + 1) * c == n * c + c;
    }
  }

  /** The shortfall check of migrate_pops: when the docked fleet cannot carry
      the demand, ships are bought for the difference. Afterwards the fleet
      either carries the demand or the colony cannot afford another ship of
      its best design. */
  method Equip(colony: InhabitedPlanet, year: int, demand: int, pool: NamePool)
    returns (fault: Option<Fault>, ghost built: seq<Starship>)
    requires ChassisCarry(colony.discoveries)
    modifies colony`manufacturingSurplus, colony.planet`ships, pool
    ensures colony.planet.ships == old(colony.planet.ships) + built
    ensures forall k :: 0 <= k < |built| ==> fresh(built[k])
    ensures old(TotalCapacity(colony.planet.ships)) >= demand ==>
              fault.None? && built == [] && colony.manufacturingSurplus == old(colony.manufacturingSurplus)
    ensures var plan := Blueprint(Dedup(Provided(colony.discoveries)));
      fault.None? ==>
        TotalCapacity(colony.planet.ships) >= demand
        || (plan.Ok? && colony.manufacturingSurplus < plan.value.cost)
    ensures colony.manufacturingSurplus >= 0 || colony.manufacturingSurplus == old(colony.manufacturingSurplus)
  {
    var available := TotalCapacity(colony.planet.ships);
    if available >= demand {
      return None, [];
    }
    ghost var docked := colony.planet.ships;
    ghost var plan := Blueprint(Dedup(Provided(colony.discoveries)));
    ghost var taken;
    fault, built, taken := colony.BuildShips(year, demand - available, pool);
    if fault.None? && plan.Ok? {
      assert forall k :: 0 <= k < |built| ==> built[k].capacity == plan.value.capacity;
      UniformCapacity(built, plan.value.capacity);
      TotalCapacityAppend(docked, built);
    }
  }

  /** sorted(ships, key=lambda _: rng.random()): the same ships, in an order
      the draws decide. */
  method Shuffle(ships: seq<Starship>) returns (shuffled: seq<Starship>)
    ensures multiset(shuffled) == multiset(ships)
  {
    shuffled :| multiset(shuffled) == multiset(ships);
  }

  // ---------------------------------------------------------------------------
  // sorted(xs, key=key): a stable sort, ascending by key

  /** The sort Python's sorted performs: ascending by key, and elements of
      equal key in their original order. */
  function SortBy<T>(xs: seq<T>, key: T -> real): (r: seq<T>)
    ensures |r| == |xs|
  {
    if xs == [] then [] else Insert(xs[0], SortBy(xs[1..], key), key)
  }

  /** x placed before the first element whose key is not below its own. */
  function Insert<T>(x: T, ys: seq<T>, key: T -> real): (r: seq<T>)
    ensures |r| == |ys| + 1
  {
    if ys == [] || key(x) <= key(ys[0]) then [x] + ys else [ys[0]] + Insert(x, ys[1..], key)
  }

  ghost predicate Ascending<T>(xs: seq<T>, key: T -> real)
  {
    forall i, j :: 0 <= i < j < |xs| ==> key(xs[i]) <= key(xs[j])
  }

  lemma {:induction false} InsertKeeps<T>(x: T, ys: seq<T>, key: T -> real)
    ensures multiset(Insert(x, ys, key)) == multiset{x} + multiset(ys)
    decreases |ys|
  {
    if ys != [] && key(x) > key(ys[0]) {
      InsertKeeps(x, ys[1..], key);
      assert ys == [ys[0]] + ys[1..];
    }
  }

  lemma {:induction false} InsertAscending<T>(x: T, ys: seq<T>, key: T -> real)
    requires Ascending(ys, key)
    ensures Ascending(Insert(x, ys, key), key)
    decreases |ys|
  {
    if ys != [] && key(x) > key(ys[0]) {
      InsertAscending(x, ys[1..], key);
      InsertKeeps(x, ys[1..], key);
      var r := Insert(x, ys[1..], key);
      forall k | 0 <= k < |r|
        ensures key(ys[0]) <= key(r[k])
      {
        assert r[k] in multiset(r);
        assert r[k] == x || r[k] in ys[1..];
      }
    }
  }

  /** The sort puts every element in key order and keeps each element as
      often as it was there. */
  lemma {:induction false} SortByOrders<T>(xs: seq<T>, key: T -> real)
    ensures Ascending(SortBy(xs, key), key)
    ensures multiset(SortBy(xs, key)) == multiset(xs)
    decreases |xs|
  {
    if xs != [] {
      SortByOrders(xs[1..], key);
      InsertAscending(xs[0], SortBy(xs[1..], key), key);
      InsertKeeps(xs[0], SortBy(xs[1..], key), key);
      assert xs == [xs[0]] + xs[1..];
    }
  }

  lemma {:induction false} InsertStable<T>(x: T, ys: seq<T>, key: T -> real, c: real)
    requires Ascending(ys, key)
    ensures Filter(Insert(x, ys, key), OfKey(key, c))
              == (if key(x) == c then [x] else []) + Filter(ys, OfKey(key, c))
    decreases |ys|
  {
    var keep := OfKey(key, c);
    var r := Insert(x, ys, key);
    if ys == [] || key(x) <= key(ys[0]) {
      assert r == [x] + ys;
      assert r[1..] == ys;
    } else {
      var tail := ys[1..];
      assert Ascending(tail, key);
      InsertStable(x, tail, key, c);
      var r' := Insert(x, tail, key);
      assert r[0] == ys[0] && r[1..] == r';
      var head := if keep(ys[0]) then [ys[0]] else [];
      assert Filter(r, keep) == head + Filter(r', keep);
      assert Filter(ys, keep) == head + Filter(tail, keep);
      if key(x) == c {
        assert head == [];
      }
    }
  }

  /** The sort is stable: the elements of any one key come out in the order
      they went in. */
  lemma {:induction false} SortByStable<T>(xs: seq<T>, key: T -> real, c: real)
    ensures Filter(SortBy(xs, key), OfKey(key, c)) == Filter(xs, OfKey(key, c))
    decreases |xs|
  {
    if xs != [] {
      SortByStable(xs[1..], key, c);
      SortByOrders(xs[1..], key);
      InsertStable(xs[0], SortBy(xs[1..], key), key, c);
      assert xs == [xs[0]] + xs[1..];
    }
  }

  // ---------------------------------------------------------------------------
  // Surveying the neighbourhood (inhabitedplanet.py:192-204, 244-268)

  /** One habitable planet of a neighbouring star as migrate_pops sees it:
      how far its star is, the planet, the colony on it (null when there is
      none) and the opinions of that colony's governments, settlement by
      settlement. */
  datatype Site = Site(distance: real, planet: Planet, colony: InhabitedPlanet?, opinions: seq<Opinion>)

  /** The neighbours up to the first one farther than range: the loops over
      precomputed_neighbours break there. */
  function Reach(ns: seq<(Star, real)>, range: real): (r: seq<(Star, real)>)
    ensures |r| <= |ns| && r == ns[..|r|]
    ensures forall i :: 0 <= i < |r| ==> r[i].1 <= range
    ensures |r| < |ns| ==> ns[|r|].1 > range
  {
    if ns == [] || ns[0].1 > range then []
    else
      var r := [ns[0]] + Reach(ns[1..], range);
      assert r == ns[..|r|];
      r
  }

  /** The prefix of ns the loop has walked when it stops is Reach. */
  lemma {:induction false} ReachIs(ns: seq<(Star, real)>, range: real, i: nat)
    requires i <= |ns| && forall k :: 0 <= k < i ==> ns[k].1 <= range
    requires i == |ns| || ns[i].1 > range
    ensures Reach(ns, range) == ns[..i]
  {
  }

  /** The opinions of the governments of a colony; none for no colony. */
  ghost function OpinionsAt(colony: InhabitedPlanet?): seq<Opinion>
    reads *
  {
    if colony == null then [] else GovernmentOpinions(colony.settlements)
  }

  /** The sites of the planets ps of a star at distance d. */
  ghost function PlanetSites(ps: seq<Planet>, d: real): seq<Site>
    reads *
  {
    if ps == [] then []
    else
      var n := |ps| - 1;
      PlanetSites(ps[..n], d) + [Site(d, ps[n], ps[n].inhabited, OpinionsAt(ps[n].inhabited))]
  }

  /** The sites of the habitable planets of the stars of reach, star by star. */
  ghost function SitesOf(reach: seq<(Star, real)>): seq<Site>
    reads *
  {
    if reach == [] then []
    else
      var n := |reach| - 1;
      SitesOf(reach[..n]) + PlanetSites(reach[n].0.habitablePlanets, reach[n].1)
  }

  /** The survey loops of migrate_pops: the habitable planets of the
      neighbouring stars, nearest star first, up to the first star beyond
      range. */
  method Survey(star: Star, range: real) returns (sites: seq<Site>)
    ensures sites == SitesOf(Reach(star.neighbours, range))
  {
    var ns := star.neighbours;
    var i := 0;
    sites := [];
    while i < |ns| && ns[i].1 <= range
      invariant i <= |ns| && forall k :: 0 <= k < i ==> ns[k].1 <= range
      invariant sites == SitesOf(ns[..i])
    {
      var more := Look(ns[i].0, ns[i].1);
      assert ns[..i + 1][..i] == ns[..i];
      sites := sites + more;
      i := i + 1;
    }
    ReachIs(ns, range, i);
  }

  /** The inner loop of a survey: the habitable planets of one star. */
  method Look(star: Star, d: real) returns (more: seq<Site>)
    ensures more == PlanetSites(star.habitablePlanets, d)
  {
    var ps := star.habitablePlanets;
    more := [];
    for j := 0 to |ps|
      invariant more == PlanetSites(ps[..j], d)
    {
      assert ps[..j + 1][..j] == ps[..j];
      var p := ps[j];
      var colony := p.inhabited;
      var os := if colony == null then [] else GovernmentOpinions(colony.settlements);
      more := more + [Site(d, p, colony, os)];
    }
    assert ps[..|ps|] == ps;
  }

  /** A site nobody has colonised yet. */
  function Vacant(t: Site): bool
  {
    t.colony == null
  }

  function DistanceOf(t: Site): real
  {
    t.distance
  }

  // ---------------------------------------------------------------------------
  // Colony ships (inhabitedplanet.py:191-241)

  /** A departure: the ship, the pops aboard, how far it goes, and the planet
      (with its colony, when it has one) it is bound for. */
  datatype Trip = Trip(ship: Starship, cargo: seq<Population>, distance: real, to: Planet, colony: InhabitedPlanet?)

  /** A trip its ship can make: within range, with no more pops aboard than
      it holds. */
  predicate Fitted(t: Trip)
  {
    t.distance <= t.ship.Range() && |t.cargo| <= t.ship.capacity
  }

  /** The farthest any of the ships can go. */
  function MaxRange(ships: seq<Starship>): (m: real)
    requires ships != []
    ensures forall k :: 0 <= k < |ships| ==> ships[k].Range() <= m
    ensures exists k :: 0 <= k < |ships| && ships[k].Range() == m
  {
    if |ships| == 1 then ships[0].Range()
    else
      var n := |ships| - 1;
      var m := MaxRange(ships[..n]);
      assert forall k :: 0 <= k < n ==> ships[..n][k] == ships[k];
      if ships[n].Range() > m then ships[n].Range() else m
  }

  /** What the boarding loop leaves: the exemplar, then the colonists popped
      from the end of the queue, as many as there are or as the capacity
      leaves room for; the front of the queue stays behind. */
  ghost predicate Boarded(exemplar: Population, queue: seq<Mover>, capacity: int,
                          cargo: seq<Population>, boarded: seq<Mover>, rest: seq<Mover>)
  {
    && |boarded| == Min(|queue|, Max(0, capacity - 1))
    && rest == queue[..|queue| - |boarded|] && boarded == Reverse(queue[|rest|..])
    && cargo == [exemplar] + PopsOf(boarded)
  }

  /** The boarding loop of a colony ship: after the exemplar, colonists are
      popped from the end of the queue while there are any and the cargo is
      below the ship's capacity. */
  method Board(exemplar: Population, queue: seq<Mover>, capacity: int)
    returns (cargo: seq<Population>, boarded: seq<Mover>, rest: seq<Mover>)
    ensures Boarded(exemplar, queue, capacity, cargo, boarded, rest)
  {
    rest, boarded, cargo := queue, [], [exemplar];
    assert queue[|queue|..] == [];
    while rest != [] && |cargo| < capacity
      invariant |rest| <= |queue| && rest == queue[..|rest|]
      invariant boarded == Reverse(queue[|rest|..]) && |boarded| == |queue| - |rest|
      invariant cargo == [exemplar] + PopsOf(boarded)
      invariant |boarded| <= Max(0, capacity - 1)
    {
      var n := |rest| - 1;
      var m := rest[n];
      PopOrder(queue, |rest|);
      rest := rest[..n];
      boarded := boarded + [m];
      cargo := cargo + [m.1];
    }
  }

  /** Popping the end of a queue in ascending key order takes the largest
      keys first: what is taken descends, and nothing left has a larger key. */
  lemma TakenLargestFirst<T>(queue: seq<T>, n: nat, key: T -> real)
    requires n <= |queue| && Ascending(queue, key)
    ensures var taken := Reverse(queue[n..]);
      && (forall i, j :: 0 <= i < j < |taken| ==> key(taken[i]) >= key(taken[j]))
      && (forall i, j :: 0 <= i < |taken| && 0 <= j < n ==> key(taken[i]) >= key(queue[j]))
  {
    var taken := Reverse(queue[n..]);
    forall i, j | 0 <= i < |taken| && 0 <= j < n
      ensures key(taken[i]) >= key(queue[j])
    {
      assert taken[i] == queue[|queue| - 1 - i];
    }
  }

  /** The sort key of the colonists' queue: similarity_to is a distance, and
      the queue is sorted on it in reverse, so ascending by its negation,
      which keeps ties in order just as the reverse sort does. */
  function Remoteness(exemplar: Population): Mover -> real
  {
    (m: Mover) => -m.1.SimilarityTo(exemplar)
  }

  /** The pops of a concatenation are the concatenated pops. */
  lemma PopsOfAppend(a: seq<Mover>, b: seq<Mover>)
    ensures PopsOf(a + b) == PopsOf(a) + PopsOf(b)
  {
  }

  /** After the exemplar boarded[0], the colonists aboard are in order of
      similarity_to the exemplar, closest first, and none left behind is
      closer than any of them. */
  ghost predicate ClosestFirst(boarded: seq<Mover>, left: seq<Mover>)
  {
    boarded != [] &&
    var ex := boarded[0].1;
    && (forall i, j :: 1 <= i < j < |boarded| ==> boarded[i].1.SimilarityTo(ex) <= boarded[j].1.SimilarityTo(ex))
    && (forall i, j :: 1 <= i < |boarded| && 0 <= j < |left| ==> boarded[i].1.SimilarityTo(ex) <= left[j].1.SimilarityTo(ex))
  }

  /** One colony ship (inhabitedplanet.py:217-238): some target in reach of
      the fleet, any ship that reaches it, and a cargo Fill chooses. The trip
      fails exactly when the ship cannot even hold its exemplar or its
      folding drive has speed 0. */
  method Launch(colony: InhabitedPlanet, colonists: seq<Mover>, docked: seq<Starship>, target: Site)
    returns (fault: Option<Fault>, left: seq<Mover>, rest: seq<Starship>, trip: Trip, ghost boarded: seq<Mover>)
    requires colonists != [] && docked != [] && target.distance <= MaxRange(docked)
    modifies docked
    ensures trip.ship in docked && rest == RemoveFirst(docked, trip.ship)
    ensures trip.distance == target.distance && trip.to == target.planet && trip.colony == null
    ensures multiset(left) + multiset(boarded) == multiset(colonists)
    ensures trip.cargo == PopsOf(boarded) && |boarded| == Min(|colonists|, Max(1, trip.ship.capacity))
    ensures ClosestFirst(boarded, left)
    ensures fault.None? <==>
      trip.ship.capacity >= 1 && !(Covers(trip.ship.ftl, trip.distance) && trip.ship.ftl.value.speed == 0.0)
    ensures fault.None? ==> Fitted(trip)
  {
    var ship :| ship in docked && ship.Range() >= target.distance;
    rest := RemoveFirst(docked, ship);
    var cargo;
    cargo, left, boarded := Fill(colonists, ship.capacity);
    var objectiveYears: nat, subjectiveYears: nat :| true;
    fault := ship.TravelTo(colony, cargo, null, target.planet, target.distance, objectiveYears, subjectiveYears);
    trip := Trip(ship, cargo, target.distance, target.planet, null);
  }

  /** The cargo of a colony ship of the given capacity: an exemplar colonist
      drawn at random, then the colonists closest to it while there is room. */
  method Fill(colonists: seq<Mover>, capacity: int)
    returns (cargo: seq<Population>, left: seq<Mover>, ghost boarded: seq<Mover>)
    requires colonists != []
    ensures multiset(left) + multiset(boarded) == multiset(colonists)
    ensures cargo == PopsOf(boarded) && |boarded| == Min(|colonists|, Max(1, capacity))
    ensures ClosestFirst(boarded, left)
  {
    assert colonists[0] in colonists;
    var exemplar :| exemplar in colonists;
    var others := RemoveFirst(colonists, exemplar);
    var queue := SortBy(others, Remoteness(exemplar.1));
    var taken;
    cargo, taken, left := Board(exemplar.1, queue, capacity);
    boarded := [exemplar] + taken;
    SortByOrders(others, Remoteness(exemplar.1));
    Embark(exemplar, colonists, others, queue, capacity, cargo, taken, left);
  }

  /** What Board takes from the queue sorted by Remoteness: the closest
      colonists, closest first; together with the exemplar and those left,
      all the colonists. */
  lemma Embark(exemplar: Mover, colonists: seq<Mover>, others: seq<Mover>, queue: seq<Mover>, capacity: int,
               cargo: seq<Population>, taken: seq<Mover>, left: seq<Mover>)
    requires exemplar in colonists && others == RemoveFirst(colonists, exemplar)
    requires Ascending(queue, Remoteness(exemplar.1)) && multiset(queue) == multiset(others) && |queue| == |others|
    requires Boarded(exemplar.1, queue, capacity, cargo, taken, left)
    ensures multiset(left) + multiset([exemplar] + taken) == multiset(colonists)
    ensures cargo == PopsOf([exemplar] + taken) && |[exemplar] + taken| == Min(|colonists|, Max(1, capacity))
    ensures ClosestFirst([exemplar] + taken, left)
  {
    var key := Remoteness(exemplar.1);
    var n := |left|;
    assert n <= |queue| && left == queue[..n] && taken == Reverse(queue[n..]);
    SplitKeeps(queue, n);
    Rejoin(exemplar, colonists, others, left, taken);
    PopsOfAppend([exemplar], taken);
    Ordered(exemplar, queue, n, taken, left, key);
  }

  /** From a queue ascending by Remoteness, what was popped from the back is
      the closest, closest first. */
  lemma Ordered(exemplar: Mover, queue: seq<Mover>, n: nat, taken: seq<Mover>, left: seq<Mover>, key: Mover -> real)
    requires key == Remoteness(exemplar.1) && Ascending(queue, key)
    requires n <= |queue| && left == queue[..n] && taken == Reverse(queue[n..])
    ensures ClosestFirst([exemplar] + taken, left)
  {
    TakenLargestFirst(queue, n, key);
    Closest(exemplar, taken, left, key);
  }

  /** The exemplar, the colonists taken and those left are all the colonists. */
  lemma Rejoin(exemplar: Mover, colonists: seq<Mover>, others: seq<Mover>, left: seq<Mover>, taken: seq<Mover>)
    requires exemplar in colonists && others == RemoveFirst(colonists, exemplar)
    requires multiset(left) + multiset(taken) == multiset(others)
    ensures multiset(left) + multiset([exemplar] + taken) == multiset(colonists)
  {
    assert multiset([exemplar] + taken) == multiset{exemplar} + multiset(taken);
    assert multiset(others) == multiset(colonists) - multiset{exemplar};
    var lhs := multiset(left) + multiset([exemplar] + taken);
    forall y
      ensures lhs[y] == multiset(colonists)[y]
    {
      assert (multiset(left) + multiset(taken))[y] == multiset(others)[y];
      if y == exemplar {
        assert exemplar in multiset(colonists);
      }
    }
    assert lhs == multiset(colonists);
  }

  /** What is left at the front and what was popped from the back hold the
      queue between them. */
  lemma SplitKeeps<T>(queue: seq<T>, n: nat)
    requires n <= |queue|
    ensures multiset(queue[..n]) + multiset(Reverse(queue[n..])) == multiset(queue)
  {
    ReverseKeeps(queue[n..]);
    assert queue == queue[..n] + queue[n..];
  }

  /** Taking the largest Remoteness first is taking the closest first. */
  lemma Closest(exemplar: Mover, taken: seq<Mover>, left: seq<Mover>, key: Mover -> real)
    requires key == Remoteness(exemplar.1)
    requires forall i, j :: 0 <= i < j < |taken| ==> key(taken[i]) >= key(taken[j])
    requires forall i, j :: 0 <= i < |taken| && 0 <= j < |left| ==> key(taken[i]) >= key(left[j])
    ensures ClosestFirst([exemplar] + taken, left)
  {
    var b := [exemplar] + taken;
    var ex := exemplar.1;
    forall i, j | 1 <= i < j < |b|
      ensures b[i].1.SimilarityTo(ex) <= b[j].1.SimilarityTo(ex)
    {
      assert b[i] == taken[i - 1] && b[j] == taken[j - 1];
      assert key(taken[i - 1]) >= key(taken[j - 1]);
    }
    forall i, j | 1 <= i < |b| && 0 <= j < |left|
      ensures b[i].1.SimilarityTo(ex) <= left[j].1.SimilarityTo(ex)
    {
      assert b[i] == taken[i - 1];
      assert key(taken[i - 1]) >= key(left[j]);
    }
  }

  /** The pops aboard a run of departures, trip by trip. */
  function Cargoes(trips: seq<Trip>): seq<Population>
  {
    if trips == [] then [] else Cargoes(trips[..|trips| - 1]) + trips[|trips| - 1].cargo
  }

  /** The books of a run of departures: every ship of the fleet either left
      or is still docked, every mover either boarded or is still waiting,
      each departure was within its ship's range and capacity, and the pops
      aboard are the movers that boarded, in order. */
  ghost predicate Voyage(ships: seq<Starship>, movers: seq<Mover>, docked: seq<Starship>, waiting: seq<Mover>,
                         leaving: seq<Starship>, trips: seq<Trip>, shipped: seq<Mover>)
  {
    && multiset(leaving) + multiset(docked) == multiset(ships)
    && multiset(waiting) + multiset(shipped) == multiset(movers)
    && |trips| == |leaving| && (forall k :: 0 <= k < |trips| ==> trips[k].ship == leaving[k] && Fitted(trips[k]))
    && Cargoes(trips) == PopsOf(shipped)
  }

  /** A departure that fits its ship keeps the books. */
  lemma VoyageStep(ships: seq<Starship>, movers: seq<Mover>, docked: seq<Starship>, waiting: seq<Mover>,
                   leaving: seq<Starship>, trips: seq<Trip>, shipped: seq<Mover>,
                   trip: Trip, boarded: seq<Mover>, waiting': seq<Mover>)
    requires Voyage(ships, movers, docked, waiting, leaving, trips, shipped)
    requires trip.ship in docked && Fitted(trip) && trip.cargo == PopsOf(boarded)
    requires multiset(waiting') + multiset(boarded) == multiset(waiting)
    ensures Voyage(ships, movers, RemoveFirst(docked, trip.ship), waiting', leaving + [trip.ship],
                   trips + [trip], shipped + boarded)
  {
    assert (trips + [trip])[..|trips|] == trips;
    PopsOfAppend(shipped, boarded);
    assert trip.ship in multiset(docked);
  }

  /** Nothing is left after removing an element that was not there first. */
  lemma RemoveFirstWithin<T>(xs: seq<T>, x: T)
    requires x in xs
    ensures forall y :: y in RemoveFirst(xs, x) ==> y in xs
  {
    forall y | y in RemoveFirst(xs, x)
      ensures y in xs
    {
      assert y in multiset(RemoveFirst(xs, x));
    }
  }

  /** Taking a ship away does not lengthen the fleet's reach. */
  lemma MaxRangeShrinks(docked: seq<Starship>, ship: Starship)
    requires ship in docked && RemoveFirst(docked, ship) != []
    ensures MaxRange(RemoveFirst(docked, ship)) <= MaxRange(docked)
  {
    var rest := RemoveFirst(docked, ship);
    RemoveFirstWithin(docked, ship);
    var k :| 0 <= k < |rest| && rest[k].Range() == MaxRange(rest);
    assert rest[k] in docked;
  }

  /** Targets no farther than reach. */
  function InReach(reach: real): Site -> bool
  {
    (t: Site) => t.distance <= reach
  }

  /** Cutting the targets to those in reach keeps every vacant site in reach. */
  lemma Refocus(vacant: seq<Site>, targets: seq<Site>, reach: real)
    requires forall t :: t in vacant && t.distance <= reach ==> t in targets
    ensures forall t :: t in vacant && t.distance <= reach ==> t in Filter(targets, InReach(reach))
  {
    forall t | t in vacant && t.distance <= reach
      ensures t in Filter(targets, InReach(reach))
    {
      FilterMember(targets, InReach(reach), t);
    }
  }

  /** The trip went to a site of sites. */
  ghost predicate Aimed(t: Trip, sites: seq<Site>)
  {
    exists s :: s in sites && s.distance == t.distance && s.planet == t.to
  }

  /** No site of vacant is within reach of any of the ships. */
  ghost predicate OutOfReach(vacant: seq<Site>, docked: seq<Starship>)
  {
    docked != [] && forall t :: t in vacant ==> t.distance > MaxRange(docked)
  }

  /** What holds at each turn of the colonisation loop: the books of the
      departures so far, each to a vacant site; the docked ships are ships of
      the fleet; the targets are vacant sites, among them every one the
      docked ships can still reach. */
  ghost predicate Colonising(ships: seq<Starship>, colonists: seq<Mover>, vacant: seq<Site>, targets: seq<Site>,
                             docked: seq<Starship>, waiting: seq<Mover>, leaving: seq<Starship>,
                             trips: seq<Trip>, shipped: seq<Mover>)
  {
    && Voyage(ships, colonists, docked, waiting, leaving, trips, shipped)
    && (forall s :: s in docked ==> s in ships)
    && (forall k :: 0 <= k < |trips| ==> trips[k].colony == null && Aimed(trips[k], vacant))
    && (forall t :: t in targets ==> t in vacant)
    && (docked != [] ==> forall t :: t in vacant && t.distance <= MaxRange(docked) ==> t in targets)
  }

  /** The colonisation loop (inhabitedplanet.py:211-238): while colonists,
      ships and targets remain, the targets are cut to those the fleet can
      still reach, and a colony ship leaves for one of them. Every ship that
      leaves was docked, goes no farther than its range and carries no more
      than it holds; every colonist either boards or waits; and the loop
      stops only when the colonists or the ships run out or no vacant site
      is in reach of any ship left. */
  method Colonise(colony: InhabitedPlanet, colonists: seq<Mover>, ships: seq<Starship>, vacant: seq<Site>)
    returns (fault: Option<Fault>, waiting: seq<Mover>, docked: seq<Starship>, leaving: seq<Starship>,
             ghost trips: seq<Trip>, ghost shipped: seq<Mover>)
    modifies ships
    ensures fault.None? ==> Voyage(ships, colonists, docked, waiting, leaving, trips, shipped)
    ensures fault.None? ==> forall k :: 0 <= k < |trips| ==> trips[k].colony == null && Aimed(trips[k], vacant)
    ensures fault.None? ==> waiting == [] || docked == [] || OutOfReach(vacant, docked)
  {
    waiting, docked, leaving, trips, shipped := colonists, ships, [], [], [];
    var targets := vacant;
    fault := None;
    var stuck := false;
    while waiting != [] && docked != [] && targets != [] && !stuck
      invariant Colonising(ships, colonists, vacant, targets, docked, waiting, leaving, trips, shipped)
      invariant stuck ==> OutOfReach(vacant, docked)
      decreases |docked|, !stuck
    {
      fault, stuck, targets, waiting, docked, leaving, trips, shipped :=
        Sail(colony, ships, colonists, vacant, targets, docked, waiting, leaving, trips, shipped);
      if fault.Some? {
        return;
      }
    }
  }

  /** One turn of the colonisation loop: the targets are cut to the fleet's
      reach; with none left the loop is stuck, otherwise one ship leaves. */
  method Sail(colony: InhabitedPlanet, ghost ships: seq<Starship>, ghost colonists: seq<Mover>, ghost vacant: seq<Site>,
              targets: seq<Site>, docked: seq<Starship>, waiting: seq<Mover>, leaving: seq<Starship>,
              ghost trips: seq<Trip>, ghost shipped: seq<Mover>)
    returns (fault: Option<Fault>, stuck: bool, targets': seq<Site>, waiting': seq<Mover>, docked': seq<Starship>,
             leaving': seq<Starship>, ghost trips': seq<Trip>, ghost shipped': seq<Mover>)
    requires waiting != [] && docked != [] && targets != []
    requires Colonising(ships, colonists, vacant, targets, docked, waiting, leaving, trips, shipped)
    requires forall s :: s in docked ==> s in ships
    modifies ships
    ensures fault.None? ==> Colonising(ships, colonists, vacant, targets', docked', waiting', leaving', trips', shipped')
    ensures fault.None? && stuck ==> docked' == docked && OutOfReach(vacant, docked')
    ensures fault.None? && !stuck ==> |docked'| < |docked|
  {
    var reach := MaxRange(docked);
    targets' := Filter(targets, InReach(reach));
    waiting', docked', leaving', trips', shipped' := waiting, docked, leaving, trips, shipped;
    if targets' == [] {
      Stuck(ships, colonists, vacant, targets, docked, waiting, leaving, trips, shipped);
      return None, true, targets', waiting', docked', leaving', trips', shipped';
    }
    stuck := false;
    assert targets'[0] in targets';
    var choice :| choice in targets';
    var trip;
    ghost var boarded;
    assert forall i :: 0 <= i < |docked| ==> docked[i] in ships;
    fault, waiting', docked', trip, boarded := Launch(colony, waiting, docked, choice);
    if fault.Some? {
      return;
    }
    ColonisingStep(ships, colonists, vacant, targets, docked, waiting, leaving, trips, shipped,
                   choice, trip, boarded, waiting');
    leaving', trips', shipped' := leaving + [trip.ship], trips + [trip], shipped + boarded;
  }

  /** With no target in the fleet's reach, no vacant site is. */
  lemma Stuck(ships: seq<Starship>, colonists: seq<Mover>, vacant: seq<Site>, targets: seq<Site>,
              docked: seq<Starship>, waiting: seq<Mover>, leaving: seq<Starship>, trips: seq<Trip>, shipped: seq<Mover>)
    requires docked != []
    requires Colonising(ships, colonists, vacant, targets, docked, waiting, leaving, trips, shipped)
    requires Filter(targets, InReach(MaxRange(docked))) == []
    ensures Colonising(ships, colonists, vacant, [], docked, waiting, leaving, trips, shipped)
    ensures OutOfReach(vacant, docked)
  {
    Refocus(vacant, targets, MaxRange(docked));
  }

  /** A colony ship leaving for a target in reach keeps what the loop holds. */
  lemma ColonisingStep(ships: seq<Starship>, colonists: seq<Mover>, vacant: seq<Site>, targets: seq<Site>,
                       docked: seq<Starship>, waiting: seq<Mover>, leaving: seq<Starship>, trips: seq<Trip>,
                       shipped: seq<Mover>, choice: Site, trip: Trip, boarded: seq<Mover>, waiting': seq<Mover>)
    requires docked != []
    requires Colonising(ships, colonists, vacant, targets, docked, waiting, leaving, trips, shipped)
    requires choice in Filter(targets, InReach(MaxRange(docked)))
    requires trip.ship in docked && Fitted(trip) && trip.cargo == PopsOf(boarded)
    requires trip.distance == choice.distance && trip.to == choice.planet && trip.colony == null
    requires multiset(waiting') + multiset(boarded) == multiset(waiting)
    ensures Colonising(ships, colonists, vacant, Filter(targets, InReach(MaxRange(docked))),
                       RemoveFirst(docked, trip.ship), waiting', leaving + [trip.ship], trips + [trip], shipped + boarded)
  {
    var reach := MaxRange(docked);
    VoyageStep(ships, colonists, docked, waiting, leaving, trips, shipped, trip, boarded, waiting');
    Docked(ships, docked, trip.ship);
    Retarget(vacant, targets, docked, trip.ship);
    TripsAimed(vacant, trips, trip, choice);
  }

  /** The ships still docked after one leaves are ships of the fleet. */
  lemma Docked(ships: seq<Starship>, docked: seq<Starship>, ship: Starship)
    requires ship in docked && forall s :: s in docked ==> s in ships
    ensures forall s :: s in RemoveFirst(docked, ship) ==> s in ships
  {
    RemoveFirstWithin(docked, ship);
  }

  /** After a ship leaves, the targets cut to the old reach still hold every
      vacant site the remaining ships reach. */
  lemma Retarget(vacant: seq<Site>, targets: seq<Site>, docked: seq<Starship>, ship: Starship)
    requires ship in docked
    requires forall t :: t in targets ==> t in vacant
    requires forall t :: t in vacant && t.distance <= MaxRange(docked) ==> t in targets
    ensures var cut := Filter(targets, InReach(MaxRange(docked)));
      && (forall t :: t in cut ==> t in vacant)
      && (RemoveFirst(docked, ship) != [] ==>
            forall t :: t in vacant && t.distance <= MaxRange(RemoveFirst(docked, ship)) ==> t in cut)
  {
    Refocus(vacant, targets, MaxRange(docked));
    if RemoveFirst(docked, ship) != [] {
      MaxRangeShrinks(docked, ship);
    }
  }

  /** A trip to a target among the vacant sites is aimed at one of them. */
  lemma TripsAimed(vacant: seq<Site>, trips: seq<Trip>, trip: Trip, choice: Site)
    requires forall k :: 0 <= k < |trips| ==> trips[k].colony == null && Aimed(trips[k], vacant)
    requires choice in vacant && trip.distance == choice.distance && trip.to == choice.planet && trip.colony == null
    ensures forall k :: 0 <= k < |trips + [trip]| ==>
      (trips + [trip])[k].colony == null && Aimed((trips + [trip])[k], vacant)
  {
    assert Aimed(trip, vacant);
  }

  // ---------------------------------------------------------------------------
  // Offworld settlers (inhabitedplanet.py:243-307)

  /** settlers_for_planet: the settlers each colony is to receive. */
  type Queues = map<InhabitedPlanet, seq<Mover>>

  /** planet_for_settlers: the colonies that would take each settler. */
  type Prospects = map<Mover, seq<InhabitedPlanet>>

  /** A colony's queue; the defaultdict gives an empty one for a colony it
      lacks. */
  function Queue(q: Queues, ip: InhabitedPlanet): seq<Mover>
  {
    if ip in q then q[ip] else []
  }

  /** A settler's prospects; empty for a settler the defaultdict lacks. */
  function Prospect(p: Prospects, m: Mover): seq<InhabitedPlanet>
  {
    if m in p then p[m] else []
  }

  /** Some government of a site with these opinions suits the settler: the
      any(...) of migrate_pops. */
  function Accepts(os: seq<Opinion>): Mover -> bool
  {
    (m: Mover) => FirstSuitable(os, m.1) < |os|
  }

  /** Each mover of ms paired with colony ip. */
  function Tag(ip: InhabitedPlanet, ms: seq<Mover>): (r: seq<(InhabitedPlanet, Mover)>)
    ensures |r| == |ms| && forall k :: 0 <= k < |ms| ==> r[k] == (ip, ms[k])
  {
    seq(|ms|, k requires 0 <= k < |ms| => (ip, ms[k]))
  }

  /** The pairs a site contributes: its colony with each settler one of its
      governments suits; nothing for a site without a colony. */
  function SiteWants(t: Site, movers: seq<Mover>): seq<(InhabitedPlanet, Mover)>
  {
    if t.colony == null then [] else Tag(t.colony, Filter(movers, Accepts(t.opinions)))
  }

  /** The (colony, settler) pairs the survey records, site by site. */
  function Wants(sites: seq<Site>, movers: seq<Mover>): seq<(InhabitedPlanet, Mover)>
  {
    if sites == [] then []
    else
      var n := |sites| - 1;
      Wants(sites[..n], movers) + SiteWants(sites[n], movers)
  }

  /** The settlers paired with colony ip, in order. */
  function QueueOf(pairs: seq<(InhabitedPlanet, Mover)>, ip: InhabitedPlanet): seq<Mover>
  {
    if pairs == [] then []
    else
      var n := |pairs| - 1;
      QueueOf(pairs[..n], ip) + (if pairs[n].0 == ip then [pairs[n].1] else [])
  }

  /** The colonies paired with settler m, in order. */
  function ProspectOf(pairs: seq<(InhabitedPlanet, Mover)>, m: Mover): seq<InhabitedPlanet>
  {
    if pairs == [] then []
    else
      var n := |pairs| - 1;
      ProspectOf(pairs[..n], m) + (if pairs[n].1 == m then [pairs[n].0] else [])
  }

  /** The queues the pairs build, one append per pair. */
  function QueuesOf(pairs: seq<(InhabitedPlanet, Mover)>): Queues
  {
    if pairs == [] then map[]
    else
      var n := |pairs| - 1;
      var q := QueuesOf(pairs[..n]);
      q[pairs[n].0 := Queue(q, pairs[n].0) + [pairs[n].1]]
  }

  /** The prospect lists the pairs build, one append per pair. */
  function ProspectsOf(pairs: seq<(InhabitedPlanet, Mover)>): Prospects
  {
    if pairs == [] then map[]
    else
      var n := |pairs| - 1;
      var p := ProspectsOf(pairs[..n]);
      p[pairs[n].1 := Prospect(p, pairs[n].1) + [pairs[n].0]]
  }

  /** Each colony's queue lists the settlers paired with it, in order. */
  lemma {:induction false} QueuesOfIs(pairs: seq<(InhabitedPlanet, Mover)>, ip: InhabitedPlanet)
    ensures Queue(QueuesOf(pairs), ip) == QueueOf(pairs, ip)
  {
    if pairs != [] {
      QueuesOfIs(pairs[..|pairs| - 1], ip);
    }
  }

  /** Each settler's prospects list the colonies paired with it, in order. */
  lemma {:induction false} ProspectsOfIs(pairs: seq<(InhabitedPlanet, Mover)>, m: Mover)
    ensures Prospect(ProspectsOf(pairs), m) == ProspectOf(pairs, m)
  {
    if pairs != [] {
      ProspectsOfIs(pairs[..|pairs| - 1], m);
    }
  }

  /** The colonies in reach that some settler wants, each with its distance,
      in survey order: settleable_planets before the loop. */
  function Settleable(sites: seq<Site>, movers: seq<Mover>): seq<(real, InhabitedPlanet)>
  {
    if sites == [] then []
    else
      var n := |sites| - 1;
      var t := sites[n];
      Settleable(sites[..n], movers)
      + (if t.colony != null && Filter(movers, Accepts(t.opinions)) != [] then [(t.distance, t.colony)] else [])
  }

  /** The survey of the colonies in reach (inhabitedplanet.py:249-268): for
      each site with a colony, every settler one of its governments suits
      joins its queue and gains it as a prospect, and a colony that gained
      anyone is settleable. */
  method Demand(sites: seq<Site>, movers: seq<Mover>) returns (q: Queues, p: Prospects, settleable: seq<(real, InhabitedPlanet)>)
    ensures q == QueuesOf(Wants(sites, movers)) && p == ProspectsOf(Wants(sites, movers))
    ensures settleable == Settleable(sites, movers)
  {
    q, p, settleable := map[], map[], [];
    ghost var pairs := [];
    for i := 0 to |sites|
      invariant pairs == Wants(sites[..i], movers) && q == QueuesOf(pairs) && p == ProspectsOf(pairs)
      invariant settleable == Settleable(sites[..i], movers)
    {
      var t := sites[i];
      DemandStep(sites, i, movers);
      if t.colony != null {
        var chosen;
        q, p, chosen, pairs := Enlist(t.colony, t.opinions, movers, q, p, pairs);
        if chosen {
          settleable := settleable + [(t.distance, t.colony)];
        }
      }
    }
    assert sites[..|sites|] == sites;
  }

  /** One more site surveyed: the pairs and the settleable colonies grow by
      what that site contributes. */
  lemma DemandStep(sites: seq<Site>, i: nat, movers: seq<Mover>)
    requires i < |sites|
    ensures Wants(sites[..i + 1], movers) == Wants(sites[..i], movers) + SiteWants(sites[i], movers)
    ensures Settleable(sites[..i + 1], movers)
            == Settleable(sites[..i], movers)
               + (if sites[i].colony != null && Filter(movers, Accepts(sites[i].opinions)) != []
                  then [(sites[i].distance, sites[i].colony)] else [])
  {
    assert sites[..i + 1][..i] == sites[..i];
  }

  /** The inner loop of the survey: the settlers a colony's governments suit. */
  method Enlist(ip: InhabitedPlanet, os: seq<Opinion>, movers: seq<Mover>, q: Queues, p: Prospects,
                ghost pairs: seq<(InhabitedPlanet, Mover)>)
    returns (q': Queues, p': Prospects, chosen: bool, ghost pairs': seq<(InhabitedPlanet, Mover)>)
    requires q == QueuesOf(pairs) && p == ProspectsOf(pairs)
    ensures pairs' == pairs + Tag(ip, Filter(movers, Accepts(os)))
    ensures q' == QueuesOf(pairs') && p' == ProspectsOf(pairs')
    ensures chosen == (Filter(movers, Accepts(os)) != [])
  {
    q', p', chosen, pairs' := q, p, false, pairs;
    assert movers[..0] == [];
    for j := 0 to |movers|
      invariant Enlisted(ip, os, movers[..j], q', p', chosen, pairs, pairs')
    {
      q', p', chosen, pairs' := EnlistNext(ip, os, movers, j, q', p', chosen, pairs, pairs');
    }
    assert movers[..|movers|] == movers;
  }

  /** What the survey's inner loop holds once it has considered ms: the
      settlers the governments suit are queued, in order. */
  ghost predicate Enlisted(ip: InhabitedPlanet, os: seq<Opinion>, ms: seq<Mover>, q: Queues, p: Prospects, chosen: bool,
                           pairs: seq<(InhabitedPlanet, Mover)>, pairs': seq<(InhabitedPlanet, Mover)>)
  {
    && pairs' == pairs + Tag(ip, Filter(ms, Accepts(os)))
    && q == QueuesOf(pairs') && p == ProspectsOf(pairs')
    && chosen == (Filter(ms, Accepts(os)) != [])
  }

  /** One turn of the survey's inner loop: settler j joins the colony's
      queue when a government there suits it. */
  method EnlistNext(ip: InhabitedPlanet, os: seq<Opinion>, movers: seq<Mover>, j: nat, q: Queues, p: Prospects,
                    chosen: bool, ghost pairs: seq<(InhabitedPlanet, Mover)>, ghost pairs': seq<(InhabitedPlanet, Mover)>)
    returns (q2: Queues, p2: Prospects, chosen2: bool, ghost pairs2: seq<(InhabitedPlanet, Mover)>)
    requires j < |movers| && Enlisted(ip, os, movers[..j], q, p, chosen, pairs, pairs')
    ensures Enlisted(ip, os, movers[..j + 1], q2, p2, chosen2, pairs, pairs2)
  {
    var m := movers[j];
    EnlistStep(pairs, ip, movers, j, Accepts(os));
    q2, p2, chosen2, pairs2 := q, p, chosen, pairs';
    if Accepts(os)(m) {
      IndexSnoc(pairs', ip, m);
      q2 := q[ip := Queue(q, ip) + [m]];
      p2 := p[m := Prospect(p, m) + [ip]];
      pairs2 := pairs' + [(ip, m)];
      chosen2 := true;
    }
  }

  /** One more settler considered: the pairs grow by it exactly when it is
      kept. */
  lemma EnlistStep(pairs: seq<(InhabitedPlanet, Mover)>, ip: InhabitedPlanet, movers: seq<Mover>, j: nat, keep: Mover -> bool)
    requires j < |movers|
    ensures Filter(movers[..j + 1], keep) == Filter(movers[..j], keep) + (if keep(movers[j]) then [movers[j]] else [])
    ensures pairs + Tag(ip, Filter(movers[..j + 1], keep))
            == pairs + Tag(ip, Filter(movers[..j], keep)) + (if keep(movers[j]) then [(ip, movers[j])] else [])
  {
    var m := movers[j];
    assert movers[..j + 1] == movers[..j] + [m];
    FilterAppend(movers[..j], [m], keep);
    var one: seq<Mover> := [m];
    assert one[1..] == [];
  }

  /** One more pair appends to one queue and one prospect list. */
  lemma IndexSnoc(pairs: seq<(InhabitedPlanet, Mover)>, ip: InhabitedPlanet, m: Mover)
    ensures QueuesOf(pairs + [(ip, m)]) == QueuesOf(pairs)[ip := Queue(QueuesOf(pairs), ip) + [m]]
    ensures ProspectsOf(pairs + [(ip, m)]) == ProspectsOf(pairs)[m := Prospect(ProspectsOf(pairs), m) + [ip]]
  {
    assert (pairs + [(ip, m)])[..|pairs|] == pairs;
  }

  /** Some government of a site of sites with colony ip suits the pop. */
  ghost predicate Welcomes(sites: seq<Site>, ip: InhabitedPlanet, pop: Population)
  {
    exists t :: t in sites && t.colony == ip && FirstSuitable(t.opinions, pop) < |t.opinions|
  }

  /** Every settler queued for a colony is one some government there suits. */
  ghost predicate Welcomed(q: Queues, sites: seq<Site>)
  {
    forall ip, m :: ip in q && m in q[ip] ==> Welcomes(sites, ip, m.1)
  }

  lemma {:induction false} QueueMember(pairs: seq<(InhabitedPlanet, Mover)>, ip: InhabitedPlanet, m: Mover)
    requires m in QueueOf(pairs, ip)
    ensures (ip, m) in pairs
  {
    var n := |pairs| - 1;
    if m in QueueOf(pairs[..n], ip) {
      QueueMember(pairs[..n], ip, m);
      assert (ip, m) in pairs[..n];
    } else {
      assert pairs[n] == (ip, m);
    }
  }

  /** Every pair the survey records joins a colony to a settler of movers
      that one of its governments suits. */
  lemma {:induction false} WantsMember(sites: seq<Site>, movers: seq<Mover>, pr: (InhabitedPlanet, Mover))
    requires pr in Wants(sites, movers)
    ensures pr.1 in movers && Welcomes(sites, pr.0, pr.1.1)
  {
    var n := |sites| - 1;
    if pr in Wants(sites[..n], movers) {
      WantsMember(sites[..n], movers, pr);
      var t :| t in sites[..n] && t.colony == pr.0 && FirstSuitable(t.opinions, pr.1.1) < |t.opinions|;
      assert t in sites;
    } else {
      var t := sites[n];
      var k :| 0 <= k < |SiteWants(t, movers)| && SiteWants(t, movers)[k] == pr;
      assert t in sites;
    }
  }

  /** The queues the survey builds are welcomed: each settler on a colony's
      queue is suited by one of its governments. */
  lemma SurveyWelcomed(sites: seq<Site>, movers: seq<Mover>)
    ensures Welcomed(QueuesOf(Wants(sites, movers)), sites)
  {
    var pairs := Wants(sites, movers);
    forall ip, m | ip in QueuesOf(pairs) && m in QueuesOf(pairs)[ip]
      ensures Welcomes(sites, ip, m.1)
    {
      QueuesOfIs(pairs, ip);
      QueueMember(pairs, ip, m);
      WantsMember(sites, movers, (ip, m));
    }
  }

  /** q2 has the colonies of q, each queue holding only what it held. */
  ghost predicate Shrunk(q: Queues, q2: Queues)
  {
    q2.Keys == q.Keys && forall ip :: ip in q ==> multiset(q2[ip]) <= multiset(q[ip])
  }

  /** Queues that only shrink stay welcomed. */
  lemma WelcomedShrunk(q: Queues, q2: Queues, sites: seq<Site>)
    requires Welcomed(q, sites) && Shrunk(q, q2)
    ensures Welcomed(q2, sites)
  {
    forall ip, m | ip in q2 && m in q2[ip]
      ensures Welcomes(sites, ip, m.1)
    {
      assert m in multiset(q2[ip]);
    }
  }

  /** Removing a settler that has just boarded from the queues of every
      other colony it was a prospect for; a queue it is missing from is a
      ValueError. */
  function Withdrawn(q: Queues, m: Mover, target: InhabitedPlanet, cands: seq<InhabitedPlanet>): Result<Queues>
  {
    if cands == [] then Ok(q)
    else
      var n := |cands| - 1;
      var r := Withdrawn(q, m, target, cands[..n]);
      var c := cands[n];
      if r.Err? || c == target then r
      else if m !in Queue(r.value, c) then Err(NotInList)
      else Ok(r.value[c := RemoveFirst(r.value[c], m)])
  }

  /** Withdrawing only shrinks the queues of the candidates, leaving the
      target's and every other colony's as they were. */
  lemma {:induction false} WithdrawnShrinks(q: Queues, m: Mover, target: InhabitedPlanet, cands: seq<InhabitedPlanet>)
    requires Withdrawn(q, m, target, cands).Ok?
    ensures var r := Withdrawn(q, m, target, cands).value;
      && Shrunk(q, r) && Queue(r, target) == Queue(q, target)
      && forall ip :: ip in q && ip !in cands ==> r[ip] == q[ip]
  {
    if cands != [] {
      var n := |cands| - 1;
      WithdrawnShrinks(q, m, target, cands[..n]);
      var r := Withdrawn(q, m, target, cands[..n]).value;
      var c := cands[n];
      if c != target {
        RemoveShrunk(r, c, m);
        ShrunkTrans(q, r, r[c := RemoveFirst(r[c], m)]);
      }
      forall ip | ip in q && ip !in cands
        ensures ip !in cands[..n]
      {
      }
    }
  }

  /** Once withdrawing fails on a prefix of the candidates, it fails. */
  lemma {:induction false} WithdrawnFails(q: Queues, m: Mover, target: InhabitedPlanet, cands: seq<InhabitedPlanet>, i: nat)
    requires i <= |cands| && Withdrawn(q, m, target, cands[..i]).Err?
    ensures Withdrawn(q, m, target, cands).Err?
    decreases |cands| - i
  {
    if i < |cands| {
      assert cands[..i + 1][..i] == cands[..i];
      WithdrawnFails(q, m, target, cands, i + 1);
    } else {
      assert cands[..i] == cands;
    }
  }

  lemma RemoveShrunk(r: Queues, c: InhabitedPlanet, m: Mover)
    requires c in r && m in r[c]
    ensures Shrunk(r, r[c := RemoveFirst(r[c], m)])
  {
  }

  /** The for loop over a boarded settler's prospects (inhabitedplanet.py:293-296). */
  method Withdraw(q: Queues, m: Mover, target: InhabitedPlanet, cands: seq<InhabitedPlanet>)
    returns (fault: Option<Fault>, q2: Queues)
    ensures fault.None? <==> Withdrawn(q, m, target, cands).Ok?
    ensures fault.None? ==> q2 == Withdrawn(q, m, target, cands).value
    ensures fault.Some? ==> fault == Some(NotInList)
  {
    q2 := q;
    for i := 0 to |cands|
      invariant Withdrawn(q, m, target, cands[..i]) == Ok(q2)
    {
      assert cands[..i + 1][..i] == cands[..i];
      var c := cands[i];
      if c != target {
        var queue := Queue(q2, c);
        if m !in queue {
          WithdrawnFails(q, m, target, cands, i + 1);
          return Some(NotInList), q2;
        }
        q2 := q2[c := RemoveFirst(queue, m)];
      }
    }
    assert cands[..|cands|] == cands;
    fault := None;
  }

  /** What the cargo loop has done so far: settlers popped from the end of
      the target's queue, each taken off the waiting list, the queues only
      shrunk, the cargo their pops, within the ship's capacity. */
  ghost predicate Loading(target: InhabitedPlanet, capacity: int, q: Queues, waiting: seq<Mover>,
                          q2: Queues, waiting2: seq<Mover>, cargo: seq<Population>, boarded: seq<Mover>)
  {
    && Popped(Queue(q, target), Queue(q2, target), boarded)
    && Shrunk(q, q2)
    && cargo == PopsOf(boarded) && |cargo| <= Max(0, capacity)
    && multiset(waiting2) + multiset(boarded) == multiset(waiting)
  }

  /** rest is what popping boarded from the end of line leaves. */
  ghost predicate Popped(line: seq<Mover>, rest: seq<Mover>, boarded: seq<Mover>)
  {
    && |rest| <= |line| && rest == line[..|rest|] && boarded == Reverse(line[|rest|..])
    && (forall m :: m in boarded ==> m in line)
  }

  /** The cargo loop (inhabitedplanet.py:288-298): while the target still
      has settlers queued and the ship has room, the last one queued boards;
      it leaves the waiting list (a ValueError when it is not on it) and
      every other colony's queue. It stops with the queue empty or the ship
      full. */
  method Load(target: InhabitedPlanet, capacity: int, q: Queues, p: Prospects, waiting: seq<Mover>)
    returns (fault: Option<Fault>, q2: Queues, waiting2: seq<Mover>, cargo: seq<Population>, ghost boarded: seq<Mover>)
    ensures fault.None? ==> Loading(target, capacity, q, waiting, q2, waiting2, cargo, boarded)
    ensures fault.None? ==> Queue(q2, target) == [] || |cargo| >= capacity
  {
    q2, waiting2, cargo, boarded := q, waiting, [], [];
    fault := None;
    assert Queue(q, target)[|Queue(q, target)|..] == [];
    while Queue(q2, target) != [] && |cargo| < capacity
      invariant Loading(target, capacity, q, waiting, q2, waiting2, cargo, boarded)
      decreases |Queue(q2, target)|
    {
      fault, q2, waiting2, cargo, boarded := Board1(target, capacity, q, p, waiting, q2, waiting2, cargo, boarded);
      if fault.Some? {
        return;
      }
    }
  }

  /** One turn of the cargo loop (inhabitedplanet.py:288-297): the settler
      at the back of the colony's queue leaves the waiting list, the other
      queues and its prospects, and boards. */
  method Board1(target: InhabitedPlanet, capacity: int, q: Queues, p: Prospects, waiting: seq<Mover>,
                q2: Queues, waiting2: seq<Mover>, cargo: seq<Population>, ghost boarded: seq<Mover>)
    returns (fault: Option<Fault>, q3: Queues, waiting3: seq<Mover>, cargo3: seq<Population>, ghost boarded3: seq<Mover>)
    requires Loading(target, capacity, q, waiting, q2, waiting2, cargo, boarded)
    requires Queue(q2, target) != [] && |cargo| < capacity
    ensures fault.None? ==>
      Loading(target, capacity, q, waiting, q3, waiting3, cargo3, boarded3)
      && |Queue(q3, target)| < |Queue(q2, target)|
  {
    var line := Queue(q2, target);
    var m := line[|line| - 1];
    var popped := q2[target := line[..|line| - 1]];
    waiting3, cargo3, boarded3 := waiting2, cargo, boarded;
    if m !in waiting2 {
      return Some(NotInList), popped, waiting2, cargo, boarded;
    }
    fault, q3 := Withdraw(popped, m, target, Prospect(p, m));
    if fault.Some? {
      return;
    }
    WithdrawnShrinks(popped, m, target, Prospect(p, m));
    LoadStep(target, capacity, q, waiting, q2, waiting2, cargo, boarded, popped, q3);
    waiting3, cargo3, boarded3 := RemoveFirst(waiting2, m), cargo + [m.1], boarded + [m];
  }

  /** One settler boarding keeps what the cargo loop holds. */
  lemma LoadStep(target: InhabitedPlanet, capacity: int, q: Queues, waiting: seq<Mover>,
                 q2: Queues, waiting2: seq<Mover>, cargo: seq<Population>, boarded: seq<Mover>,
                 popped: Queues, q3: Queues)
    requires Loading(target, capacity, q, waiting, q2, waiting2, cargo, boarded)
    requires Queue(q2, target) != [] && |cargo| < capacity
    requires var line := Queue(q2, target); popped == q2[target := line[..|line| - 1]]
    requires Queue(q2, target)[|Queue(q2, target)| - 1] in waiting2
    requires Shrunk(popped, q3) && Queue(q3, target) == Queue(popped, target)
    ensures var m := Queue(q2, target)[|Queue(q2, target)| - 1];
      Loading(target, capacity, q, waiting, q3, RemoveFirst(waiting2, m), cargo + [m.1], boarded + [m])
  {
    var line := Queue(q2, target);
    var m := line[|line| - 1];
    PopShrunk(q2, target);
    ShrunkTrans(q, q2, popped);
    ShrunkTrans(q, popped, q3);
    assert Queue(q3, target) == line[..|line| - 1];
    LineStep(Queue(q, target), line, boarded);
    Boards(waiting, waiting2, capacity, cargo, boarded, m);
  }

  /** One more settler aboard: its pop joins the cargo and it leaves the
      waiting list. */
  lemma Boards(waiting: seq<Mover>, waiting2: seq<Mover>, capacity: int, cargo: seq<Population>,
               boarded: seq<Mover>, m: Mover)
    requires cargo == PopsOf(boarded) && |cargo| < capacity
    requires multiset(waiting2) + multiset(boarded) == multiset(waiting) && m in waiting2
    ensures cargo + [m.1] == PopsOf(boarded + [m]) && |cargo + [m.1]| <= Max(0, capacity)
    ensures multiset(RemoveFirst(waiting2, m)) + multiset(boarded + [m]) == multiset(waiting)
  {
    PopsOfAppend(boarded, [m]);
  }

  /** Popping the end of one queue only shrinks the queues. */
  lemma PopShrunk(q: Queues, target: InhabitedPlanet)
    requires Queue(q, target) != []
    ensures var line := Queue(q, target); Shrunk(q, q[target := line[..|line| - 1]])
  {
    var line := Queue(q, target);
    var n := |line| - 1;
    assert line == line[..n] + [line[n]];
  }

  lemma ShrunkTrans(a: Queues, b: Queues, c: Queues)
    requires Shrunk(a, b) && Shrunk(b, c)
    ensures Shrunk(a, c)
  {
  }

  /** Popping the end of what is left of a queue extends the boarding order. */
  lemma LineStep(line0: seq<Mover>, line: seq<Mover>, boarded: seq<Mover>)
    requires line != [] && Popped(line0, line, boarded)
    ensures Popped(line0, line[..|line| - 1], boarded + [line[|line| - 1]])
  {
    var n := |line| - 1;
    PopOrder(line0, |line|);
    assert line[n] == line0[n];
  }

  /** The colonies of the list with some settler still queued for them, in
      order: the filter of the dispatch loop. */
  function Owing(planets: seq<(real, InhabitedPlanet)>, q: Queues): (r: seq<(real, InhabitedPlanet)>)
    ensures forall i :: 0 <= i < |r| ==> r[i] in planets && |Queue(q, r[i].1)| > 0
    ensures forall i :: 0 <= i < |planets| && |Queue(q, planets[i].1)| > 0 ==> planets[i] in r
  {
    if planets == [] then []
    else
      assert planets == [planets[0]] + planets[1..];
      (if |Queue(q, planets[0].1)| > 0 then [planets[0]] else []) + Owing(planets[1..], q)
  }

  /** How many settlers are queued for the colony: the sort key. */
  function Wanted(q: Queues): ((real, InhabitedPlanet)) -> real
  {
    (t: (real, InhabitedPlanet)) => |Queue(q, t.1)| as real
  }

  /** The last three entries, or all of them when there are fewer. */
  function Top<T>(xs: seq<T>): (r: seq<T>)
    ensures |r| == Min(3, |xs|) && r == xs[|xs| - |r|..]
  {
    xs[|xs| - Min(3, |xs|)..]
  }

  /** The colonies a turn of the dispatch loop draws from: of those on the
      list with settlers still queued, sorted by how many, the last three. */
  function Drawn(planets: seq<(real, InhabitedPlanet)>, q: Queues): seq<(real, InhabitedPlanet)>
  {
    Top(SortBy(Owing(planets, q), Wanted(q)))
  }

  /** A turn drawing from top cannot send a ship: there is nothing to draw
      from, or one of the colonies it may draw is beyond every docked ship. */
  ghost predicate Stalled(top: seq<(real, InhabitedPlanet)>, docked: seq<Starship>)
  {
    top == [] || exists c :: c in top && forall k :: 0 <= k < |docked| ==> docked[k].Range() < c.0
  }

  /** The list of settleable colonies as the dispatch loop keeps it, with
      the queues it keeps beside it: the queues only shrank from those of
      the survey, the list holds only settleable colonies, and no colony
      with settlers still queued has left it. */
  ghost predicate Tracked(settleable: seq<(real, InhabitedPlanet)>, q: Queues,
                          planets: seq<(real, InhabitedPlanet)>, owed: Queues)
  {
    && Shrunk(q, owed)
    && (forall c :: c in planets ==> c in settleable)
    && (forall c :: c in settleable && |Queue(owed, c.1)| > 0 ==> c in planets)
  }

  /** A queue that shrank is no longer. */
  lemma ShrunkQueue(q: Queues, q2: Queues, ip: InhabitedPlanet)
    requires Shrunk(q, q2)
    ensures |Queue(q2, ip)| <= |Queue(q, ip)|
  {
    if ip in q2 {
      var a, b := multiset(q2[ip]), multiset(q[ip]);
      assert b == a + (b - a);
    }
  }

  /** Sorting the colonies with settlers queued keeps just those of the list. */
  lemma Resorted(planets: seq<(real, InhabitedPlanet)>, q: Queues)
    ensures forall c :: c in SortBy(Owing(planets, q), Wanted(q)) ==> c in planets
    ensures forall c :: c in planets && |Queue(q, c.1)| > 0 ==> c in SortBy(Owing(planets, q), Wanted(q))
  {
    var kept := Owing(planets, q);
    var sorted := SortBy(kept, Wanted(q));
    SortByOrders(kept, Wanted(q));
    forall c | c in sorted
      ensures c in planets
    {
      assert c in multiset(sorted);
    }
    forall c | c in planets && |Queue(q, c.1)| > 0
      ensures c in sorted
    {
      var i :| 0 <= i < |planets| && planets[i] == c;
      assert c in multiset(kept);
    }
  }

  /** A turn that keeps what it drops to colonies owed nothing keeps the
      list tracked. */
  lemma TrackedStep(settleable: seq<(real, InhabitedPlanet)>, q0: Queues, planets: seq<(real, InhabitedPlanet)>,
                    q: Queues, planets': seq<(real, InhabitedPlanet)>, q': Queues)
    requires Tracked(settleable, q0, planets, q) && Shrunk(q, q')
    requires forall c :: c in planets' ==> c in planets
    requires forall c :: c in planets && |Queue(q', c.1)| > 0 ==> c in planets'
    ensures Tracked(settleable, q0, planets', q')
  {
    ShrunkTrans(q0, q, q');
    forall c | c in settleable && |Queue(q', c.1)| > 0
      ensures c in planets'
    {
      ShrunkQueue(q, q', c.1);
    }
  }

  /** Drawing from the top three of a list sorted by demand picks a colony
      wanted at least as much as any not among them. */
  lemma TopThree<T>(xs: seq<T>, key: T -> real, x: T)
    requires Ascending(xs, key) && x in Top(xs)
    ensures forall j :: 0 <= j < |xs| - |Top(xs)| ==> key(xs[j]) <= key(x)
  {
    var top := Top(xs);
    var i :| 0 <= i < |top| && top[i] == x;
    assert xs[|xs| - |top| + i] == x;
  }

  /** The trip went to one of the colonies drawn from. */
  ghost predicate Picked(t: Trip, top: seq<(real, InhabitedPlanet)>)
  {
    exists c :: c in top && c.0 == t.distance && c.1 == t.colony
  }

  /** A trip to a colony: bound for its planet, carrying only pops one of
      its governments suits. */
  ghost predicate Greeted(t: Trip, sites: seq<Site>)
  {
    && t.colony != null && t.to == t.colony.planet
    && forall i :: 0 <= i < |t.cargo| ==> Welcomes(sites, t.colony, t.cargo[i])
  }

  /** What holds at each turn of the dispatch loop: the books of the
      departures so far, each to a colony that welcomes everyone aboard; the
      docked ships are ships of the fleet; and the queues are welcomed. */
  ghost predicate Dispatching(ships: seq<Starship>, movers: seq<Mover>, sites: seq<Site>, docked: seq<Starship>,
                              waiting: seq<Mover>, q: Queues, leaving: seq<Starship>, trips: seq<Trip>,
                              shipped: seq<Mover>)
  {
    && Voyage(ships, movers, docked, waiting, leaving, trips, shipped)
    && (forall s :: s in docked ==> s in ships)
    && (forall k :: 0 <= k < |trips| ==> Greeted(trips[k], sites))
    && Welcomed(q, sites)
  }

  /** The dispatch loop (inhabitedplanet.py:270-307): while settlers, ships
      and settleable colonies remain, a ship carries settlers to one of the
      three colonies with most settlers queued. Every ship that leaves was
      docked, goes no farther than its range and carries no more than it
      holds; every settler either boards or waits; and every pop aboard is
      suited by a government of the colony it goes to. The loop stops only
      when the settlers or the ships run out or the last turn stalled; left
      and owed are the list and the queues that turn drew by. */
  method Dispatch(colony: InhabitedPlanet, ghost sites: seq<Site>, movers: seq<Mover>, ships: seq<Starship>,
                  q: Queues, p: Prospects, settleable: seq<(real, InhabitedPlanet)>)
    returns (fault: Option<Fault>, waiting: seq<Mover>, docked: seq<Starship>, leaving: seq<Starship>,
             ghost trips: seq<Trip>, ghost shipped: seq<Mover>, ghost left: seq<(real, InhabitedPlanet)>,
             ghost owed: Queues)
    requires Welcomed(q, sites)
    modifies ships
    ensures fault.None? ==> Voyage(ships, movers, docked, waiting, leaving, trips, shipped)
    ensures fault.None? ==> forall k :: 0 <= k < |trips| ==> Greeted(trips[k], sites)
    ensures fault.None? ==> Tracked(settleable, q, left, owed)
    ensures fault.None? ==> waiting == [] || docked == [] || Stalled(Drawn(left, owed), docked)
  {
    waiting, docked, leaving, trips, shipped := movers, ships, [], [], [];
    var queues, planets := q, settleable;
    left, owed := settleable, q;
    fault := None;
    var stuck := false;
    while waiting != [] && docked != [] && planets != [] && !stuck
      invariant Dispatching(ships, movers, sites, docked, waiting, queues, leaving, trips, shipped)
      invariant Tracked(settleable, q, planets, queues)
      invariant stuck ==> Tracked(settleable, q, left, owed) && Stalled(Drawn(left, owed), docked)
      decreases |docked|, !stuck
    {
      ghost var before, queued := planets, queues;
      fault, stuck, planets, queues, waiting, docked, leaving, trips, shipped :=
        Deliver(colony, ships, movers, sites, p, planets, queues, docked, waiting, leaving, trips, shipped);
      if fault.Some? {
        return;
      }
      TrackedStep(settleable, q, before, queued, planets, queues);
      if stuck {
        left, owed := before, queued;
      }
    }
    if !stuck {
      left, owed := planets, queues;
    }
  }

  /** One turn of the dispatch loop: the settleable colonies are cut to
      those with settlers still queued and sorted by how many; one of the
      last three is drawn, and unless no ship reaches it (or none is left
      to draw from) a ship in range takes its settlers; the colony goes back
      on the list while settlers are still queued for it. */
  method Deliver(colony: InhabitedPlanet, ghost ships: seq<Starship>, ghost movers: seq<Mover>, ghost sites: seq<Site>,
                 p: Prospects, planets: seq<(real, InhabitedPlanet)>, q: Queues, docked: seq<Starship>,
                 waiting: seq<Mover>, leaving: seq<Starship>, ghost trips: seq<Trip>, ghost shipped: seq<Mover>)
    returns (fault: Option<Fault>, stuck: bool, planets': seq<(real, InhabitedPlanet)>, q': Queues,
             waiting': seq<Mover>, docked': seq<Starship>, leaving': seq<Starship>,
             ghost trips': seq<Trip>, ghost shipped': seq<Mover>)
    requires Dispatching(ships, movers, sites, docked, waiting, q, leaving, trips, shipped)
    modifies ships
    ensures fault.None? ==> Dispatching(ships, movers, sites, docked', waiting', q', leaving', trips', shipped')
    ensures fault.None? ==> Shrunk(q, q')
    ensures fault.None? ==> forall c :: c in planets' ==> c in planets
    ensures fault.None? ==> forall c :: c in planets && |Queue(q', c.1)| > 0 ==> c in planets'
    ensures fault.None? && stuck ==> docked' == docked && Stalled(Drawn(planets, q), docked)
    ensures fault.None? && !stuck ==>
      && |docked'| < |docked| && |trips'| == |trips| + 1
      && Picked(trips'[|trips|], Drawn(planets, q))
  {
    var sorted := SortBy(Owing(planets, q), Wanted(q));
    Resorted(planets, q);
    planets', q', waiting', docked', leaving', trips', shipped' := sorted, q, waiting, docked, leaving, trips, shipped;
    fault, stuck := None, true;
    var top := Top(sorted);
    if top == [] || docked == [] {
      // with no ship left, every ship falls short of any colony drawn
      if top != [] {
        assert top[0] in top;
      }
      return;
    }
    var chosen, ship, found := Pick(top, docked);
    if !found {
      return;
    }
    stuck := false;
    fault, q', waiting', docked', leaving', trips', shipped' :=
      Send(colony, ships, movers, sites, p, q, docked, waiting, leaving, trips, shipped, ship, chosen.1, chosen.0);
    if fault.None? {
      forall c | c in planets && |Queue(q', c.1)| > 0
        ensures c in sorted
      {
        ShrunkQueue(q, q', c.1);
      }
      if |Queue(q', chosen.1)| > 0 {
        assert chosen in sorted;
        planets' := sorted + [chosen];
      }
    }
  }

  /** rng.choice among the top colonies, then rng.choice among the ships
      until one reaches it; found is false when no docked ship reaches the
      colony drawn. */
  method Pick(top: seq<(real, InhabitedPlanet)>, docked: seq<Starship>)
    returns (chosen: (real, InhabitedPlanet), ship: Starship, found: bool)
    requires top != [] && docked != []
    ensures chosen in top
    ensures found ==> ship in docked && ship.Range() >= chosen.0
    ensures !found ==> forall k :: 0 <= k < |docked| ==> docked[k].Range() < chosen.0
  {
    assert top[0] in top;
    chosen :| chosen in top;
    ship := docked[0];
    if forall k :: 0 <= k < |docked| ==> docked[k].Range() < chosen.0 {
      return chosen, ship, false;
    }
    ghost var k :| 0 <= k < |docked| && docked[k].Range() >= chosen.0;
    assert docked[k] in docked;
    ship :| ship in docked && ship.Range() >= chosen.0;
    found := true;
  }

  /** One settler ship (inhabitedplanet.py:288-300): the ship leaves the
      docked ones, its cargo comes off the colony's queue, and it travels
      there. */
  method Send(colony: InhabitedPlanet, ghost ships: seq<Starship>, ghost movers: seq<Mover>, ghost sites: seq<Site>,
              p: Prospects, q: Queues, docked: seq<Starship>, waiting: seq<Mover>, leaving: seq<Starship>,
              ghost trips: seq<Trip>, ghost shipped: seq<Mover>, ship: Starship, target: InhabitedPlanet, d: real)
    returns (fault: Option<Fault>, q': Queues, waiting': seq<Mover>, docked': seq<Starship>, leaving': seq<Starship>,
             ghost trips': seq<Trip>, ghost shipped': seq<Mover>)
    requires Dispatching(ships, movers, sites, docked, waiting, q, leaving, trips, shipped)
    requires ship in docked && ship.Range() >= d
    modifies ships
    ensures fault.None? ==> Dispatching(ships, movers, sites, docked', waiting', q', leaving', trips', shipped')
    ensures fault.None? ==> Shrunk(q, q')
    ensures fault.None? ==>
      && docked' == RemoveFirst(docked, ship) && |trips'| == |trips| + 1
      && trips'[|trips|].distance == d && trips'[|trips|].colony == target
  {
    q', waiting', leaving', trips', shipped' := q, waiting, leaving, trips, shipped;
    docked' := RemoveFirst(docked, ship);
    var cargo;
    ghost var boarded;
    fault, q', waiting', cargo, boarded := Load(target, ship.capacity, q, p, waiting);
    if fault.Some? {
      return;
    }
    leaving' := leaving + [ship];
    var objectiveYears: nat, subjectiveYears: nat :| true;
    assert forall i :: 0 <= i < |docked| ==> docked[i] in ships;
    fault := ship.TravelTo(colony, cargo, target, null, d, objectiveYears, subjectiveYears);
    if fault.Some? {
      return;
    }
    var trip := Trip(ship, cargo, d, target.planet, target);
    DispatchingStep(ships, movers, sites, docked, waiting, q, leaving, trips, shipped, trip, target, boarded, waiting', q');
    trips', shipped' := trips + [trip], shipped + boarded;
  }

  /** A ship leaving with settlers from a colony's queue keeps what the
      dispatch loop holds. */
  lemma DispatchingStep(ships: seq<Starship>, movers: seq<Mover>, sites: seq<Site>, docked: seq<Starship>,
                        waiting: seq<Mover>, q: Queues, leaving: seq<Starship>, trips: seq<Trip>, shipped: seq<Mover>,
                        trip: Trip, target: InhabitedPlanet, boarded: seq<Mover>, waiting': seq<Mover>, q': Queues)
    requires Dispatching(ships, movers, sites, docked, waiting, q, leaving, trips, shipped)
    requires trip.ship in docked && Fitted(trip) && trip.cargo == PopsOf(boarded)
    requires trip.colony == target && trip.to == target.planet
    requires forall m :: m in boarded ==> m in Queue(q, target)
    requires multiset(waiting') + multiset(boarded) == multiset(waiting)
    requires Shrunk(q, q')
    ensures Dispatching(ships, movers, sites, RemoveFirst(docked, trip.ship), waiting', q',
                        leaving + [trip.ship], trips + [trip], shipped + boarded)
  {
    VoyageStep(ships, movers, docked, waiting, leaving, trips, shipped, trip, boarded, waiting');
    Docked(ships, docked, trip.ship);
    WelcomedShrunk(q, q', sites);
    Greets(sites, q, target, trip, boarded);
    assert forall k :: 0 <= k < |trips| ==> (trips + [trip])[k] == trips[k];
  }

  /** Pops that came off a colony's welcomed queue are welcome there. */
  lemma Greets(sites: seq<Site>, q: Queues, target: InhabitedPlanet, trip: Trip, boarded: seq<Mover>)
    requires Welcomed(q, sites) && forall m :: m in boarded ==> m in Queue(q, target)
    requires trip.colony == target && trip.to == target.planet && trip.cargo == PopsOf(boarded)
    ensures Greeted(trip, sites)
  {
    forall i | 0 <= i < |trip.cargo|
      ensures Welcomes(sites, target, trip.cargo[i])
    {
      assert boarded[i] in boarded;
    }
  }

  // ---------------------------------------------------------------------------
  // Unplaced settlers (inhabitedplanet.py:309-350)

  /** A pop engaged enough to lead a new state: political engagement above
      0.95. */
  function Instigates(m: Mover): bool
  {
    m.1.PoliticalEngagement() > 0.95
  }

  /** The pop would follow the leader: their opinions are closer than the
      pop's tolerance. */
  predicate Tolerates(p: Population, leader: Population)
  {
    p.SimilarityTo(leader) < p.traits.tolerance
  }

  /** The index of the first instigator the pop would follow; |ins| when it
      would follow none. */
  function LeaderOf(ins: seq<Mover>, p: Population): (i: nat)
    ensures i <= |ins|
    ensures i < |ins| ==> Tolerates(p, ins[i].1)
    ensures forall j :: 0 <= j < i ==> !Tolerates(p, ins[j].1)
  {
    if ins == [] then 0
    else if Tolerates(p, ins[0].1) then 0
    else 1 + LeaderOf(ins[1..], p)
  }

  /** The inner for-else of the grouping loop: the first instigator the pop
      would follow. */
  method FindLeader(ins: seq<Mover>, p: Population) returns (j: nat)
    ensures j == LeaderOf(ins, p)
  {
    j := 0;
    while j < |ins| && !Tolerates(p, ins[j].1)
      invariant j <= |ins| && forall k :: 0 <= k < j ==> !Tolerates(p, ins[k].1)
    {
      j := j + 1;
    }
  }

  /** A mover who is no instigator and follows one. */
  function Joins(ins: seq<Mover>): Mover -> bool
  {
    (m: Mover) => m !in ins && LeaderOf(ins, m.1) < |ins|
  }

  /** A mover who is no instigator and follows none. */
  function Strays(ins: seq<Mover>): Mover -> bool
  {
    (m: Mover) => m !in ins && LeaderOf(ins, m.1) == |ins|
  }

  /** The instigator a mover follows (the mover's own pop when none). */
  function Leader(ins: seq<Mover>, m: Mover): Population
  {
    var i := LeaderOf(ins, m.1);
    if i < |ins| then ins[i].1 else m.1
  }

  /** A mover who follows instigator l. */
  function Follows(ins: seq<Mover>, l: Population): Mover -> bool
  {
    (m: Mover) => LeaderOf(ins, m.1) < |ins| && ins[LeaderOf(ins, m.1)].1 == l
  }

  /** possible_new_settlements[l], the defaultdict giving no pops for an
      instigator nobody follows. */
  function Group(groups: map<Population, seq<Population>>, l: Population): seq<Population>
  {
    if l in groups then groups[l] else []
  }

  /** One (instigator, 1) entry per follower: counted, the dictionary's keys
      in insertion order with the lengths of their lists. */
  function Backers(ins: seq<Mover>, joiners: seq<Mover>): (r: seq<(Population, int)>)
    ensures |r| == |joiners| && forall k :: 0 <= k < |joiners| ==> r[k] == (Leader(ins, joiners[k]), 1)
  {
    seq(|joiners|, k requires 0 <= k < |joiners| => (Leader(ins, joiners[k]), 1))
  }

  /** The grouping loop (inhabitedplanet.py:319-328): every mover who is no
      instigator joins the group of the first instigator it would follow,
      or is sent home when it would follow none. */
  method Rally(offworld: seq<Mover>, ins: seq<Mover>)
    returns (groups: map<Population, seq<Population>>, ledger: seq<(Population, int)>, strays: seq<Mover>,
             ghost joiners: seq<Mover>)
    ensures joiners == Filter(offworld, Joins(ins)) && strays == Filter(offworld, Strays(ins))
    ensures ledger == Backers(ins, joiners)
    ensures Rallied(ins, joiners, groups)
  {
    groups, ledger, strays, joiners := map[], [], [], [];
    for i := 0 to |offworld|
      invariant joiners == Filter(offworld[..i], Joins(ins)) && strays == Filter(offworld[..i], Strays(ins))
      invariant ledger == Backers(ins, joiners)
      invariant Rallied(ins, joiners, groups)
    {
      var m := offworld[i];
      RallyStep(offworld, i, ins);
      if m in ins {
        continue;
      }
      var j := FindLeader(ins, m.1);
      if j < |ins| {
        var l := ins[j].1;
        GroupStep(ins, joiners, m);
        RalliedStep(ins, joiners, groups, m);
        groups := groups[l := Group(groups, l) + [m.1]];
        ledger := ledger + [(l, 1)];
        joiners := joiners + [m];
      } else {
        strays := strays + [m];
      }
    }
    assert offworld[..|offworld|] == offworld;
  }

  /** Each instigator's group holds the pops of its followers, in order;
      there is a group exactly when someone joined. */
  ghost predicate Rallied(ins: seq<Mover>, joiners: seq<Mover>, groups: map<Population, seq<Population>>)
  {
    && (forall l :: l in groups ==> l in PopsOf(ins))
    && (forall k :: 0 <= k < |ins| ==> Group(groups, ins[k].1) == PopsOf(Filter(joiners, Follows(ins, ins[k].1))))
    && (groups == map[] <==> joiners == [])
  }

  /** A joiner joins its leader's group. */
  lemma RalliedStep(ins: seq<Mover>, joiners: seq<Mover>, groups: map<Population, seq<Population>>, m: Mover)
    requires Rallied(ins, joiners, groups) && LeaderOf(ins, m.1) < |ins|
    ensures var l := Leader(ins, m); Rallied(ins, joiners + [m], groups[l := Group(groups, l) + [m.1]])
  {
    var l := Leader(ins, m);
    var grown := groups[l := Group(groups, l) + [m.1]];
    RallyKeys(ins, groups, m);
    RallyGroups(ins, joiners, groups, m);
    assert l in grown;
    assert (joiners + [m])[|joiners|] == m;
  }

  lemma RallyKeys(ins: seq<Mover>, groups: map<Population, seq<Population>>, m: Mover)
    requires (forall l :: l in groups ==> l in PopsOf(ins)) && LeaderOf(ins, m.1) < |ins|
    ensures var l := Leader(ins, m); forall l' :: l' in groups[l := Group(groups, l) + [m.1]] ==> l' in PopsOf(ins)
  {
    assert PopsOf(ins)[LeaderOf(ins, m.1)] == Leader(ins, m);
  }

  lemma RallyGroups(ins: seq<Mover>, joiners: seq<Mover>, groups: map<Population, seq<Population>>, m: Mover)
    requires forall k :: 0 <= k < |ins| ==> Group(groups, ins[k].1) == PopsOf(Filter(joiners, Follows(ins, ins[k].1)))
    requires LeaderOf(ins, m.1) < |ins|
    ensures var l := Leader(ins, m); var grown := groups[l := Group(groups, l) + [m.1]];
      forall k :: 0 <= k < |ins| ==> Group(grown, ins[k].1) == PopsOf(Filter(joiners + [m], Follows(ins, ins[k].1)))
  {
    var l := Leader(ins, m);
    var grown := groups[l := Group(groups, l) + [m.1]];
    forall k | 0 <= k < |ins|
      ensures Group(grown, ins[k].1) == PopsOf(Filter(joiners + [m], Follows(ins, ins[k].1)))
    {
      var lk := ins[k].1;
      var before := PopsOf(Filter(joiners, Follows(ins, lk)));
      assert Group(groups, lk) == before;
      FollowStep(ins, joiners, m, lk);
      if lk == l {
        assert Group(grown, lk) == before + [m.1];
        assert PopsOf(Filter(joiners + [m], Follows(ins, lk))) == before + [m.1];
      } else {
        assert Group(grown, lk) == before;
        assert PopsOf(Filter(joiners + [m], Follows(ins, lk))) == before + [];
      }
    }
  }

  /** One more mover considered: it joins, strays, or (an instigator)
      neither. */
  lemma RallyStep(offworld: seq<Mover>, i: nat, ins: seq<Mover>)
    requires i < |offworld|
    ensures var m := offworld[i];
      && Filter(offworld[..i + 1], Joins(ins)) == Filter(offworld[..i], Joins(ins)) + (if Joins(ins)(m) then [m] else [])
      && Filter(offworld[..i + 1], Strays(ins)) == Filter(offworld[..i], Strays(ins)) + (if Strays(ins)(m) then [m] else [])
  {
    var m := offworld[i];
    var one := [m];
    assert offworld[..i + 1] == offworld[..i] + one;
    assert one[1..] == [];
    FilterAppend(offworld[..i], one, Joins(ins));
    FilterAppend(offworld[..i], one, Strays(ins));
  }

  /** A joiner lengthens its leader's group alone. */
  lemma GroupStep(ins: seq<Mover>, joiners: seq<Mover>, m: Mover)
    requires LeaderOf(ins, m.1) < |ins|
    ensures Backers(ins, joiners + [m]) == Backers(ins, joiners) + [(Leader(ins, m), 1)]
  {
    var b, b' := Backers(ins, joiners + [m]), Backers(ins, joiners) + [(Leader(ins, m), 1)];
    forall k | 0 <= k < |b|
      ensures b[k] == b'[k]
    {
      if k < |joiners| {
        assert (joiners + [m])[k] == joiners[k];
      }
    }
  }

  /** A joiner lengthens its own leader's following alone. */
  lemma FollowStep(ins: seq<Mover>, joiners: seq<Mover>, m: Mover, l: Population)
    requires LeaderOf(ins, m.1) < |ins|
    ensures PopsOf(Filter(joiners + [m], Follows(ins, l)))
              == PopsOf(Filter(joiners, Follows(ins, l))) + (if l == Leader(ins, m) then [m.1] else [])
  {
    var one := [m];
    assert one[1..] == [];
    FilterAppend(joiners, one, Follows(ins, l));
    PopsOfAppend(Filter(joiners, Follows(ins, l)), Filter(one, Follows(ins, l)));
  }

  /** Instigators whose pop is w. */
  function Leading(w: Population): Mover -> bool
  {
    (m: Mover) => m.1 == w
  }

  /** w is the instigator with the most followers, and someone follows it. */
  ghost predicate Leads(ins: seq<Mover>, joiners: seq<Mover>, w: Population)
  {
    && (exists k :: 0 <= k < |joiners| && Leader(ins, joiners[k]) == w)
    && forall k :: 0 <= k < |joiners| ==>
         |Filter(joiners, Follows(ins, Leader(ins, joiners[k])))| <= |Filter(joiners, Follows(ins, w))|
  }

  /** What a breakaway does with the settlers: with no followers at all,
      everyone goes home; otherwise the instigator with the most followers
      founds the new state with them, and those who followed nobody and the
      other instigators go home. */
  ghost predicate Schism(offworld: seq<Mover>, founders: seq<Population>, returners: seq<Mover>, winner: Option<Population>)
  {
    var ins := Filter(offworld, Instigates);
    var joiners := Filter(offworld, Joins(ins));
    && (joiners == [] ==> founders == [] && returners == offworld && winner.None?)
    && (joiners != [] ==>
          && winner.Some? && Leads(ins, joiners, winner.value)
          && founders == PopsOf(Filter(joiners, Follows(ins, winner.value))) + [winner.value]
          && returners == Filter(offworld, Strays(ins)) + Reject(ins, Leading(winner.value)))
  }

  /** More than ten settlers left on a planet other than Earth
      (inhabitedplanet.py:315-346): the engaged ones instigate, the others
      follow the first instigator they tolerate or go home. With no
      followers at all, everyone goes home. Otherwise the instigator with
      the most followers founds a new state with them, and the other
      instigators go home after those who followed nobody. */
  method Breakaway(offworld: seq<Mover>)
    returns (founders: seq<Population>, returners: seq<Mover>, ghost winner: Option<Population>)
    ensures Schism(offworld, founders, returners, winner)
  {
    var ins := Filter(offworld, Instigates);
    var groups, ledger, strays;
    ghost var joiners;
    groups, ledger, strays, joiners := Rally(offworld, ins);
    if groups == map[] {
      return [], offworld, None;
    }
    var backing := Tally(ledger);
    assert ledger[0].0 in Keys(backing);
    var w := backing[FirstMaxIndex(backing)].0;
    Founding(ins, joiners, groups, ledger, w);
    founders := Group(groups, w) + [w];
    winner := Some(w);
    returners := SendBack(strays, ins, w);
  }

  /** The for loop over the instigators: all but the winner go home, after
      the strays. */
  method SendBack(strays: seq<Mover>, ins: seq<Mover>, w: Population) returns (returners: seq<Mover>)
    ensures returners == strays + Reject(ins, Leading(w))
  {
    returners := strays;
    for i := 0 to |ins|
      invariant returners == strays + Reject(ins[..i], Leading(w))
    {
      var one := [ins[i]];
      assert ins[..i + 1] == ins[..i] + one;
      assert one[1..] == [];
      RejectAppend(ins[..i], one, Leading(w));
      if ins[i].1 != w {
        returners := returners + [ins[i]];
      }
    }
    assert ins[..|ins|] == ins;
  }

  /** The winner leads the most followers, and its group is their pops. */
  lemma Founding(ins: seq<Mover>, joiners: seq<Mover>, groups: map<Population, seq<Population>>,
                 ledger: seq<(Population, int)>, w: Population)
    requires joiners != [] && forall i :: 0 <= i < |joiners| ==> Joins(ins)(joiners[i])
    requires ledger == Backers(ins, joiners) && Rallied(ins, joiners, groups)
    requires w == Tally(ledger)[FirstMaxIndex(Tally(ledger))].0
    ensures Leads(ins, joiners, w)
    ensures Group(groups, w) == PopsOf(Filter(joiners, Follows(ins, w)))
  {
    forall m | m in joiners
      ensures LeaderOf(ins, m.1) < |ins|
    {
      var i :| 0 <= i < |joiners| && joiners[i] == m;
    }
    var k := Winning(ins, joiners, ledger, w);
    assert w == ins[LeaderOf(ins, joiners[k].1)].1;
  }

  /** The key the counter's first maximum picks leads the most followers;
      k is one of them. */
  lemma Winning(ins: seq<Mover>, joiners: seq<Mover>, ledger: seq<(Population, int)>, w: Population) returns (k: nat)
    requires ledger == Backers(ins, joiners) && ledger != []
    requires forall m :: m in joiners ==> LeaderOf(ins, m.1) < |ins|
    requires w == Tally(ledger)[FirstMaxIndex(Tally(ledger))].0
    ensures k < |joiners| && Leader(ins, joiners[k]) == w
    ensures Leads(ins, joiners, w)
  {
    var c := Tally(ledger);
    var i := FirstMaxIndex(c);
    assert c[i].0 in Keys(ledger);
    k :| 0 <= k < |ledger| && Keys(ledger)[k] == w;
    forall j | 0 <= j < |joiners|
      ensures |Filter(joiners, Follows(ins, Leader(ins, joiners[j])))| <= |Filter(joiners, Follows(ins, w))|
    {
      var l := Leader(ins, joiners[j]);
      assert ledger[j].0 in Keys(c);
      var h :| 0 <= h < |c| && Keys(c)[h] == l;
      BackersWeigh(ins, joiners, l);
      BackersWeigh(ins, joiners, w);
    }
  }

  /** How many entries a leader has is how many follow it. */
  lemma {:induction false} BackersWeigh(ins: seq<Mover>, joiners: seq<Mover>, l: Population)
    requires forall m :: m in joiners ==> LeaderOf(ins, m.1) < |ins|
    ensures WeightOf(Backers(ins, joiners), l) == |Filter(joiners, Follows(ins, l))|
  {
    if joiners != [] {
      var n := |joiners| - 1;
      var one := [joiners[n]];
      assert joiners == joiners[..n] + one;
      assert one[1..] == [];
      assert Backers(ins, joiners)[..n] == Backers(ins, joiners[..n]);
      BackersWeigh(ins, joiners[..n], l);
      FilterAppend(joiners[..n], one, Follows(ins, l));
    }
  }

  /** Three tests, exactly one of which holds for each element, split xs in
      three. */
  lemma {:induction false} Partition3<T>(xs: seq<T>, a: T -> bool, b: T -> bool, c: T -> bool)
    requires forall x :: x in xs ==> (a(x) || b(x) || c(x)) && !(a(x) && b(x)) && !(a(x) && c(x)) && !(b(x) && c(x))
    ensures multiset(Filter(xs, a)) + multiset(Filter(xs, b)) + multiset(Filter(xs, c)) == multiset(xs)
    decreases |xs|
  {
    if xs != [] {
      var x, tail := xs[0], xs[1..];
      assert xs == [x] + tail;
      assert forall y :: y in tail ==> y in xs;
      Partition3(tail, a, b, c);
      assert x in xs;
      var ma, mb, mc := multiset(Filter(tail, a)), multiset(Filter(tail, b)), multiset(Filter(tail, c));
      assert multiset(xs) == multiset{x} + multiset(tail);
      if a(x) {
        assert multiset(Filter(xs, a)) == multiset{x} + ma;
        assert multiset(Filter(xs, b)) == mb && multiset(Filter(xs, c)) == mc;
      } else if b(x) {
        assert multiset(Filter(xs, b)) == multiset{x} + mb;
        assert multiset(Filter(xs, a)) == ma && multiset(Filter(xs, c)) == mc;
      } else {
        assert multiset(Filter(xs, c)) == multiset{x} + mc;
        assert multiset(Filter(xs, a)) == ma && multiset(Filter(xs, b)) == mb;
      }
    }
  }

  /** Where the settlers of a breakaway end up: those who followed nobody
      and the instigators other than the winner go home; the winner's
      followers and the winner found the new state; and the followers of
      the other instigators are dropped, neither going home nor joining it. */
  lemma LostFollowers(offworld: seq<Mover>, w: Population)
    ensures var ins := Filter(offworld, Instigates);
      var joiners := Filter(offworld, Joins(ins));
      multiset(Filter(offworld, Strays(ins)) + Reject(ins, Leading(w)))
        + multiset(Filter(joiners, Follows(ins, w))) + multiset(Filter(ins, Leading(w)))
        + multiset(Reject(joiners, Follows(ins, w)))
      == multiset(offworld)
  {
    var ins := Filter(offworld, Instigates);
    var joiners := Filter(offworld, Joins(ins));
    forall m | m in offworld
      ensures Instigates(m) <==> m in ins
    {
      if Instigates(m) {
        FilterMember(offworld, Instigates, m);
      }
    }
    Partition3(offworld, Instigates, Joins(ins), Strays(ins));
    FilterRejectSplit(joiners, Follows(ins, w));
    FilterRejectSplit(ins, Leading(w));
  }

  /** The settlements the movers came from. */
  ghost function Origins(ms: seq<Mover>): set<Settlement>
  {
    set m | m in ms :: m.0
  }

  /** Movers who came from settlement s. */
  function From(s: Settlement): Mover -> bool
  {
    (m: Mover) => m.0 == s
  }

  /** Each settlement holds what it held before and then the pops of ms that
      came from it, in order. */
  ghost predicate Returned(before: map<Settlement, seq<Population>>, ms: seq<Mover>)
    reads before.Keys
  {
    forall s :: s in before ==> s.pops == before[s] + PopsOf(Filter(ms, From(s)))
  }

  /** Every returner goes back to the settlement it came from
      (inhabitedplanet.py:311-313 and 348-349); homes holds those
      settlements. */
  method ReturnHome(returners: seq<Mover>, ghost homes: set<Settlement>)
    requires Origins(returners) <= homes
    modifies homes`pops
    ensures forall s :: s in homes ==> s.pops == old(s.pops) + PopsOf(Filter(returners, From(s)))
  {
    ghost var before := map s | s in homes :: s.pops;
    for i := 0 to |returners|
      invariant Returned(before, returners[..i])
    {
      ReturnStep(returners, i);
      assert returners[i] in returners;
      GoHome(returners[i].0, returners, i, before);
    }
    assert returners[..|returners|] == returners;
  }

  /** Returner ms[i] goes back to its settlement. */
  method GoHome(home: Settlement, ms: seq<Mover>, i: nat, ghost before: map<Settlement, seq<Population>>)
    requires i < |ms| && home == ms[i].0 && home in before && Returned(before, ms[..i])
    requires forall s :: PopsOf(Filter(ms[..i + 1], From(s)))
               == PopsOf(Filter(ms[..i], From(s))) + (if ms[i].0 == s then [ms[i].1] else [])
    modifies home`pops
    ensures Returned(before, ms[..i + 1])
  {
    home.pops := home.pops + [ms[i].1];
  }

  /** One more returner lengthens only its own settlement's list. */
  lemma ReturnStep(ms: seq<Mover>, i: nat)
    requires i < |ms|
    ensures forall s :: PopsOf(Filter(ms[..i + 1], From(s)))
              == PopsOf(Filter(ms[..i], From(s))) + (if ms[i].0 == s then [ms[i].1] else [])
  {
    var one := [ms[i]];
    assert ms[..i + 1] == ms[..i] + one;
    assert one[1..] == [];
    forall s
      ensures PopsOf(Filter(ms[..i + 1], From(s)))
              == PopsOf(Filter(ms[..i], From(s))) + (if ms[i].0 == s then [ms[i].1] else [])
    {
      FilterAppend(ms[..i], one, From(s));
      PopsOfAppend(Filter(ms[..i], From(s)), Filter(one, From(s)));
    }
  }

  /** What Filter and Reject keep was in the list. */
  lemma KeptWithin<T>(xs: seq<T>, keep: T -> bool)
    ensures forall x :: x in Filter(xs, keep) ==> x in xs
    ensures forall x :: x in Reject(xs, keep) ==> x in xs
  {
    forall x | x in Filter(xs, keep)
      ensures x in xs
    {
      var i :| 0 <= i < |Filter(xs, keep)| && Filter(xs, keep)[i] == x;
    }
    forall x | x in Reject(xs, keep)
      ensures x in xs
    {
      var i :| 0 <= i < |Reject(xs, keep)| && Reject(xs, keep)[i] == x;
    }
  }

  /** The breakaway's returners are settlers who were left. */
  lemma ReturnersWithin(offworld: seq<Mover>, founders: seq<Population>, returners: seq<Mover>, winner: Option<Population>)
    requires Schism(offworld, founders, returners, winner)
    ensures forall m :: m in returners ==> m in offworld
  {
    var ins := Filter(offworld, Instigates);
    if Filter(offworld, Joins(ins)) != [] {
      KeptWithin(offworld, Strays(ins));
      KeptWithin(ins, Leading(winner.value));
      KeptWithin(offworld, Instigates);
    }
  }

  /** The breakaway's founders are pops of settlers who were left. */
  lemma FoundersWithin(offworld: seq<Mover>, founders: seq<Population>, returners: seq<Mover>, winner: Option<Population>)
    requires Schism(offworld, founders, returners, winner)
    ensures forall p :: p in founders ==> p in PopsOf(offworld)
  {
    var ins := Filter(offworld, Instigates);
    var joiners := Filter(offworld, Joins(ins));
    if joiners != [] {
      var w := winner.value;
      var followers := Filter(joiners, Follows(ins, w));
      WinnerWithin(offworld, ins, joiners, w);
      KeptWithin(offworld, Joins(ins));
      KeptWithin(joiners, Follows(ins, w));
      MoversWithin(followers, offworld);
      forall p | p in founders
        ensures p in PopsOf(offworld)
      {
        if p != w {
          assert p in PopsOf(followers);
        }
      }
    }
  }

  /** The instigator a joiner follows is one of the settlers. */
  lemma WinnerWithin(offworld: seq<Mover>, ins: seq<Mover>, joiners: seq<Mover>, w: Population)
    requires ins == Filter(offworld, Instigates) && joiners == Filter(offworld, Joins(ins))
    requires exists k :: 0 <= k < |joiners| && Leader(ins, joiners[k]) == w
    ensures w in PopsOf(offworld)
  {
    var k :| 0 <= k < |joiners| && Leader(ins, joiners[k]) == w;
    var i := LeaderOf(ins, joiners[k].1);
    var m := if i < |ins| then ins[i] else joiners[k];
    assert m in offworld && m.1 == w;
    MoverPop(m, offworld);
  }

  lemma MoverPop(m: Mover, ms: seq<Mover>)
    requires m in ms
    ensures m.1 in PopsOf(ms)
  {
    var j :| 0 <= j < |ms| && ms[j] == m;
    assert PopsOf(ms)[j] == m.1;
  }

  /** The pops of movers drawn from all are pops of all. */
  lemma MoversWithin(ms: seq<Mover>, all: seq<Mover>)
    requires forall m :: m in ms ==> m in all
    ensures forall p :: p in PopsOf(ms) ==> p in PopsOf(all)
  {
    forall p | p in PopsOf(ms)
      ensures p in PopsOf(all)
    {
      var h :| 0 <= h < |ms| && PopsOf(ms)[h] == p;
      MoverPop(ms[h], all);
    }
  }

  /** Pops drawn from valid pops are valid. */
  lemma ValidWithin(ps: seq<Population>, qs: seq<Population>)
    requires AllValid(qs) && forall p :: p in ps ==> p in qs
    ensures AllValid(ps)
  {
    forall i | 0 <= i < |ps|
      ensures ps[i].Valid()
    {
      assert ps[i] in ps;
      var j :| 0 <= j < |qs| && qs[j] == ps[i];
    }
  }

  /** Movers drawn from the left settlers come from their settlements. */
  lemma OriginsWithin(ms: seq<Mover>, offworld: seq<Mover>)
    requires forall m :: m in ms ==> m in offworld
    ensures Origins(ms) <= Origins(offworld)
  {
  }

  /** The settlers nobody took (inhabitedplanet.py:309-350): on Earth, or
      when no more than ten are left, they all go home. Otherwise a
      breakaway may found a new state on the planet, and the returners go
      home. */
  method Unplaced(colony: InhabitedPlanet, offworld: seq<Mover>, cities: CityList, draws: Draws)
    returns (fault: Option<Fault>, founders: seq<Population>, returners: seq<Mover>, founded: Option<Settlement>,
             ghost winner: Option<Population>)
    requires draws.InRange() && cities.Valid() && AllValid(PopsOf(offworld))
    modifies colony`settlements, Origins(offworld)`pops, cities`pools, PopsOf(offworld)`mergeable
    ensures Departed(colony.isEarth, offworld, founders, returners, winner)
    ensures founders == [] ==> fault.None?
    ensures fault.None? ==> Founded(old(colony.settlements), colony.settlements, founders, founded)
    ensures fault.None? ==>
      forall s :: s in Origins(offworld) ==> s.pops == old(s.pops) + PopsOf(Filter(returners, From(s)))
  {
    founders, returners, winner := Depart(colony.isEarth, offworld);
    fault, founded := Establish(colony, founders, returners, Origins(offworld), PopsOf(offworld), cities, draws);
  }

  /** Who stays to found a state and who goes home: everyone goes home from
      Earth or when no more than ten are left; otherwise the breakaway
      decides. */
  ghost predicate Departed(isEarth: bool, offworld: seq<Mover>, founders: seq<Population>, returners: seq<Mover>,
                           winner: Option<Population>)
  {
    && (isEarth || |offworld| <= 10 ==> founders == [] && returners == offworld)
    && (!isEarth && |offworld| > 10 ==> Schism(offworld, founders, returners, winner))
  }

  /** The split of the settlers nobody took into founders and returners. */
  method Depart(isEarth: bool, offworld: seq<Mover>)
    returns (founders: seq<Population>, returners: seq<Mover>, ghost winner: Option<Population>)
    requires AllValid(PopsOf(offworld))
    ensures Departed(isEarth, offworld, founders, returners, winner)
    ensures Origins(returners) <= Origins(offworld) && AllValid(founders)
    ensures forall p :: p in founders ==> p in PopsOf(offworld)
  {
    founders, returners, winner := [], offworld, None;
    if !isEarth && |offworld| > 10 {
      founders, returners, winner := Breakaway(offworld);
      SchismWithin(offworld, founders, returners, winner);
    }
  }

  /** The breakaway's returners come from the settlers' settlements, and its
      founders are valid pops of the settlers. */
  lemma SchismWithin(offworld: seq<Mover>, founders: seq<Population>, returners: seq<Mover>, winner: Option<Population>)
    requires Schism(offworld, founders, returners, winner) && AllValid(PopsOf(offworld))
    ensures Origins(returners) <= Origins(offworld)
    ensures forall p :: p in founders ==> p in PopsOf(offworld)
    ensures AllValid(founders)
  {
    ReturnersWithin(offworld, founders, returners, winner);
    OriginsWithin(returners, offworld);
    FoundersWithin(offworld, founders, returners, winner);
    ValidWithin(founders, PopsOf(offworld));
  }

  /** The end of migrate_pops's last phase: the new state, when there are
      founders, then the returners go home. */
  method Establish(colony: InhabitedPlanet, founders: seq<Population>, returners: seq<Mover>,
                   ghost homes: set<Settlement>, ghost pops: seq<Population>, cities: CityList, draws: Draws)
    returns (fault: Option<Fault>, founded: Option<Settlement>)
    requires draws.InRange() && cities.Valid() && AllValid(founders)
    requires Origins(returners) <= homes && forall p :: p in founders ==> p in pops
    modifies colony`settlements, homes`pops, cities`pools, pops`mergeable
    ensures founders == [] ==> fault.None?
    ensures fault.None? ==> Founded(old(colony.settlements), colony.settlements, founders, founded)
    ensures fault.None? ==> forall s :: s in homes ==> s.pops == old(s.pops) + PopsOf(Filter(returners, From(s)))
  {
    founded, fault := None, None;
    if founders != [] {
      assert forall i :: 0 <= i < |founders| ==> founders[i] in pops;
      var r := Secede(colony, founders, cities, draws);
      if r.Err? {
        return Some(r.fault), founded;
      }
      founded := Some(r.value);
    }
    ReturnHome(returners, homes);
  }

  /** Without founders the settlements are as they were; with them, one new
      settlement of exactly the founders joins the end. */
  ghost predicate Founded(before: seq<Settlement>, after: seq<Settlement>, founders: seq<Population>,
                          founded: Option<Settlement>)
    reads if founded.Some? then {founded.value} else {}
  {
    && (founded.None? <==> founders == [])
    && after == before + (if founded.Some? then [founded.value] else [])
    && (founded.Some? ==> founded.value.pops == founders)
  }

  /** The new state (inhabitedplanet.py:339-344): Settlement.for_pops on the
      founders, the settlement added to the planet's. The source passes a
      `founding_year` keyword that for_pops does not declare, which raises a
      TypeError; the model makes the call without it. */
  method Secede(colony: InhabitedPlanet, founders: seq<Population>, cities: CityList, draws: Draws)
    returns (r: Result<Settlement>)
    requires draws.InRange() && cities.Valid() && AllValid(founders) && founders != []
    modifies colony`settlements, cities`pools, founders`mergeable
    ensures r.Ok? ==> fresh(r.value) && r.value.pops == founders
    ensures r.Ok? ==> colony.settlements == old(colony.settlements) + [r.value]
  {
    ghost var chosen, used;
    r, chosen, used := Settlement.ForPops(founders, None, cities, draws);
    if r.Err? {
      return;
    }
    var state := r.value;
    assert state.pops == founders;
    colony.settlements := colony.settlements + [state];
  }

  // ---------------------------------------------------------------------------
  // migrate_pops (inhabitedplanet.py:157-356)

  /** Where the unhappy pops went. The placed joined a settlement of their
      own opinion (views is the opinions of the governments as they were);
      the colonists wanted a new world and the offworld settlers another
      state; of those two lists, the shipped left aboard a ship and the
      unplaced did not; the unplaced then split into founders of a new state
      (behind winner) and returners. Colony ships aimed at the vacant sites
      and settler ships at the colonies of the sites surveyed; halt says where
      the two ship loops stopped. */
  datatype Migrants = Migrants(views: map<nat, seq<Opinion>>, placed: seq<Mover>, colonists: seq<Mover>,
                               offworld: seq<Mover>, shipped: seq<Mover>, unplaced: seq<Mover>,
                               founders: seq<Population>, returners: seq<Mover>, winner: Option<Population>,
                               vacant: seq<Site>, sites: seq<Site>, halt: Halt)

  /** migrate_pops: the unhappy pops first look for a settlement of their
      opinion on the planet, ships are bought when the fleet cannot carry the
      rest, colony ships take colonists to vacant planets and settler ships
      take the others to colonies that welcome them, and those left over
      found a new state or go home. It returns the ships that left and those
      still docked. */
  method MigratePops(colony: InhabitedPlanet, unhappy: seq<Mover>, buckets: map<nat, seq<Settlement>>, year: int,
                     pool: NamePool, cities: CityList, draws: Draws)
    returns (fault: Option<Fault>, leaving: seq<Starship>, docked: seq<Starship>, founded: Option<Settlement>,
             ghost trips: seq<Trip>, ghost log: Migrants)
    requires AllValid(PopsOf(unhappy)) && ChassisCarry(colony.discoveries) && cities.Valid() && draws.InRange()
    modifies Members(buckets)`pops, colony`manufacturingSurplus, colony.planet`ships, pool, colony.planet.ships
    modifies colony`settlements, Origins(unhappy)`pops, cities`pools, PopsOf(unhappy)`mergeable
    ensures fault.None? ==> Sorted(unhappy, buckets, log.views, log.placed, log.colonists, log.offworld)
    ensures fault.None? ==> log.views == old(Views(buckets))
    ensures fault.None? ==>
      Voyage(colony.planet.ships, log.colonists + log.offworld, docked, log.unplaced, leaving, trips, log.shipped)
    ensures fault.None? ==> multiset(log.placed) + multiset(log.shipped) + multiset(log.unplaced) == multiset(unhappy)
    ensures fault.None? ==>
      forall k :: 0 <= k < |trips| ==>
        (trips[k].colony == null && Aimed(trips[k], log.vacant)) || Greeted(trips[k], log.sites)
    ensures fault.None? ==> forall t :: t in log.vacant ==> Vacant(t)
    ensures fault.None? ==> Halted(log.halt, log.colonists, log.offworld, log.vacant, log.sites, log.unplaced, docked)
    ensures fault.None? ==> Departed(colony.isEarth, log.unplaced, log.founders, log.returners, log.winner)
    ensures fault.None? ==> Founded(old(colony.settlements), colony.settlements, log.founders, founded)
  {
    hide *;
    ghost var states := colony.settlements;
    var colonists, offworld, placed, views := Sort(unhappy, buckets);
    assert colony.settlements == states;
    var unplaced;
    ghost var shipped, vacant, sites, halt;
    fault, leaving, docked, trips, shipped, unplaced, vacant, sites, halt := Voyages(colony, colonists, offworld, year, pool);
    assert colony.settlements == states;
    founded := None;
    log := Migrants(views, placed, colonists, offworld, shipped, unplaced, [], unplaced, None, vacant, sites, halt);
    if fault.Some? {
      return;
    }
    Conserved(unhappy, placed, colonists, offworld, shipped, unplaced);
    Unplaceable(unplaced, unhappy);
    var founders, returners;
    ghost var winner;
    fault, founders, returners, founded, winner := Unplaced(colony, unplaced, cities, draws);
    log := log.(founders := founders, returners := returners, winner := winner);
  }

  /** The first two loops of migrate_pops: each unhappy pop is a colonist, an
      offworld settler or placed in a settlement of its opinion. */
  ghost predicate Sorted(unhappy: seq<Mover>, buckets: map<nat, seq<Settlement>>, views: map<nat, seq<Opinion>>,
                         placed: seq<Mover>, colonists: seq<Mover>, offworld: seq<Mover>)
  {
    && multiset(placed) + multiset(colonists) + multiset(offworld) == multiset(unhappy)
    && (forall i :: 0 <= i < |colonists| ==> Colonial(colonists[i]))
    && (forall i :: 0 <= i < |placed| ==> !Colonial(placed[i]) && Housed(buckets, views)(placed[i]))
    && (forall i :: 0 <= i < |offworld| ==> !Colonial(offworld[i]) && !Housed(buckets, views)(offworld[i]))
  }

  /** The first two loops of migrate_pops (inhabitedplanet.py:166-182). */
  method Sort(unhappy: seq<Mover>, buckets: map<nat, seq<Settlement>>)
    returns (colonists: seq<Mover>, offworld: seq<Mover>, ghost placed: seq<Mover>, views: map<nat, seq<Opinion>>)
    modifies Members(buckets)`pops
    ensures views == old(Views(buckets))
    ensures Sorted(unhappy, buckets, views, placed, colonists, offworld)
  {
    ghost var before := Views(buckets);
    var settlers;
    colonists, settlers := Classify(unhappy);
    assert Views(buckets) == before;
    offworld, views := PlaceSettlers(settlers, buckets);
    placed := Filter(Reverse(settlers), Housed(buckets, views));
    SortedOnce(unhappy, buckets, views, settlers, placed, colonists, offworld);
  }

  /** Classify then PlaceSettlers leave each unhappy pop in exactly one of
      the three lists. */
  lemma SortedOnce(unhappy: seq<Mover>, buckets: map<nat, seq<Settlement>>, views: map<nat, seq<Opinion>>,
                   settlers: seq<Mover>, placed: seq<Mover>, colonists: seq<Mover>, offworld: seq<Mover>)
    requires colonists == Filter(Reverse(unhappy), Colonial) && settlers == Reject(Reverse(unhappy), Colonial)
    requires placed == Filter(Reverse(settlers), Housed(buckets, views))
    requires offworld == Reject(Reverse(settlers), Housed(buckets, views))
    ensures Sorted(unhappy, buckets, views, placed, colonists, offworld)
  {
    ClassifiedOnce(unhappy);
    Settled(settlers, Housed(buckets, views));
    Counted(unhappy, settlers, placed, colonists, offworld);
    Unsettled(settlers, placed);
    Unsettled(settlers, offworld);
  }

  lemma Counted(unhappy: seq<Mover>, settlers: seq<Mover>, placed: seq<Mover>, colonists: seq<Mover>, offworld: seq<Mover>)
    requires multiset(colonists) + multiset(settlers) == multiset(unhappy)
    requires multiset(placed) + multiset(offworld) == multiset(settlers)
    ensures multiset(placed) + multiset(colonists) + multiset(offworld) == multiset(unhappy)
  {
    var lhs := multiset(placed) + multiset(colonists) + multiset(offworld);
    forall x
      ensures lhs[x] == multiset(unhappy)[x]
    {
      assert (multiset(colonists) + multiset(settlers))[x] == multiset(unhappy)[x];
      assert (multiset(placed) + multiset(offworld))[x] == multiset(settlers)[x];
    }
    assert lhs == multiset(unhappy);
  }

  /** Movers drawn from the settlers are no colonists. */
  lemma Unsettled(settlers: seq<Mover>, ms: seq<Mover>)
    requires forall m :: m in settlers ==> !Colonial(m)
    requires forall m :: m in ms ==> m in settlers
    ensures forall i :: 0 <= i < |ms| ==> !Colonial(ms[i])
  {
    forall i | 0 <= i < |ms|
      ensures !Colonial(ms[i])
    {
      assert ms[i] in settlers;
    }
  }

  /** Placing the settlers popped from the end keeps each of them once, in
      one list or the other. */
  lemma Settled(settlers: seq<Mover>, housed: Mover -> bool)
    ensures multiset(Filter(Reverse(settlers), housed)) + multiset(Reject(Reverse(settlers), housed)) == multiset(settlers)
    ensures forall m :: m in Filter(Reverse(settlers), housed) ==> m in settlers
    ensures forall m :: m in Reject(Reverse(settlers), housed) ==> m in settlers
  {
    FilterRejectSplit(Reverse(settlers), housed);
    ReverseKeeps(settlers);
    forall m | m in Reverse(settlers)
      ensures m in settlers
    {
      assert m in multiset(Reverse(settlers));
    }
  }

  /** The unhappy pops are the placed, the shipped and the unplaced. */
  lemma Conserved(unhappy: seq<Mover>, placed: seq<Mover>, colonists: seq<Mover>, offworld: seq<Mover>,
                  shipped: seq<Mover>, unplaced: seq<Mover>)
    requires multiset(placed) + multiset(colonists) + multiset(offworld) == multiset(unhappy)
    requires multiset(unplaced) + multiset(shipped) == multiset(colonists + offworld)
    ensures multiset(placed) + multiset(shipped) + multiset(unplaced) == multiset(unhappy)
    ensures multiset(unplaced) <= multiset(unhappy)
  {
    assert multiset(colonists + offworld) == multiset(colonists) + multiset(offworld);
    var lhs := multiset(placed) + multiset(shipped) + multiset(unplaced);
    forall x
      ensures lhs[x] == multiset(unhappy)[x]
    {
      assert (multiset(unplaced) + multiset(shipped))[x] == multiset(colonists + offworld)[x];
      assert multiset(placed)[x] + multiset(colonists)[x] + multiset(offworld)[x] == multiset(unhappy)[x];
    }
    assert lhs == multiset(unhappy);
  }

  /** The movers ms are among all. */
  lemma Among(ms: seq<Mover>, all: seq<Mover>)
    requires multiset(ms) <= multiset(all)
    ensures forall p :: p in PopsOf(ms) ==> p in PopsOf(all)
    ensures Origins(ms) <= Origins(all)
  {
    forall p | p in PopsOf(ms)
      ensures p in PopsOf(all)
    {
      var i :| 0 <= i < |ms| && PopsOf(ms)[i] == p;
      assert ms[i] in multiset(all);
      var j :| 0 <= j < |all| && all[j] == ms[i];
      assert PopsOf(all)[j] == p;
    }
    forall s | s in Origins(ms)
      ensures s in Origins(all)
    {
      var m :| m in ms && m.0 == s;
      assert m in multiset(all);
    }
  }

  /** Movers left over from all are valid if all were, and Unplaced may
      change no more than what all may. */
  lemma Unplaceable(ms: seq<Mover>, all: seq<Mover>)
    requires multiset(ms) <= multiset(all) && AllValid(PopsOf(all))
    ensures AllValid(PopsOf(ms)) && Origins(ms) <= Origins(all)
    ensures forall i :: 0 <= i < |ms| ==> PopsOf(ms)[i] in PopsOf(all)
  {
    Among(ms, all);
    ValidWithin(PopsOf(ms), PopsOf(all));
  }

  /** Where the two ship loops of migrate_pops stopped: the colonists no
      colony ship took and the ships the colony ships left docked; the list
      of colonies and the queues the last settler-ship turn drew by. */
  datatype Halt = Halt(waiting: seq<Mover>, docked: seq<Starship>, left: seq<(real, InhabitedPlanet)>, owed: Queues)

  /** The colony ships take colonists and leave ships docked, and stop only
      when the colonists or the ships run out or no vacant site is in reach;
      the settler ships then take the offworld settlers and the colonists
      left from those ships, and stop only when the settlers or the ships run
      out or the last turn stalled. */
  ghost predicate Halted(h: Halt, colonists: seq<Mover>, offworld: seq<Mover>, vacant: seq<Site>, sites: seq<Site>,
                         unplaced: seq<Mover>, docked: seq<Starship>)
  {
    ColoniesHalted(h, colonists, vacant) && SettlersHalted(h, offworld, sites, unplaced, docked)
  }

  /** The colony ships left the colonists h.waiting and the ships h.docked,
      and stopped only when the colonists or the ships ran out or no vacant
      site was in reach. */
  ghost predicate ColoniesHalted(h: Halt, colonists: seq<Mover>, vacant: seq<Site>)
  {
    && multiset(h.waiting) <= multiset(colonists)
    && (h.waiting == [] || h.docked == [] || OutOfReach(vacant, h.docked))
  }

  /** The settler ships took the offworld settlers and h.waiting from the
      ships h.docked, and the list of colonies and the queues they stopped
      with still track the colonies settleable from the survey. */
  ghost predicate SettlersHalted(h: Halt, offworld: seq<Mover>, sites: seq<Site>, unplaced: seq<Mover>,
                                 docked: seq<Starship>)
  {
    && multiset(docked) <= multiset(h.docked)
    && multiset(unplaced) <= multiset(offworld + h.waiting)
    && Tracked(Settleable(sites, offworld + h.waiting), QueuesOf(Wants(sites, offworld + h.waiting)), h.left, h.owed)
  }

  /** The settler ships stopped only when the settlers or the ships ran out
      or the last turn stalled on the colonies it drew from h.left. */
  ghost predicate SettlersStopped(h: Halt, unplaced: seq<Mover>, docked: seq<Starship>)
  {
    unplaced == [] || docked == [] || Stalled(Drawn(h.left, h.owed), docked)
  }

  /** The ships of migrate_pops (inhabitedplanet.py:184-303): ships are
      bought for the shortfall, the fleet is shuffled, colony ships leave
      with colonists, and settler ships with the offworld settlers and the
      colonists no colony ship took. */
  method Voyages(colony: InhabitedPlanet, colonists: seq<Mover>, offworld: seq<Mover>, year: int, pool: NamePool)
    returns (fault: Option<Fault>, leaving: seq<Starship>, docked: seq<Starship>, ghost trips: seq<Trip>,
             ghost shipped: seq<Mover>, unplaced: seq<Mover>, ghost vacant: seq<Site>, ghost sites: seq<Site>,
             ghost halt: Halt)
    requires ChassisCarry(colony.discoveries)
    modifies colony`manufacturingSurplus, colony.planet`ships, pool, colony.planet.ships
    ensures fault.None? ==> Voyage(colony.planet.ships, colonists + offworld, docked, unplaced, leaving, trips, shipped)
    ensures fault.None? ==>
      forall k :: 0 <= k < |trips| ==> (trips[k].colony == null && Aimed(trips[k], vacant)) || Greeted(trips[k], sites)
    ensures forall t :: t in vacant ==> Vacant(t)
    ensures fault.None? ==> Halted(halt, colonists, offworld, vacant, sites, unplaced, docked)
  {
    leaving, docked, trips, shipped, unplaced, vacant, sites := [], [], [], [], [], [], [];
    halt := Halt([], [], [], map[]);
    ghost var built;
    fault, built := Equip(colony, year, |offworld| + |colonists|, pool);
    if fault.Some? {
      return;
    }
    var fleet := Shuffle(colony.planet.ships);
    forall s | s in fleet
      ensures s in old(colony.planet.ships) || fresh(s)
    {
      assert s in multiset(colony.planet.ships);
    }
    assert forall i :: 0 <= i < |fleet| ==> fleet[i] in old(colony.planet.ships) || fresh(fleet[i]);
    fault, leaving, docked, trips, shipped, unplaced, vacant, sites, halt := ShipLoops(colony, colonists, offworld, fleet);
  }

  /** The two ship loops of migrate_pops (inhabitedplanet.py:191-303) on the
      shuffled fleet: colony ships with colonists, then settler ships, from
      the ships still docked, with the offworld settlers and the colonists
      no colony ship took. */
  method ShipLoops(colony: InhabitedPlanet, colonists: seq<Mover>, offworld: seq<Mover>, fleet: seq<Starship>)
    returns (fault: Option<Fault>, leaving: seq<Starship>, docked: seq<Starship>, ghost trips: seq<Trip>,
             ghost shipped: seq<Mover>, unplaced: seq<Mover>, ghost vacant: seq<Site>, ghost sites: seq<Site>,
             ghost halt: Halt)
    modifies fleet
    ensures fault.None? ==> Voyage(fleet, colonists + offworld, docked, unplaced, leaving, trips, shipped)
    ensures fault.None? ==>
      forall k :: 0 <= k < |trips| ==> (trips[k].colony == null && Aimed(trips[k], vacant)) || Greeted(trips[k], sites)
    ensures forall t :: t in vacant ==> Vacant(t)
    ensures fault.None? ==> Halted(halt, colonists, offworld, vacant, sites, unplaced, docked)
    ensures fault.None? ==> SettlersStopped(halt, unplaced, docked)
  {
    leaving, docked, trips, shipped, unplaced, sites := [], [], [], [], [], [];
    halt := Halt([], [], [], map[]);
    var waiting, docked1, leaving1;
    ghost var trips1, shipped1;
    ghost var surveyed := if fleet == [] then [] else SitesOf(Reach(colony.planet.star.neighbours, MaxRange(fleet)));
    fault, waiting, docked1, leaving1, trips1, shipped1, vacant := ColonyShips(colony, colonists, fleet, surveyed);
    if fault.Some? {
      return;
    }
    DockedAmong(fleet, docked1, leaving1);
    assert forall i :: 0 <= i < |docked1| ==> docked1[i] in fleet;
    var leaving2;
    ghost var trips2, shipped2, left, owed;
    fault, unplaced, docked, leaving2, trips2, shipped2, sites, left, owed := SettlerShips(colony, offworld + waiting, docked1);
    if fault.Some? {
      return;
    }
    halt := Halt(waiting, docked1, left, owed);
    HaltedJoin(halt, colonists, offworld, vacant, sites, unplaced, docked, shipped1, leaving2, shipped2);
    leaving, trips, shipped := leaving1 + leaving2, trips1 + trips2, shipped1 + shipped2;
    VoyageJoin(fleet, colonists, offworld, docked1, waiting, leaving1, trips1, shipped1,
               docked, unplaced, leaving2, trips2, shipped2);
  }

  /** Where the colony ships and then the settler ships stopped is where
      the two loops halted. */
  lemma HaltedJoin(h: Halt, colonists: seq<Mover>, offworld: seq<Mover>, vacant: seq<Site>, sites: seq<Site>,
                   unplaced: seq<Mover>, docked: seq<Starship>, shipped1: seq<Mover>, leaving2: seq<Starship>,
                   shipped2: seq<Mover>)
    requires multiset(h.waiting) + multiset(shipped1) == multiset(colonists)
    requires multiset(leaving2) + multiset(docked) == multiset(h.docked)
    requires multiset(unplaced) + multiset(shipped2) == multiset(offworld + h.waiting)
    requires h.waiting == [] || h.docked == [] || OutOfReach(vacant, h.docked)
    requires Tracked(Settleable(sites, offworld + h.waiting), QueuesOf(Wants(sites, offworld + h.waiting)), h.left, h.owed)
    ensures Halted(h, colonists, offworld, vacant, sites, unplaced, docked)
  {
  }

  /** The docked ships are ships of the fleet. */
  lemma DockedAmong(fleet: seq<Starship>, docked: seq<Starship>, leaving: seq<Starship>)
    requires multiset(leaving) + multiset(docked) == multiset(fleet)
    ensures forall s :: s in docked ==> s in fleet
  {
    forall s | s in docked
      ensures s in fleet
    {
      assert multiset(fleet)[s] == multiset(leaving)[s] + multiset(docked)[s];
    }
  }

  /** The colony ships then the settler ships, from the ships the colony
      ships left docked, keep the books of the whole fleet. */
  lemma VoyageJoin(fleet: seq<Starship>, colonists: seq<Mover>, offworld: seq<Mover>,
                   docked1: seq<Starship>, waiting1: seq<Mover>, leaving1: seq<Starship>, trips1: seq<Trip>,
                   shipped1: seq<Mover>, docked2: seq<Starship>, waiting2: seq<Mover>, leaving2: seq<Starship>,
                   trips2: seq<Trip>, shipped2: seq<Mover>)
    requires Voyage(fleet, colonists, docked1, waiting1, leaving1, trips1, shipped1)
    requires Voyage(docked1, offworld + waiting1, docked2, waiting2, leaving2, trips2, shipped2)
    ensures Voyage(fleet, colonists + offworld, docked2, waiting2, leaving1 + leaving2, trips1 + trips2,
                   shipped1 + shipped2)
  {
    assert multiset(offworld + waiting1) == multiset(offworld) + multiset(waiting1);
    assert multiset(colonists + offworld) == multiset(colonists) + multiset(offworld);
    assert multiset(shipped1 + shipped2) == multiset(shipped1) + multiset(shipped2);
    assert multiset(leaving1 + leaving2) == multiset(leaving1) + multiset(leaving2);
    var aboard := multiset(waiting2) + multiset(shipped1 + shipped2);
    forall x
      ensures aboard[x] == multiset(colonists + offworld)[x]
    {
      assert (multiset(waiting1) + multiset(shipped1))[x] == multiset(colonists)[x];
      assert (multiset(waiting2) + multiset(shipped2))[x] == multiset(offworld + waiting1)[x];
    }
    assert aboard == multiset(colonists + offworld);
    var fleetLeft := multiset(leaving1 + leaving2) + multiset(docked2);
    forall x
      ensures fleetLeft[x] == multiset(fleet)[x]
    {
      assert (multiset(leaving1) + multiset(docked1))[x] == multiset(fleet)[x];
      assert (multiset(leaving2) + multiset(docked2))[x] == multiset(docked1)[x];
    }
    assert fleetLeft == multiset(fleet);
    CargoesAppend(trips1, trips2);
    PopsOfAppend(shipped1, shipped2);
    var trips, leaving := trips1 + trips2, leaving1 + leaving2;
    forall k | 0 <= k < |trips|
      ensures trips[k].ship == leaving[k] && Fitted(trips[k])
    {
      if k >= |trips1| {
        assert trips[k] == trips2[k - |trips1|] && leaving[k] == leaving2[k - |leaving1|];
      }
    }
  }

  lemma {:induction false} CargoesAppend(a: seq<Trip>, b: seq<Trip>)
    ensures Cargoes(a + b) == Cargoes(a) + Cargoes(b)
    decreases |b|
  {
    if b == [] {
      assert a + b == a;
    } else {
      var n := |b| - 1;
      assert (a + b)[..|a| + n] == a + b[..n];
      CargoesAppend(a, b[..n]);
    }
  }

  /** The targets of the colony ships among the sites surveyed: the vacant
      ones, sorted by distance. */
  function Targets(sites: seq<Site>): seq<Site>
  {
    SortBy(Filter(sites, Vacant), DistanceOf)
  }

  /** The colony ships (inhabitedplanet.py:191-241): with ships and colonists
      both at hand, the vacant planets within the fleet's range, sorted by
      distance, are the targets; without either, nobody leaves. The
      colonisation stops only when the colonists or the ships run out or no
      target is in reach. */
  method ColonyShips(colony: InhabitedPlanet, colonists: seq<Mover>, fleet: seq<Starship>, ghost surveyed: seq<Site>)
    returns (fault: Option<Fault>, waiting: seq<Mover>, docked: seq<Starship>, leaving: seq<Starship>,
             ghost trips: seq<Trip>, ghost shipped: seq<Mover>, ghost vacant: seq<Site>)
    requires fleet != [] ==> surveyed == SitesOf(Reach(colony.planet.star.neighbours, MaxRange(fleet)))
    modifies fleet
    ensures fault.None? ==> Voyage(fleet, colonists, docked, waiting, leaving, trips, shipped)
    ensures fault.None? ==> forall k :: 0 <= k < |trips| ==> trips[k].colony == null && Aimed(trips[k], vacant)
    ensures forall t :: t in vacant ==> Vacant(t)
    ensures fleet == [] || colonists == [] ==>
      fault.None? && waiting == colonists && docked == fleet && leaving == [] && vacant == []
    ensures fleet != [] && colonists != [] ==> vacant == Targets(surveyed)
    ensures fault.None? ==> waiting == [] || docked == [] || OutOfReach(vacant, docked)
  {
    if fleet == [] || colonists == [] {
      return None, colonists, fleet, [], [], [], [];
    }
    var sites := Survey(colony.planet.star, MaxRange(fleet));
    var targets := Targets(sites);
    SortByOrders(Filter(sites, Vacant), DistanceOf);
    forall t | t in targets
      ensures Vacant(t)
    {
      assert t in multiset(Filter(sites, Vacant));
    }
    vacant := targets;
    fault, waiting, docked, leaving, trips, shipped := Colonise(colony, colonists, fleet, targets);
  }

  /** The settler ships (inhabitedplanet.py:243-303): with ships and settlers
      both at hand, the colonies within the fleet's range take the settlers
      their governments suit; without either, nobody leaves. The dispatch
      stops only when the settlers or the ships run out or its last turn
      stalled on the list left and the queues owed. */
  method SettlerShips(colony: InhabitedPlanet, movers: seq<Mover>, fleet: seq<Starship>)
    returns (fault: Option<Fault>, waiting: seq<Mover>, docked: seq<Starship>, leaving: seq<Starship>,
             ghost trips: seq<Trip>, ghost shipped: seq<Mover>, ghost sites: seq<Site>,
             ghost left: seq<(real, InhabitedPlanet)>, ghost owed: Queues)
    modifies fleet
    ensures fault.None? ==> Voyage(fleet, movers, docked, waiting, leaving, trips, shipped)
    ensures fault.None? ==> forall k :: 0 <= k < |trips| ==> Greeted(trips[k], sites)
    ensures fleet == [] || movers == [] ==>
      fault.None? && waiting == movers && docked == fleet && leaving == [] && sites == []
    ensures fault.None? ==> Tracked(Settleable(sites, movers), QueuesOf(Wants(sites, movers)), left, owed)
    ensures fault.None? ==> waiting == [] || docked == [] || Stalled(Drawn(left, owed), docked)
  {
    if fleet == [] || movers == [] {
      return None, movers, fleet, [], [], [], [], [], map[];
    }
    var found := Survey(colony.planet.star, MaxRange(fleet));
    sites := found;
    var q, p, settleable := Demand(found, movers);
    SurveyWelcomed(found, movers);
    fault, waiting, docked, leaving, trips, shipped, left, owed := Dispatch(colony, found, movers, fleet, q, p, settleable);
  }
}
