/** The value-level parts of starships.py and of build_ships: how far a drive
    reaches, how long a trip takes, which of the discovered technologies a
    new ship is built from and what it costs, and the "Name—N" rule that
    recycles ship names. */
module Shipyard {
  import opened Numeric
  import opened Science
  import opened Text

  // ---------------------------------------------------------------------------
  // Drives and travel times

  /** A space-folding drive: its speed and its maximum range. */
  datatype Fold = Fold(speed: real, range: real)

  /** `if self.ftl_range:` holds: there is an FTL range and it is non-zero. */
  predicate HasFtlRange(ftl: Option<Fold>)
  {
    ftl.Some? && ftl.value.range != 0.0
  }

  /** The FTL drive reaches a star at this distance. */
  predicate Covers(ftl: Option<Fold>, distance: real)
  {
    HasFtlRange(ftl) && ftl.value.range >= distance
  }

  /** Starship.range: the FTL range when it is set, else the sublight range. */
  function Range(sublightRange: real, ftl: Option<Fold>): real
  {
    if HasFtlRange(ftl) then ftl.value.range else sublightRange
  }

  /** objective_time_between and subjective_time_between, which differ only
      in the sublight kinematics: `sublight` is the number of years the
      sublight formula gives (the square-root one for the objective clock,
      the acosh one for the subjective clock). */
  function TravelTime(sublightRange: real, ftl: Option<Fold>, distance: real, sublight: nat): (t: Option<int>)
    requires Covers(ftl, distance) ==> ftl.value.speed != 0.0
    ensures t.None? <==> !Covers(ftl, distance) && distance > sublightRange
    ensures Covers(ftl, distance) && distance >= 0.0 && ftl.value.speed > 0.0 ==> t.value >= 0
  {
    if Covers(ftl, distance) then Some(Ceil(distance / ftl.value.speed))
    else if distance > sublightRange then None
    else Some(sublight)
  }

  /** When the FTL drive covers the distance both clocks agree, whatever the
      sublight formulas would give. */
  lemma FtlClocksAgree(sublightRange: real, ftl: Option<Fold>, distance: real, objective: nat, subjective: nat)
    requires Covers(ftl, distance) && ftl.value.speed != 0.0
    ensures TravelTime(sublightRange, ftl, distance, objective)
         == TravelTime(sublightRange, ftl, distance, subjective)
         == Some(Ceil(distance / ftl.value.speed))
  {
  }

  /** Every destination within a ship's range has a travel time. */
  lemma WithinRangeReachable(sublightRange: real, ftl: Option<Fold>, distance: real, years: nat)
    requires distance <= Range(sublightRange, ftl)
    requires ftl.Some? ==> ftl.value.speed != 0.0
    ensures TravelTime(sublightRange, ftl, distance, years).Some?
  {
    if HasFtlRange(ftl) {
      assert Covers(ftl, distance);
    }
  }

  // ---------------------------------------------------------------------------
  // The transit clocks

  /** The two countdowns of a ship in flight, in years. */
  datatype Clock = Clock(objective: Option<int>, subjective: Option<int>)

  /** Python truthiness of an optional count: set and non-zero. */
  predicate Truthy(t: Option<int>)
  {
    t.Some? && t.value != 0
  }

  /** One call of transit: nothing happens once the objective clock reads 0;
      otherwise the subjective clock counts down while it is truthy and the
      objective clock always does (on None that subtraction raises, after the
      subjective step has happened). */
  function Tick(c: Clock): Clock
  {
    if c.objective == Some(0) then c
    else Clock(
      if c.objective.Some? then Some(c.objective.value - 1) else None,
      if Truthy(c.subjective) then Some(c.subjective.value - 1) else c.subjective)
  }

  /** The cargo ages during a call exactly when the subjective clock moves. */
  predicate Ages(c: Clock)
  {
    c.objective != Some(0) && Truthy(c.subjective)
  }

  /** k successive calls of transit. */
  function Ticks(c: Clock, k: nat): Clock
  {
    if k == 0 then c else Tick(Ticks(c, k - 1))
  }

  /** From objective n >= 1, k <= n calls leave n - k years, and a
      subjective count m >= 0 is down to max(m - k, 0). */
  lemma {:induction false} Countdown(n: nat, m: nat, k: nat)
    requires 1 <= n && k <= n
    ensures Ticks(Clock(Some(n), Some(m)), k) == Clock(Some(n - k), Some(if m >= k then m - k else 0))
  {
    if k > 0 {
      Countdown(n, m, k - 1);
    }
  }

  /** transit first reports arrival on the n-th call from objective n >= 1. */
  lemma ArrivalOnNthCall(n: nat, m: nat)
    requires n >= 1
    ensures forall k :: 0 <= k < n ==> Ticks(Clock(Some(n), Some(m)), k).objective != Some(0)
    ensures Ticks(Clock(Some(n), Some(m)), n).objective == Some(0)
  {
    forall k | 0 <= k < n
      ensures Ticks(Clock(Some(n), Some(m)), k).objective != Some(0)
    {
      Countdown(n, m, k);
    }
    Countdown(n, m, n);
  }

  // ---------------------------------------------------------------------------
  // The dedup loop of construct_from_available_technologies

  /** The technologies the nodes provide, node by node, repeats included. */
  function Provided(nodes: seq<ScienceNode>): seq<Technology>
  {
    if nodes == [] then []
    else
      var n := |nodes| - 1;
      Provided(nodes[..n]) + nodes[n].provided
  }

  /** A technology is provided exactly when some node provides it. */
  lemma {:induction false} ProvidedMembers(nodes: seq<ScienceNode>)
    ensures forall i :: 0 <= i < |nodes| ==> forall t :: t in nodes[i].provided ==> t in Provided(nodes)
    ensures forall t :: t in Provided(nodes) ==> exists i :: 0 <= i < |nodes| && t in nodes[i].provided
  {
    if nodes != [] {
      var n := |nodes| - 1;
      ProvidedMembers(nodes[..n]);
      assert forall i :: 0 <= i < n ==> nodes[..n][i] == nodes[i];
    }
  }

  /** The techs list: every provided technology once, in order of first
      appearance. Technologies are compared by value; the tree's technology
      records are pairwise different, so this is Python's identity test. */
  method CollectTechs(discoveries: seq<ScienceNode>) returns (techs: seq<Technology>)
    ensures techs == Dedup(Provided(discoveries))
  {
    techs := [];
    for i := 0 to |discoveries|
      invariant techs == Dedup(Provided(discoveries[..i]))
    {
      assert discoveries[..i + 1][..i] == discoveries[..i];
      techs := Absorb(techs, Provided(discoveries[..i]), discoveries[i].provided);
    }
    assert discoveries[..|discoveries|] == discoveries;
  }

  /** The inner loop: each technology of more not yet listed is appended. */
  method Absorb(techs: seq<Technology>, ghost seen: seq<Technology>, more: seq<Technology>)
    returns (r: seq<Technology>)
    requires techs == Dedup(seen)
    ensures r == Dedup(seen + more)
  {
    r := techs;
    assert seen + more[..0] == seen;
    for j := 0 to |more|
      invariant r == Dedup(seen + more[..j])
    {
      SnocSlice(seen, more, j);
      DedupSnoc(seen + more[..j], more[j]);
      if more[j] !in r {
        r := r + [more[j]];
      }
    }
    assert more[..|more|] == more;
  }

  // ---------------------------------------------------------------------------
  // Choosing the best technology of each kind

  /** Python's ordering of two-element key tuples: a sorts below b. */
  predicate Below(a: (real, real), b: (real, real))
  {
    a.0 < b.0 || (a.0 == b.0 && a.1 < b.1)
  }

  /** The key each kind is ranked by: chassis by (capacity, -cost), sublight
      engines by (acceleration, range), folding drives by (speed, range). */
  function Rank(t: Technology): (real, real)
  {
    match t
    case SuperheavySpacecraft(capacity, cost) => (capacity as real, -(cost as real))
    case Sublight(acceleration, range) => (acceleration, range)
    case Spacefolding(speed, range) => (speed, range)
    case Wormholes(_, range) => (0.0, range)
  }

  /** max(ts, key=Rank): the first technology no other one outranks. */
  function MaxIndex(ts: seq<Technology>): (i: nat)
    requires ts != []
    ensures i < |ts|
    ensures forall j :: 0 <= j < |ts| ==> !Below(Rank(ts[i]), Rank(ts[j]))
    ensures forall j :: 0 <= j < i ==> Below(Rank(ts[j]), Rank(ts[i]))
  {
    if |ts| == 1 then 0
    else
      var n := |ts| - 1;
      var k := MaxIndex(ts[..n]);
      assert forall j :: 0 <= j < n ==> ts[..n][j] == ts[j];
      if Below(Rank(ts[k]), Rank(ts[n])) then n else k
  }

  predicate IsChassis(t: Technology) { t.SuperheavySpacecraft? }
  predicate IsEngine(t: Technology) { t.Sublight? }
  predicate IsFold(t: Technology) { t.Spacefolding? }

  /** The ship construct_from_available_technologies designs: the chassis
      capacity, the engine's acceleration and range, the folding drive if one
      is known, and the price. */
  datatype Design = Design(capacity: int, acceleration: real, sublightRange: real, ftl: Option<Fold>, cost: int)

  /** The design built from a list of distinct technologies; max() over no
      chassis or no engine raises. */
  function Blueprint(techs: seq<Technology>): (r: Result<Design>)
    ensures r.Err? ==> r.fault == MaxOfEmpty
  {
    var chassis := Filter(techs, IsChassis);
    var engines := Filter(techs, IsEngine);
    var folds := Filter(techs, IsFold);
    if chassis == [] || engines == [] then Err(MaxOfEmpty)
    else
      var c := chassis[MaxIndex(chassis)];
      var e := engines[MaxIndex(engines)];
      var ftl := if folds == [] then None else var f := folds[MaxIndex(folds)]; Some(Fold(f.ftlSpeed, f.maximumRange));
      Ok(Design(c.capacity, e.acceleration, e.maximumRange, ftl, c.capacity * c.cost * (if folds == [] then 1 else 2)))
  }

  /** A technology of the kind keep picks is in Filter(ts, keep). */
  lemma {:induction false} FilterKeeps(ts: seq<Technology>, keep: Technology -> bool, t: Technology)
    requires t in ts && keep(t)
    ensures t in Filter(ts, keep)
  {
    assert ts == [ts[0]] + ts[1..];
    if ts[0] != t {
      FilterKeeps(ts[1..], keep, t);
    }
  }

  /** A design exists exactly when some chassis and some engine are known. */
  lemma BlueprintExists(techs: seq<Technology>)
    ensures Blueprint(techs).Ok? <==>
              (exists c :: c in techs && c.SuperheavySpacecraft?) && (exists e :: e in techs && e.Sublight?)
  {
    if c :| c in techs && c.SuperheavySpacecraft? {
      FilterKeeps(techs, IsChassis, c);
    }
    if e :| e in techs && e.Sublight? {
      FilterKeeps(techs, IsEngine, e);
    }
    var chassis := Filter(techs, IsChassis);
    var engines := Filter(techs, IsEngine);
    if chassis != [] && engines != [] {
      assert chassis[0] in techs && engines[0] in techs;
    }
  }

  /** The chosen chassis has the largest capacity of all known chassis, and
      the lowest cost among those of that capacity; the price is capacity
      times per-pop cost, doubled when the ship has a folding drive. */
  lemma BlueprintChassis(techs: seq<Technology>)
    requires Blueprint(techs).Ok?
    ensures var d := Blueprint(techs).value;
      exists c :: c in techs && c.SuperheavySpacecraft? && c.capacity == d.capacity
        && d.cost == c.capacity * c.cost * (if d.ftl.Some? then 2 else 1)
        && forall t :: t in techs && t.SuperheavySpacecraft? ==>
             t.capacity < c.capacity || (t.capacity == c.capacity && t.cost >= c.cost)
  {
    var chassis := Filter(techs, IsChassis);
    var c := chassis[MaxIndex(chassis)];
    forall t | t in techs && t.SuperheavySpacecraft?
      ensures t.capacity < c.capacity || (t.capacity == c.capacity && t.cost >= c.cost)
    {
      FilterKeeps(techs, IsChassis, t);
      var j :| 0 <= j < |chassis| && chassis[j] == t;
      assert !Below(Rank(c), Rank(chassis[j]));
    }
  }

  /** The chosen engine is one no known sublight engine outranks on
      (acceleration, range). */
  lemma BlueprintEngine(techs: seq<Technology>)
    requires Blueprint(techs).Ok?
    ensures var d := Blueprint(techs).value;
      && Sublight(d.acceleration, d.sublightRange) in techs
      && forall t :: t in techs && t.Sublight? ==>
           !Below((d.acceleration, d.sublightRange), (t.acceleration, t.maximumRange))
  {
    var engines := Filter(techs, IsEngine);
    var e := engines[MaxIndex(engines)];
    forall t | t in techs && t.Sublight?
      ensures !Below((e.acceleration, e.maximumRange), (t.acceleration, t.maximumRange))
    {
      FilterKeeps(techs, IsEngine, t);
      var j :| 0 <= j < |engines| && engines[j] == t;
      assert !Below(Rank(e), Rank(engines[j]));
    }
  }

  /** The ship has a folding drive exactly when one is known, and then the
      fastest (longest-ranged among the fastest) one. */
  lemma BlueprintFtl(techs: seq<Technology>)
    requires Blueprint(techs).Ok?
    ensures var d := Blueprint(techs).value;
      && (d.ftl.Some? <==> exists f :: f in techs && f.Spacefolding?)
      && (d.ftl.Some? ==>
            && Spacefolding(d.ftl.value.speed, d.ftl.value.range) in techs
            && forall t :: t in techs && t.Spacefolding? ==>
                 !Below((d.ftl.value.speed, d.ftl.value.range), (t.ftlSpeed, t.maximumRange)))
  {
    var folds := Filter(techs, IsFold);
    if f :| f in techs && f.Spacefolding? {
      FilterKeeps(techs, IsFold, f);
    }
    if folds != [] {
      var f := folds[MaxIndex(folds)];
      forall t | t in techs && t.Spacefolding?
        ensures !Below((f.ftlSpeed, f.maximumRange), (t.ftlSpeed, t.maximumRange))
      {
        FilterKeeps(techs, IsFold, t);
        var j :| 0 <= j < |folds| && folds[j] == t;
        assert !Below(Rank(f), Rank(folds[j]));
      }
    }
  }

  /** Any discoveries that include the root of the technology tree can build
      a ship: the root provides a chassis and a sublight engine. */
  lemma RootSuffices(nodes: seq<ScienceNode>, discoveries: seq<ScienceNode>)
    requires TreeShape(nodes) && nodes[0] in discoveries
    ensures Blueprint(Dedup(Provided(discoveries))).Ok?
  {
    RootProvidesChassisAndEngine(nodes);
    var techs := Dedup(Provided(discoveries));
    var root := nodes[0];
    assert SUPERHEAVY_I in root.provided && SUBLIGHT_I in root.provided;
    ProvidedMembers(discoveries);
    var i :| 0 <= i < |discoveries| && discoveries[i] == root;
    assert SUPERHEAVY_I in Provided(discoveries) && SUBLIGHT_I in Provided(discoveries);
    BlueprintExists(techs);
  }

  // ---------------------------------------------------------------------------
  // Ship names

  /** The em dash that separates a ship name from its copy number. */
  const DASH: char := '\U{2014}'

  /** The name that replaces a purchased one in the pool: "base—2" for an
      unnumbered name, "base—(n+1)" for "base—n". A name with two dashes
      cannot be unpacked into one number, and a suffix that is not a number
      does not parse; both raise. */
  function NextName(name: string): Result<string>
  {
    var parts := Split(name, DASH);
    if |parts| == 1 then Ok(parts[0] + [DASH] + "2")
    else if |parts| > 2 then Err(MalformedName)
    else
      match ParseNat(parts[1])
      case None => Err(MalformedName)
      case Some(n) => Ok(parts[0] + [DASH] + Digits(n + 1))
  }

  /** An unnumbered name becomes its second copy. */
  lemma FirstCopy(base: string)
    requires DASH !in base
    ensures NextName(base) == Ok(base + [DASH] + "2")
  {
    SplitSingle(base, DASH);
  }

  /** A numbered name becomes the next copy of the same base, and the new
      name splits back into that base and its number. */
  lemma NextCopy(base: string, n: nat)
    requires DASH !in base
    ensures NextName(base + [DASH] + Digits(n)) == Ok(base + [DASH] + Digits(n + 1))
    ensures Split(base + [DASH] + Digits(n + 1), DASH) == [base, Digits(n + 1)]
  {
    NumeralsHaveNoDash(n);
    NumeralsHaveNoDash(n + 1);
    SplitAfterField(base, Digits(n), DASH);
    SplitSingle(Digits(n), DASH);
    SplitAfterField(base, Digits(n + 1), DASH);
    SplitSingle(Digits(n + 1), DASH);
    ParseDigits(n);
  }

  lemma NumeralsHaveNoDash(n: nat)
    ensures DASH !in Digits(n)
  {
    var s := Digits(n);
    assert forall i :: 0 <= i < |s| ==> s[i] != DASH;
  }

  /** The pool of ship names build_ships draws from (SHIP_NAMES). */
  class NamePool {
    var names: seq<string>

    constructor (names: seq<string>)
      ensures this.names == names
    {
      this.names := names;
    }

    /** SHIP_NAMES.remove(name) followed by appending its successor; when the
        successor does not parse the name is already gone. */
    method Recycle(name: string) returns (fault: Option<Fault>)
      requires name in names
      modifies this
      ensures fault.None? <==> NextName(name).Ok?
      ensures fault.None? ==> names == RemoveFirst(old(names), name) + [NextName(name).value]
      ensures fault.Some? ==> fault.value == MalformedName && names == RemoveFirst(old(names), name)
      ensures fault.None? ==> |names| == |old(names)|
    {
      names := RemoveFirst(names, name);
      var next := NextName(name);
      if next.Err? {
        return Some(next.fault);
      }
      names := names + [next.value];
      fault := None;
    }
  }
}
