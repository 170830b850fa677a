/** The pure part of the political model: opinions over five trait axes, the
    5-bit opinion hash and its philosophy names, the tolerance test of a
    government against a population, council sizing, the government a
    population prefers, and the counting thresholds of the two revolution
    checks. */
module Politics {
  import opened Numeric

  /** The trait value POP_TARGET_SIZE of a population unit, imported by the
      simulation from its constants module; it is some positive integer. */
  const POP_TARGET_SIZE: Positive

  /** The five political axes shared by governments and populations. */
  datatype Opinion = Opinion(
    autocraticDemocratic: Unit,
    conservativeProgressive: Unit,
    pacifistMilitaristic: Unit,
    secularReligious: Unit,
    traditionalistTechnological: Unit)

  /** Axis i of an opinion, in hash-bit order. */
  function Trait(o: Opinion, i: nat): Unit
    requires i < 5
  {
    match i
    case 0 => o.autocraticDemocratic
    case 1 => o.conservativeProgressive
    case 2 => o.pacifistMilitaristic
    case 3 => o.secularReligious
    case _ => o.traditionalistTechnological
  }

  /** Bit i of a hash (h >> i & 1). */
  function Bit(h: nat, i: nat): nat
  {
    if i == 0 then h % 2 else Bit(h / 2, i - 1)
  }

  /** The bits of b0 + b1 << 1 + b2 << 2 + b3 << 3 + b4 << 4. */
  lemma HashBits(b0: nat, b1: nat, b2: nat, b3: nat, b4: nat, h: nat)
    requires b0 <= 1 && b1 <= 1 && b2 <= 1 && b3 <= 1 && b4 <= 1
    requires h == b0 + b1 * 2 + b2 * 4 + b3 * 8 + b4 * 16
    ensures h < 32
    ensures Bit(h, 0) == b0 && Bit(h, 1) == b1 && Bit(h, 2) == b2 && Bit(h, 3) == b3 && Bit(h, 4) == b4
  {
    var r4 := b4;
    var r3 := b3 + 2 * r4;
    var r2 := b2 + 2 * r3;
    var r1 := b1 + 2 * r2;
    assert h == b0 + 2 * r1;
    assert h / 2 == r1 && r1 / 2 == r2 && r2 / 2 == r3 && r3 / 2 == r4;
    assert Bit(h, 1) == Bit(r1, 0);
    assert Bit(h, 2) == Bit(r1, 1) == Bit(r2, 0);
    assert Bit(h, 3) == Bit(r1, 2) == Bit(r2, 1) == Bit(r3, 0);
    assert Bit(h, 4) == Bit(r1, 3) == Bit(r2, 2) == Bit(r3, 1) == Bit(r4, 0);
  }

  function HighBit(x: Unit): nat
  {
    if x > 0.5 then 1 else 0
  }

  /** round(ad) + round(cp) << 1 + round(pm) << 2 + round(sr) << 3 + round(tt) << 4.
      Every axis lies in [0, 1], so each rounds to 1 exactly when it is above
      one half (OpinionHashRounds): the hash adds up those high bits. */
  function OpinionHash(o: Opinion): (h: nat)
    ensures h < 32
  {
    HighBit(o.autocraticDemocratic)
      + HighBit(o.conservativeProgressive) * 2
      + HighBit(o.pacifistMilitaristic) * 4
      + HighBit(o.secularReligious) * 8
      + HighBit(o.traditionalistTechnological) * 16
  }

  /** The hash is the sum of the axes rounded half to even, shifted into
      place. */
  lemma OpinionHashRounds(o: Opinion)
    ensures OpinionHash(o) == RoundHalfEven(o.autocraticDemocratic)
      + RoundHalfEven(o.conservativeProgressive) * 2
      + RoundHalfEven(o.pacifistMilitaristic) * 4
      + RoundHalfEven(o.secularReligious) * 8
      + RoundHalfEven(o.traditionalistTechnological) * 16
  {
    RoundUnit(o.autocraticDemocratic);
    RoundUnit(o.conservativeProgressive);
    RoundUnit(o.pacifistMilitaristic);
    RoundUnit(o.secularReligious);
    RoundUnit(o.traditionalistTechnological);
  }

  /** Bit i of the hash says whether axis i is above one half. */
  lemma HashBitsOfOpinion(o: Opinion)
    ensures forall i :: 0 <= i < 5 ==> Bit(OpinionHash(o), i) == HighBit(Trait(o, i))
  {
    var h := OpinionHash(o);
    HashBits(HighBit(o.autocraticDemocratic), HighBit(o.conservativeProgressive),
      HighBit(o.pacifistMilitaristic), HighBit(o.secularReligious),
      HighBit(o.traditionalistTechnological), h);
    forall i | 0 <= i < 5 ensures Bit(h, i) == HighBit(Trait(o, i)) {
      if i == 0 {} else if i == 1 {} else if i == 2 {} else if i == 3 {} else {}
    }
  }

  /** Two opinions share a hash exactly when they lie on the same side of one
      half on every axis. */
  lemma SameHashIff(a: Opinion, b: Opinion)
    ensures OpinionHash(a) == OpinionHash(b)
      <==> forall i :: 0 <= i < 5 ==> (Trait(a, i) > 0.5 <==> Trait(b, i) > 0.5)
  {
    if forall i :: 0 <= i < 5 ==> (Trait(a, i) > 0.5 <==> Trait(b, i) > 0.5) {
      assert Trait(a, 0) > 0.5 <==> Trait(b, 0) > 0.5;
      assert Trait(a, 1) > 0.5 <==> Trait(b, 1) > 0.5;
      assert Trait(a, 2) > 0.5 <==> Trait(b, 2) > 0.5;
      assert Trait(a, 3) > 0.5 <==> Trait(b, 3) > 0.5;
      assert Trait(a, 4) > 0.5 <==> Trait(b, 4) > 0.5;
    }
    if OpinionHash(a) == OpinionHash(b) {
      HashBitsOfOpinion(a);
      HashBitsOfOpinion(b);
      forall i | 0 <= i < 5 ensures Trait(a, i) > 0.5 <==> Trait(b, i) > 0.5 {
        assert Bit(OpinionHash(a), i) == Bit(OpinionHash(b), i);
      }
    }
  }

  /** The philosophy name of each hash value. */
  const PHILOSOPHIES: seq<string> := [
    "Secular Gerontocratic",
    "Democratic Traditionalist",
    "Paternalist",
    "Democratic Reformist",
    "Militarist",
    "Democratic Militarist",
    "Hegemonic Reformist",
    "Democratic Interventionist",
    "Insular Theocratic",
    "Insular Religious Democratic",
    "Tolerant Theocratic",
    "Religious Democratic",
    "Hegemonic Theocratic",
    "Militaristic Religious Democratic",
    "Hegemonic Religious Reformist",
    "Reformist Religious Democratic",
    "Oligarchic",
    "Capitalist Democratic",
    "Meritocratic",
    "Scientific Democratic",
    "Hegemonic Oligarchic",
    "Interventionist Capitalist Democratic",
    "Hegemonic Meritocratic",
    "Interventionist Scientific Democratic",
    "Scientific Theocratic",
    "Scientific Religious Democratic",
    "Religious Capitalistic Theocratic",
    "Isolationist Religious Democratic",
    "Scientific Religious Hegemonic",
    "Interventionist Religious Capitalist Democratic",
    "Hegemonic Religious Meritocratic",
    "Interventionist Religious Democratic"
  ]

  /** The philosophy lookup is total: every opinion has a name. */
  function Philosophy(o: Opinion): (name: string)
    ensures |PHILOSOPHIES| == 32
    ensures name == PHILOSOPHIES[OpinionHash(o)]
  {
    PHILOSOPHIES[OpinionHash(o)]
  }

  /** The government's opinion is within half the population's tolerance of
      the population's opinion on every axis (strictly). */
  predicate SuitableFor(government: Opinion, pop: Opinion, tolerance: Unit)
  {
    var boundary := tolerance / 2.0;
    Abs(government.autocraticDemocratic - pop.autocraticDemocratic) < boundary
    && Abs(government.conservativeProgressive - pop.conservativeProgressive) < boundary
    && Abs(government.pacifistMilitaristic - pop.pacifistMilitaristic) < boundary
    && Abs(government.secularReligious - pop.secularReligious) < boundary
    && Abs(government.traditionalistTechnological - pop.traditionalistTechnological) < boundary
  }

  lemma SuitableForIff(g: Opinion, p: Opinion, tolerance: Unit)
    ensures SuitableFor(g, p, tolerance)
      <==> forall i :: 0 <= i < 5 ==> Abs(Trait(g, i) - Trait(p, i)) < tolerance / 2.0
  {
    if forall i :: 0 <= i < 5 ==> Abs(Trait(g, i) - Trait(p, i)) < tolerance / 2.0 {
      assert Abs(Trait(g, 0) - Trait(p, 0)) < tolerance / 2.0;
      assert Abs(Trait(g, 1) - Trait(p, 1)) < tolerance / 2.0;
      assert Abs(Trait(g, 2) - Trait(p, 2)) < tolerance / 2.0;
      assert Abs(Trait(g, 3) - Trait(p, 3)) < tolerance / 2.0;
      assert Abs(Trait(g, 4) - Trait(p, 4)) < tolerance / 2.0;
    }
  }

  /** The mean absolute difference over the five axes: a government's
      suitability_for a population and a population's similarity_to another
      are both this distance (smaller means closer). */
  function Distance(a: Opinion, b: Opinion): (d: real)
    ensures 0.0 <= d <= 1.0
    ensures d == 0.0 <==> a == b
  {
    (Abs(a.autocraticDemocratic - b.autocraticDemocratic)
     + Abs(a.conservativeProgressive - b.conservativeProgressive)
     + Abs(a.pacifistMilitaristic - b.pacifistMilitaristic)
     + Abs(a.secularReligious - b.secularReligious)
     + Abs(a.traditionalistTechnological - b.traditionalistTechnological)) / 5.0
  }

  lemma DistanceSymmetric(a: Opinion, b: Opinion)
    ensures Distance(a, b) == Distance(b, a)
  {
  }

  /** A suitable government is also close on average. */
  lemma SuitableIsClose(g: Opinion, p: Opinion, tolerance: Unit)
    requires SuitableFor(g, p, tolerance)
    ensures Distance(g, p) < tolerance / 2.0
  {
  }

  /** A population with no tolerance finds no government suitable; with any
      tolerance it finds a government of its own opinion suitable. */
  lemma ToleranceExtremes(g: Opinion, p: Opinion, tolerance: Unit)
    ensures tolerance == 0.0 ==> !SuitableFor(g, p, tolerance)
    ensures tolerance > 0.0 ==> SuitableFor(p, p, tolerance)
  {
  }

  // ---------------------------------------------------------------------------
  // Council size

  /** Counting up from k, the first r with r * r * m >= population; sq
      carries k * k * m and step carries (2 * k + 1) * m, so that each step
      only adds. */
  function RootFrom(population: nat, m: Positive, k: nat, sq: int, step: int): nat
    requires step > 0
    decreases population - sq
  {
    if sq >= population then k
    else RootFrom(population, m, k + 1, sq + step, step + 2 * m)
  }

  /** Counting up from a k whose predecessor falls short finds the least
      root. */
  lemma {:induction false} RootFromLeast(population: nat, m: Positive, k: nat, sq: int, step: int)
    requires sq == k * k * m && step == (2 * k + 1) * m
    requires k == 0 || (k - 1) * (k - 1) * m < population
    ensures var r := RootFrom(population, m, k, sq, step);
      && r >= k
      && r * r * m >= population
      && (r == 0 || (r - 1) * (r - 1) * m < population)
    decreases population - sq
  {
    assert step > 0 by {
      assert (2 * k + 1) * m >= m;
    }
    if sq < population {
      assert sq + step == (k + 1) * (k + 1) * m by {
        assert (k + 1) * (k + 1) == k * k + (2 * k + 1);
        assert (k * k + (2 * k + 1)) * m == k * k * m + (2 * k + 1) * m;
      }
      assert step + 2 * m == (2 * (k + 1) + 1) * m;
      RootFromLeast(population, m, k + 1, sq + step, step + 2 * m);
    }
  }

  /** ceil(sqrt(population / POP_TARGET_SIZE / 50)), computed exactly: the
      least k >= 0 with k * k >= population / POP_TARGET_SIZE / 50. */
  function CouncilSize(population: nat): nat
  {
    RootFrom(population, 50 * POP_TARGET_SIZE, 0, 0, 50 * POP_TARGET_SIZE)
  }

  /** The council size squared covers the population, and one seat fewer
      would not. */
  lemma CouncilSizeBounds(population: nat)
    ensures var k := CouncilSize(population);
      && k * k * (50 * POP_TARGET_SIZE) >= population
      && (k == 0 || (k - 1) * (k - 1) * (50 * POP_TARGET_SIZE) < population)
  {
    RootFromLeast(population, 50 * POP_TARGET_SIZE, 0, 0, 50 * POP_TARGET_SIZE);
  }

  lemma CouncilSizeZeroIff(population: nat)
    ensures CouncilSize(population) == 0 <==> population == 0
  {
    CouncilSizeBounds(population);
  }

  /** The council size is the least such k: no smaller k will do. */
  lemma SquareMonotone(a: nat, b: nat, m: nat)
    requires a <= b
    ensures a * a * m <= b * b * m
  {
    assert a * a <= a * b <= b * b;
  }

  lemma CouncilSizeLeast(population: nat, j: nat)
    requires j * j * (50 * POP_TARGET_SIZE) >= population
    ensures CouncilSize(population) <= j
  {
    var k := CouncilSize(population);
    CouncilSizeBounds(population);
    if k > j {
      SquareMonotone(j, k - 1, 50 * POP_TARGET_SIZE);
    }
  }

  /** A settlement of n full population units needs a council of about the
      square root of n / 50: at most n of them. */
  lemma CouncilSizeAtMostUnits(n: nat)
    ensures CouncilSize(n * POP_TARGET_SIZE) <= n
  {
    var m := 50 * POP_TARGET_SIZE;
    if n > 0 {
      assert n * n >= n;
      assert n * n * m >= n * m;
      assert n * m >= n * POP_TARGET_SIZE;
    }
    CouncilSizeLeast(n * POP_TARGET_SIZE, n);
  }

  // ---------------------------------------------------------------------------
  // Government kinds

  datatype GovKind =
    | Dictatorship
    | HereditaryDictatorship
    | Autocracy
    | HereditaryAutocracy
    | RepresentativeDemocracy
    | RepresentativeCoalition
    | DirectDemocracy
    | DirectConsensus
  {
    /** Dictatorship and its hereditary subclass. */
    predicate IsDictatorship() { this == Dictatorship || this == HereditaryDictatorship }
    /** Autocracy and its hereditary subclass. */
    predicate IsAutocracy() { this == Autocracy || this == HereditaryAutocracy }
    /** RepresentativeDemocracy and its coalition subclass. */
    predicate IsRepresentative() { this == RepresentativeDemocracy || this == RepresentativeCoalition }
    /** DirectDemocracy and its consensus subclass. */
    predicate IsDirect() { this == DirectDemocracy || this == DirectConsensus }
    predicate IsDemocratic() { IsRepresentative() || IsDirect() }

    function Name(): string
    {
      match this
      case Dictatorship => "dictatorship"
      case HereditaryDictatorship => "hereditary dictatorship"
      case Autocracy => "autocracy"
      case HereditaryAutocracy => "hereditary autocracy"
      case RepresentativeDemocracy => "representative democracy"
      case RepresentativeCoalition => "representative coalition"
      case DirectDemocracy => "direct democracy"
      case DirectConsensus => "direct consensus"
    }
  }

  /** The four families partition the kinds. */
  lemma FamiliesPartition(k: GovKind)
    ensures k.IsDictatorship() || k.IsAutocracy() || k.IsRepresentative() || k.IsDirect()
    ensures !(k.IsDictatorship() && k.IsAutocracy())
    ensures !(k.IsRepresentative() && k.IsDirect())
    ensures k.IsDemocratic() <==> !(k.IsDictatorship() || k.IsAutocracy())
  {
  }

  /** The four non-democratic kinds, the choices of an unrepresentative drift. */
  const AUTOCRATIC_KINDS: seq<GovKind> :=
    [Dictatorship, HereditaryDictatorship, Autocracy, HereditaryAutocracy]

  /** The decision tree of Population.preferred_government. */
  function PreferredGovernment(o: Opinion): (k: GovKind)
    ensures k.IsDemocratic() <==> o.autocraticDemocratic > 0.5
  {
    if o.autocraticDemocratic > 0.5 then
      if o.conservativeProgressive < 0.5 then
        if o.traditionalistTechnological < 0.5 then RepresentativeDemocracy else RepresentativeCoalition
      else
        if o.traditionalistTechnological < 0.5 then DirectDemocracy else DirectConsensus
    else
      if o.conservativeProgressive < 0.5 then
        if o.traditionalistTechnological < 0.5 then HereditaryDictatorship else Dictatorship
      else
        if o.traditionalistTechnological < 0.5 then HereditaryAutocracy else Autocracy
  }

  /** The eight leaves of the tree are eight distinct kinds: two opinions get
      the same kind exactly when they take the same branch at all three tests. */
  lemma PreferredGovernmentLeaves(a: Opinion, b: Opinion)
    ensures PreferredGovernment(a) == PreferredGovernment(b)
      <==> ((a.autocraticDemocratic > 0.5 <==> b.autocraticDemocratic > 0.5)
            && (a.conservativeProgressive < 0.5 <==> b.conservativeProgressive < 0.5)
            && (a.traditionalistTechnological < 0.5 <==> b.traditionalistTechnological < 0.5))
  {
  }

  /** Every kind is some opinion's preference. */
  lemma PreferredGovernmentOnto(k: GovKind)
    ensures exists o: Opinion :: PreferredGovernment(o) == k
  {
    var hi := 1.0;
    var lo := 0.0;
    match k
    case RepresentativeDemocracy => assert PreferredGovernment(Opinion(hi, lo, lo, lo, lo)) == k;
    case RepresentativeCoalition => assert PreferredGovernment(Opinion(hi, lo, lo, lo, hi)) == k;
    case DirectDemocracy => assert PreferredGovernment(Opinion(hi, hi, lo, lo, lo)) == k;
    case DirectConsensus => assert PreferredGovernment(Opinion(hi, hi, lo, lo, hi)) == k;
    case HereditaryDictatorship => assert PreferredGovernment(Opinion(lo, lo, lo, lo, lo)) == k;
    case Dictatorship => assert PreferredGovernment(Opinion(lo, lo, lo, lo, hi)) == k;
    case HereditaryAutocracy => assert PreferredGovernment(Opinion(lo, hi, lo, lo, lo)) == k;
    case Autocracy => assert PreferredGovernment(Opinion(lo, hi, lo, lo, hi)) == k;
  }

  /** political_engagement: distance of the autocratic/democratic axis from
      the centre, scaled to [0, 1]. */
  function PoliticalEngagement(o: Opinion): (e: real)
    ensures 0.0 <= e <= 1.0
    ensures e == 0.0 <==> o.autocraticDemocratic == 0.5
    ensures e == 1.0 <==> o.autocraticDemocratic == 0.0 || o.autocraticDemocratic == 1.0
  {
    Abs(o.autocraticDemocratic - 0.5) * 2.0
  }

  // ---------------------------------------------------------------------------
  // Revolution thresholds

  /** Outcome of is_population_going_to_overthrow_government, by counts. */
  datatype Uprising = PeacefulRevolution | ViolentRevolution | NoUprising

  function OverthrowVerdict(loyal: nat, unhappy: nat, rebels: nat): Uprising
  {
    if unhappy > loyal * 5 then PeacefulRevolution
    else if rebels >= loyal * 3 then ViolentRevolution
    else NoUprising
  }

  /** A peaceful revolution needs a non-empty unhappy group; with no loyal
      pops some revolution always fires (the violent one even with no rebels
      at all, which then has nothing to choose from). */
  lemma OverthrowNeedsLoyalty(loyal: nat, unhappy: nat, rebels: nat)
    ensures OverthrowVerdict(loyal, unhappy, rebels) == PeacefulRevolution ==> unhappy > 0
    ensures OverthrowVerdict(loyal, unhappy, rebels) == NoUprising ==> loyal > 0
    ensures OverthrowVerdict(0, 0, 0) == ViolentRevolution
  {
  }

  /** More loyal pops never provoke an uprising that fewer did not. */
  lemma OverthrowMonotone(loyal: nat, more: nat, unhappy: nat, rebels: nat)
    requires loyal <= more
    requires OverthrowVerdict(loyal, unhappy, rebels) == NoUprising
    ensures OverthrowVerdict(more, unhappy, rebels) == NoUprising
  {
  }

  /** Outcome of is_government_going_to_become_autocracy, by counts. */
  datatype Drift = DriftToAutocracy | ViolentAutocrats | Overthrown | NoDrift

  function DriftVerdict(loyal: nat, unhappy: nat, rebels: nat, governmentAd: real): Drift
  {
    if loyal > unhappy * 2 && governmentAd < 0.25 then DriftToAutocracy
    else if rebels > loyal * 3 then ViolentAutocrats
    else if unhappy > loyal * 5 then Overthrown
    else NoDrift
  }

  /** Drift needs a government leaning autocratic and a loyal majority; each
      of the other outcomes has a non-empty group to choose from. */
  lemma DriftGroupsNonEmpty(loyal: nat, unhappy: nat, rebels: nat, ad: real)
    requires rebels <= unhappy
    ensures DriftVerdict(loyal, unhappy, rebels, ad) == DriftToAutocracy ==> loyal > 0 && ad < 0.25
    ensures DriftVerdict(loyal, unhappy, rebels, ad) == ViolentAutocrats ==> rebels > 0 && unhappy > 0
    ensures DriftVerdict(loyal, unhappy, rebels, ad) == Overthrown ==> unhappy > 0
    ensures ad >= 0.25 && DriftVerdict(loyal, unhappy, rebels, ad) == NoDrift ==> rebels <= loyal * 3 && unhappy <= loyal * 5
  {
  }

  /** A democratically-minded government (ad >= 0.25) never drifts. */
  lemma NoDriftWhenDemocratic(loyal: nat, unhappy: nat, rebels: nat, ad: real)
    requires ad >= 0.25
    ensures DriftVerdict(loyal, unhappy, rebels, ad) != DriftToAutocracy
  {
  }

  // ---------------------------------------------------------------------------
  // Averaging opinions

  /** Axis i of every opinion in ops. */
  function Column(ops: seq<Opinion>, i: nat): (col: seq<real>)
    requires i < 5
    ensures |col| == |ops|
    ensures forall j :: 0 <= j < |ops| ==> col[j] == Trait(ops[j], i)
  {
    seq(|ops|, j requires 0 <= j < |ops| => Trait(ops[j], i) as real)
  }

  function MeanTrait(ops: seq<Opinion>, i: nat): (m: Unit)
    requires |ops| > 0 && i < 5
    ensures m == Mean(Column(ops, i))
  {
    MeanBounds(Column(ops, i), 0.0, 1.0);
    Mean(Column(ops, i))
  }

  function MinOf(xs: seq<real>): (m: real)
    requires |xs| > 0
    ensures forall j :: 0 <= j < |xs| ==> m <= xs[j]
    ensures exists j :: 0 <= j < |xs| && m == xs[j]
  {
    if |xs| == 1 then xs[0]
    else
      var rest := MinOf(xs[1..]);
      assert forall j :: 1 <= j < |xs| ==> xs[j] == xs[1..][j - 1];
      if xs[0] <= rest then xs[0] else rest
  }

  function MaxOf(xs: seq<real>): (m: real)
    requires |xs| > 0
    ensures forall j :: 0 <= j < |xs| ==> xs[j] <= m
    ensures exists j :: 0 <= j < |xs| && m == xs[j]
  {
    if |xs| == 1 then xs[0]
    else
      var rest := MaxOf(xs[1..]);
      assert forall j :: 1 <= j < |xs| ==> xs[j] == xs[1..][j - 1];
      if xs[0] >= rest then xs[0] else rest
  }

  /** average_opinion: the opinion whose every axis is the mean of that
      axis over ops (AverageIsMean states it). */
  function AverageOpinion(ops: seq<Opinion>): Opinion
    requires |ops| > 0
  {
    Opinion(MeanTrait(ops, 0), MeanTrait(ops, 1), MeanTrait(ops, 2), MeanTrait(ops, 3), MeanTrait(ops, 4))
  }

  /** Axis i of the average is the arithmetic mean of that axis over ops,
      and lies between the smallest and the largest value of that axis. */
  lemma AverageAxis(ops: seq<Opinion>, i: nat)
    requires |ops| > 0 && i < 5
    ensures Trait(AverageOpinion(ops), i) == Mean(Column(ops, i))
    ensures MinOf(Column(ops, i)) <= Trait(AverageOpinion(ops), i) <= MaxOf(Column(ops, i))
  {
    var col := Column(ops, i);
    MeanBounds(col, MinOf(col), MaxOf(col));
    assert Trait(AverageOpinion(ops), i) == MeanTrait(ops, i);
  }

  /** average_opinion: every axis is the mean of that axis over ops. */
  lemma AverageIsMean(ops: seq<Opinion>)
    requires |ops| > 0
    ensures forall i :: 0 <= i < 5 ==> Trait(AverageOpinion(ops), i) == Mean(Column(ops, i))
    ensures forall i :: 0 <= i < 5 ==>
      MinOf(Column(ops, i)) <= Trait(AverageOpinion(ops), i) <= MaxOf(Column(ops, i))
  {
    forall i | 0 <= i < 5
      ensures Trait(AverageOpinion(ops), i) == Mean(Column(ops, i))
      ensures MinOf(Column(ops, i)) <= Trait(AverageOpinion(ops), i) <= MaxOf(Column(ops, i))
    {
      AverageAxis(ops, i);
    }
  }

  /** All opinions equal to o average to o. */
  lemma AverageOfSame(ops: seq<Opinion>, o: Opinion)
    requires |ops| > 0
    requires forall j :: 0 <= j < |ops| ==> ops[j] == o
    ensures AverageOpinion(ops) == o
  {
    var r := AverageOpinion(ops);
    forall i | 0 <= i < 5 ensures Trait(r, i) == Trait(o, i) {
      AverageAxis(ops, i);
      MeanOfConstant(Column(ops, i), Trait(o, i));
    }
    OpinionsEqual(r, o);
  }

  /** Opinions agreeing on all five axes are equal. */
  lemma OpinionsEqual(a: Opinion, b: Opinion)
    requires forall i :: 0 <= i < 5 ==> Trait(a, i) == Trait(b, i)
    ensures a == b
  {
    assert Trait(a, 0) == Trait(b, 0) && Trait(a, 1) == Trait(b, 1) && Trait(a, 2) == Trait(b, 2);
    assert Trait(a, 3) == Trait(b, 3) && Trait(a, 4) == Trait(b, 4);
  }

  lemma MeanOfConstant(xs: seq<real>, v: real)
    requires |xs| > 0
    requires forall j :: 0 <= j < |xs| ==> xs[j] == v
    ensures Mean(xs) == v
  {
    MeanBounds(xs, v, v);
  }

  lemma MeanAbove(xs: seq<real>, lo: real)
    requires |xs| > 0
    requires forall j :: 0 <= j < |xs| ==> xs[j] > lo
    ensures Mean(xs) > lo
  {
    StrictSumAbove(xs, lo);
    var n := |xs| as real;
    assert SumReal(xs) > n * lo;
    assert SumReal(xs) / n > (n * lo) / n;
  }

  lemma {:induction false} StrictSumAbove(xs: seq<real>, lo: real)
    requires |xs| > 0
    requires forall j :: 0 <= j < |xs| ==> xs[j] > lo
    ensures SumReal(xs) > |xs| as real * lo
    decreases |xs|
  {
    if |xs| > 1 {
      StrictSumAbove(xs[..|xs| - 1], lo);
    }
  }

  /** Averaging opinions that agree on which side of one half axis i lies
      keeps that side. */
  lemma AverageKeepsSide(ops: seq<Opinion>, i: nat)
    requires |ops| > 0 && i < 5
    requires forall j :: 0 <= j < |ops| ==> (Trait(ops[j], i) > 0.5 <==> Trait(ops[0], i) > 0.5)
    ensures Trait(AverageOpinion(ops), i) > 0.5 <==> Trait(ops[0], i) > 0.5
  {
    var col := Column(ops, i);
    AverageAxis(ops, i);
    if Trait(ops[0], i) > 0.5 {
      MeanAbove(col, 0.5);
    } else {
      MeanBounds(col, 0.0, 0.5);
    }
  }

  /** The average of opinions sharing a hash has that hash: a bloc keeps its
      philosophy when averaged. */
  lemma AverageKeepsHash(ops: seq<Opinion>, h: nat)
    requires |ops| > 0
    requires forall j :: 0 <= j < |ops| ==> OpinionHash(ops[j]) == h
    ensures OpinionHash(AverageOpinion(ops)) == h
  {
    forall j | 0 <= j < |ops|
      ensures forall i :: 0 <= i < 5 ==> (Trait(ops[j], i) > 0.5 <==> Trait(ops[0], i) > 0.5)
    {
      SameHashIff(ops[j], ops[0]);
    }
    forall i | 0 <= i < 5 ensures Trait(AverageOpinion(ops), i) > 0.5 <==> Trait(ops[0], i) > 0.5 {
      AverageKeepsSide(ops, i);
    }
    SameHashIff(AverageOpinion(ops), ops[0]);
  }

  /** The opinions of ops with hash h. */
  function Bloc(ops: seq<Opinion>, h: nat): (b: seq<Opinion>)
    ensures |b| <= |ops|
    ensures forall o :: o in b <==> o in ops && OpinionHash(o) == h
  {
    if ops == [] then []
    else if OpinionHash(ops[|ops| - 1]) == h then Bloc(ops[..|ops| - 1], h) + [ops[|ops| - 1]]
    else Bloc(ops[..|ops| - 1], h)
  }

  function HashEntries(ops: seq<Opinion>): (e: seq<(nat, int)>)
    ensures |e| == |ops|
    ensures forall j :: 0 <= j < |ops| ==> e[j] == (OpinionHash(ops[j]), 1)
  {
    seq(|ops|, j requires 0 <= j < |ops| => (OpinionHash(ops[j]), 1))
  }

  lemma {:induction false} BlocSize(ops: seq<Opinion>, h: nat)
    ensures WeightOf(HashEntries(ops), h) == |Bloc(ops, h)|
    decreases |ops|
  {
    if ops != [] {
      assert HashEntries(ops)[..|ops| - 1] == HashEntries(ops[..|ops| - 1]);
      BlocSize(ops[..|ops| - 1], h);
    }
  }

  /** The hash with the most members, the first to appear on ties: the
      defaultdict of lists keyed by hash, then max by list length. */
  function MajorityHash(ops: seq<Opinion>): nat
    requires |ops| > 0
  {
    var c := Tally(HashEntries(ops));
    assert OpinionHash(ops[0]) in Keys(c);
    c[FirstMaxIndex(c)].0
  }

  /** The majority hash is the hash of some opinion of ops, and no bloc of
      ops is larger than its bloc. */
  lemma MajorityHashLargest(ops: seq<Opinion>)
    requires |ops| > 0
    ensures exists j :: 0 <= j < |ops| && OpinionHash(ops[j]) == MajorityHash(ops)
    ensures forall j :: 0 <= j < |ops| ==> |Bloc(ops, OpinionHash(ops[j]))| <= |Bloc(ops, MajorityHash(ops))|
  {
    var c := Tally(HashEntries(ops));
    assert OpinionHash(ops[0]) in Keys(HashEntries(ops));
    assert OpinionHash(ops[0]) in Keys(c);
    var w := c[FirstMaxIndex(c)].0;
    assert w == MajorityHash(ops);
    assert w in Keys(c);
    forall j | 0 <= j < |ops| ensures |Bloc(ops, OpinionHash(ops[j]))| <= |Bloc(ops, w)| {
      var hj := OpinionHash(ops[j]);
      assert Keys(HashEntries(ops))[j] == hj;
      assert hj in Keys(c);
      var k :| 0 <= k < |c| && c[k].0 == hj;
      BlocSize(ops, hj);
      BlocSize(ops, w);
    }
    var wi :| 0 <= wi < |HashEntries(ops)| && Keys(HashEntries(ops))[wi] == w;
  }

  /** The opinion of the largest bloc (infer_opinions of the democracies). */
  function MajorityOpinion(ops: seq<Opinion>): Opinion
    requires |ops| > 0
  {
    AverageOpinion(Bloc(ops, MajorityHash(ops)))
  }

  /** The majority opinion lies in the largest bloc's own hash bucket: the
      mean of a bloc sharing a hash keeps that hash. */
  lemma MajorityOpinionHash(ops: seq<Opinion>)
    requires |ops| > 0
    ensures |Bloc(ops, MajorityHash(ops))| > 0
    ensures OpinionHash(MajorityOpinion(ops)) == MajorityHash(ops)
  {
    var h := MajorityHash(ops);
    MajorityHashLargest(ops);
    var b := Bloc(ops, h);
    var j :| 0 <= j < |ops| && OpinionHash(ops[j]) == h;
    assert ops[j] in b;
    forall k | 0 <= k < |b| ensures OpinionHash(b[k]) == h {
      assert b[k] in b;
    }
    AverageKeepsHash(b, h);
  }

  /** A lone opinion is its own majority. */
  lemma MajorityOfOne(o: Opinion)
    ensures MajorityOpinion([o]) == o
  {
    var h := MajorityHash([o]);
    MajorityHashLargest([o]);
    assert OpinionHash(o) == h;
    var b := Bloc([o], h);
    assert b == [o];
    AverageOfSame(b, o);
  }
}
