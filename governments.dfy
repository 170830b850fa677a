/** The governments of a settlement: dictatorships, autocracies and
    representative and direct democracies, each keeping its own opinion over
    the five political axes, with their council maintenance, their yearly
    govern step, and the two revolution checks that may replace them.

    The source's class hierarchy becomes one class tagged by its GovKind.
    The settlement a government works on is passed as its list of pops; the
    settlement's random generator becomes nondeterministic choices. */
module Governments {
  import opened Numeric
  import opened Politics
  import opened Populations
  import opened Elections

  // ---------------------------------------------------------------------------
  // Groups of pops

  /** The opinion of every pop, in order. */
  function Opinions(ps: seq<Population>): (os: seq<Opinion>)
    ensures |os| == |ps|
    ensures forall i :: 0 <= i < |ps| ==> os[i] == ps[i].traits.opinion
  {
    seq(|ps|, i requires 0 <= i < |ps| => ps[i].traits.opinion)
  }

  /** Government.suitable_for for a government holding opinion g. */
  predicate Suits(g: Opinion, p: Population)
  {
    SuitableFor(g, p.traits.opinion, p.traits.tolerance)
  }

  /** The pops a government with opinion g suits, in order: its candidates
      and its loyal pops. */
  function Suited(g: Opinion, ps: seq<Population>): (r: seq<Population>)
    ensures |r| <= |ps|
    ensures forall i :: 0 <= i < |r| ==> r[i] in ps && Suits(g, r[i])
    ensures forall i :: 0 <= i < |ps| && Suits(g, ps[i]) ==> ps[i] in r
  {
    if ps == [] then []
    else
      var last := ps[|ps| - 1];
      assert forall i :: 0 <= i < |ps| - 1 ==> ps[i] == ps[..|ps| - 1][i];
      Suited(g, ps[..|ps| - 1]) + (if Suits(g, last) then [last] else [])
  }

  /** A pop the government does not suit and whose political engagement is
      above 0.75. */
  predicate Disaffected(g: Opinion, p: Population)
  {
    !Suits(g, p) && p.PoliticalEngagement() > 0.75
  }

  /** The unhappy pops of the two revolution checks, in order. */
  function Unhappy(g: Opinion, ps: seq<Population>): (r: seq<Population>)
    ensures |r| <= |ps|
    ensures forall i :: 0 <= i < |r| ==> r[i] in ps && Disaffected(g, r[i])
    ensures forall i :: 0 <= i < |ps| && Disaffected(g, ps[i]) ==> ps[i] in r
  {
    if ps == [] then []
    else
      var last := ps[|ps| - 1];
      assert forall i :: 0 <= i < |ps| - 1 ==> ps[i] == ps[..|ps| - 1][i];
      Unhappy(g, ps[..|ps| - 1]) + (if Disaffected(g, last) then [last] else [])
  }

  /** A militarist (pacifist/militaristic at least 0.75); when autocratsOnly,
      also leaning hard autocratic (autocratic/democratic below 0.25). */
  predicate Militant(p: Population, autocratsOnly: bool)
  {
    p.traits.opinion.pacifistMilitaristic >= 0.75
    && (autocratsOnly ==> p.traits.opinion.autocraticDemocratic < 0.25)
  }

  /** The rebels among the unhappy pops, in order. */
  function Rebels(unhappy: seq<Population>, autocratsOnly: bool): (r: seq<Population>)
    ensures |r| <= |unhappy|
    ensures forall i :: 0 <= i < |r| ==> r[i] in unhappy && Militant(r[i], autocratsOnly)
    ensures forall i :: 0 <= i < |unhappy| && Militant(unhappy[i], autocratsOnly) ==> unhappy[i] in r
  {
    if unhappy == [] then []
    else
      var last := unhappy[|unhappy| - 1];
      assert forall i :: 0 <= i < |unhappy| - 1 ==> unhappy[i] == unhappy[..|unhappy| - 1][i];
      Rebels(unhappy[..|unhappy| - 1], autocratsOnly) + (if Militant(last, autocratsOnly) then [last] else [])
  }

  /** The pops leaning autocratic (autocratic/democratic below 0.5): the
      preferred seeds of an autocratic council. */
  function AutocraticLeaning(ps: seq<Population>): (r: seq<Population>)
    ensures |r| <= |ps|
    ensures forall i :: 0 <= i < |r| ==> r[i] in ps && r[i].traits.opinion.autocraticDemocratic < 0.5
    ensures forall i :: 0 <= i < |ps| && ps[i].traits.opinion.autocraticDemocratic < 0.5 ==> ps[i] in r
  {
    if ps == [] then []
    else
      var last := ps[|ps| - 1];
      assert forall i :: 0 <= i < |ps| - 1 ==> ps[i] == ps[..|ps| - 1][i];
      AutocraticLeaning(ps[..|ps| - 1]) + (if last.traits.opinion.autocraticDemocratic < 0.5 then [last] else [])
  }

  /** The councillors that are not dead, in order. */
  function Surviving(cs: seq<Population>): (r: seq<Population>)
    reads cs`startingPopulation
    ensures |r| <= |cs|
    ensures forall i :: 0 <= i < |r| ==> r[i] in cs && !r[i].IsDead()
    ensures forall i :: 0 <= i < |cs| && !cs[i].IsDead() ==> cs[i] in r
  {
    if cs == [] then []
    else
      var last := cs[|cs| - 1];
      assert forall i :: 0 <= i < |cs| - 1 ==> cs[i] == cs[..|cs| - 1][i];
      Surviving(cs[..|cs| - 1]) + (if !last.IsDead() then [last] else [])
  }

  /** The preferred government of every pop, in order. */
  function PreferredKinds(ps: seq<Population>): (ks: seq<GovKind>)
    ensures |ks| == |ps|
    ensures forall i :: 0 <= i < |ps| ==> ks[i] == ps[i].PreferredGovernment()
  {
    seq(|ps|, i requires 0 <= i < |ps| => ps[i].PreferredGovernment())
  }

  /** The loop shared by is_population_going_to_overthrow_government and
      is_government_going_to_become_autocracy: every pop the government suits
      is loyal, every disaffected pop is unhappy, and the unhappy militants
      are rebels (in the autocracy check only hard autocrats count). */
  method Factions(g: Opinion, pops: seq<Population>, autocratsOnly: bool)
    returns (loyal: seq<Population>, unhappy: seq<Population>, rebels: seq<Population>)
    ensures loyal == Suited(g, pops) && unhappy == Unhappy(g, pops)
    ensures rebels == Rebels(unhappy, autocratsOnly)
    ensures forall i, j :: 0 <= i < |loyal| && 0 <= j < |unhappy| ==> loyal[i] != unhappy[j]
    ensures forall i :: 0 <= i < |rebels| ==> rebels[i] in unhappy
  {
    loyal, unhappy, rebels := [], [], [];
    for i := 0 to |pops|
      invariant loyal == Suited(g, pops[..i]) && unhappy == Unhappy(g, pops[..i])
      invariant rebels == Rebels(unhappy, autocratsOnly)
    {
      var pop := pops[i];
      FactionsStep(g, pops, i, autocratsOnly);
      var suitable := Suits(g, pop);
      if !suitable && pop.PoliticalEngagement() > 0.75 {
        unhappy := unhappy + [pop];
        if pop.traits.opinion.pacifistMilitaristic >= 0.75
           && (!autocratsOnly || pop.traits.opinion.autocraticDemocratic < 0.25) {
          rebels := rebels + [pop];
        }
      } else if suitable {
        loyal := loyal + [pop];
      }
    }
    assert pops[..|pops|] == pops;
  }

  /** One more pop extends each group by at most that pop. */
  lemma FactionsStep(g: Opinion, pops: seq<Population>, i: nat, autocratsOnly: bool)
    requires i < |pops|
    ensures Suited(g, pops[..i + 1]) == Suited(g, pops[..i]) + (if Suits(g, pops[i]) then [pops[i]] else [])
    ensures Unhappy(g, pops[..i + 1]) == Unhappy(g, pops[..i]) + (if Disaffected(g, pops[i]) then [pops[i]] else [])
    ensures Rebels(Unhappy(g, pops[..i]) + [pops[i]], autocratsOnly)
      == Rebels(Unhappy(g, pops[..i]), autocratsOnly) + (if Militant(pops[i], autocratsOnly) then [pops[i]] else [])
  {
    assert pops[..i + 1][..i] == pops[..i];
    var u := Unhappy(g, pops[..i]);
    assert (u + [pops[i]])[..|u|] == u;
  }

  // ---------------------------------------------------------------------------
  // Governments

  /** What a govern step or a revolution check leads to: the government
      stays, a new one replaces it, or the run aborts with an exception. */
  datatype Outcome = Unchanged | Replaced(government: Government) | Crashed(fault: Fault)

  /** The opinion a government holds before it first infers one. */
  const UNFORMED := Opinion(0.5, 0.5, 0.5, 0.5, 0.5)

  /** The pool choose_new_dictator draws from: for a hereditary dictatorship
      the old dictator's descendent pops, if any; otherwise the pops the
      government suits, if any; otherwise every pop. */
  function DictatorCandidates(kind: GovKind, g: Opinion, heirs: seq<Population>, pops: seq<Population>): (cs: seq<Population>)
    ensures cs == [] <==> pops == [] && (kind != HereditaryDictatorship || heirs == [])
    ensures forall i :: 0 <= i < |cs| ==> cs[i] in pops || (kind == HereditaryDictatorship && cs[i] in heirs)
    ensures (kind != HereditaryDictatorship || heirs == []) && Suited(g, pops) != []
            ==> forall i :: 0 <= i < |cs| ==> Suits(g, cs[i])
  {
    if kind == HereditaryDictatorship && heirs != [] then heirs
    else if Suited(g, pops) != [] then Suited(g, pops)
    else pops
  }

  /** The pool elect_initital_councilor draws from: the pops leaning
      autocratic, or every pop if none does. */
  function SeedCandidates(pops: seq<Population>): (cs: seq<Population>)
    ensures cs == [] <==> pops == []
    ensures forall i :: 0 <= i < |cs| ==> cs[i] in pops
    ensures AutocraticLeaning(pops) != [] ==> forall i :: 0 <= i < |cs| ==> cs[i].traits.opinion.autocraticDemocratic < 0.5
  {
    if AutocraticLeaning(pops) != [] then AutocraticLeaning(pops) else pops
  }

  /** The rule of select_council_members (and of the hereditary
      replacements): nobody when nothing is missing, the whole pool when it
      holds fewer than required, otherwise a sample of exactly the missing
      number. */
  ghost predicate Recruited(added: seq<Population>, pool: seq<Population>, required: int)
  {
    && (required <= 0 ==> added == [])
    && (required > |pool| ==> added == pool)
    && (0 < required <= |pool| ==> |added| == required && IsSample(added, pool))
  }

  /** The draw shared by select_council_members and the hereditary
      replacement: nothing when none is required, the whole pool when it is
      too small, else rng.sample(pool, required). */
  method Draw(pool: seq<Population>, required: int) returns (added: seq<Population>)
    ensures Recruited(added, pool, required)
    ensures forall i :: 0 <= i < |added| ==> added[i] in pool
  {
    if required <= 0 {
      added := [];
    } else if required > |pool| {
      added := pool;
    } else {
      added := Sample(pool, required);
    }
  }

  /** A recruitment takes min(required, |pool|) members (none when none is
      required), all from the pool, none twice when the pool has no repeats. */
  lemma RecruitedSize(added: seq<Population>, pool: seq<Population>, required: int)
    requires Recruited(added, pool, required)
    ensures |added| == if required <= 0 then 0 else Min(required, |pool|)
    ensures forall i :: 0 <= i < |added| ==> added[i] in pool
    ensures (forall i, j :: 0 <= i < j < |pool| ==> pool[i] != pool[j]) ==>
      forall i, j :: 0 <= i < j < |added| ==> added[i] != added[j]
  {
    if 0 < required <= |pool| {
      var pos :| SampledAt(added, pool, pos);
      forall i | 0 <= i < |added| ensures added[i] in pool {
        assert added[i] == pool[pos[i]];
      }
    }
  }

  /** Government.council_size for a settlement of these pops. */
  function CouncilSizeFor(pops: seq<Population>): nat
    reads pops`startingPopulation, pops`descendents, pops`happiness, pops`children
    requires forall i :: 0 <= i < |pops| ==> pops[i].Valid()
  {
    TotalPopulationSplits(pops);
    CouncilSize(TotalPopulation(pops))
  }

  /** Pops whose sizes, happiness, children and descendent pops are as
      they were call for the council size they called for, and have the
      descendent pops they had. */
  twostate lemma PopsKept(pops: seq<Population>)
    requires forall i :: 0 <= i < |pops| ==> old(allocated(pops[i])) && old(pops[i].Valid())
    requires forall i :: 0 <= i < |pops| ==>
      && pops[i].startingPopulation == old(pops[i].startingPopulation) && pops[i].descendents == old(pops[i].descendents)
      && pops[i].happiness == old(pops[i].happiness) && pops[i].children == old(pops[i].children)
      && pops[i].descendentPops == old(pops[i].descendentPops)
    ensures forall i :: 0 <= i < |pops| ==> pops[i].Valid()
    ensures CouncilSizeFor(pops) == old(CouncilSizeFor(pops)) && AllDescendentPops(pops) == old(AllDescendentPops(pops))
  {
  }

  /** The pops have the sizes, happiness, children and descendent pops
      they had: what no election, appointment or succession changes. */
  twostate predicate Unaltered(pops: seq<Population>)
    reads pops`startingPopulation, pops`descendents, pops`happiness, pops`children, pops`descendentPops
  {
    forall i :: 0 <= i < |pops| ==>
      && pops[i].startingPopulation == old(pops[i].startingPopulation) && pops[i].descendents == old(pops[i].descendents)
      && pops[i].happiness == old(pops[i].happiness) && pops[i].children == old(pops[i].children)
      && pops[i].descendentPops == old(pops[i].descendentPops)
  }

  /** The pops' mergeable flags, in order. */
  ghost function Mergeable(pops: seq<Population>): (flags: seq<bool>)
    reads pops`mergeable
    ensures |flags| == |pops| && forall i {:trigger flags[i]} :: 0 <= i < |pops| ==> flags[i] == pops[i].mergeable
  {
    if pops == [] then [] else [pops[0].mergeable] + Mergeable(pops[1..])
  }

  /** The mergeable flags an autocratic seating leaves on pops whose flags
      were was: the councillors from index from on, those seated anew, are
      no longer mergeable, and every pop outside them keeps its flag. */
  ghost predicate Reseated(was: seq<bool>, pops: seq<Population>, council: seq<Population>, from: nat)
    reads pops`mergeable, council`mergeable
  {
    && |was| == |pops| && from <= |council|
    && (forall i :: from <= i < |council| ==> !council[i].mergeable)
    && (forall i {:trigger was[i]} :: 0 <= i < |pops| && pops[i] !in council[from..] ==> pops[i].mergeable == was[i])
  }

  /** The mergeable flags a representative election leaves on pops whose
      flags were was: the released council is mergeable again, except a
      lone pop, which is seated by itself and is no longer mergeable; with
      more than one pop, every pop outside the released council keeps its
      flag (the winners are left as they were). */
  ghost predicate Revoted(was: seq<bool>, released: seq<Population>, pops: seq<Population>)
    reads released`mergeable, pops`mergeable
  {
    && |was| == |pops|
    && (forall i :: 0 <= i < |released| ==> released[i].mergeable || (|pops| == 1 && released[i] == pops[0]))
    && (forall i {:trigger was[i]} :: 0 <= i < |pops| && pops[i] !in released && |pops| != 1 ==> pops[i].mergeable == was[i])
    && (|pops| == 1 ==> !pops[0].mergeable)
  }

  /** A council election that keeps the survivors (or, with none, seats
      a seed councillor no longer mergeable) and seats heirs and recruits
      no longer mergeable, leaving every other pop with the flag it had
      (was), is Reseated from the survivors on. */
  lemma ElectionReseats(was: seq<bool>, pops: seq<Population>, council: seq<Population>, survivors: seq<Population>,
                        kept: seq<Population>, replacing: seq<Population>, added: seq<Population>)
    requires |was| == |pops| && council == kept + replacing + added
    requires survivors != [] ==> kept == survivors
    requires survivors == [] ==> |kept| == 1 && !kept[0].mergeable
    requires forall p :: p in replacing ==> !p.mergeable
    requires forall i :: 0 <= i < |added| ==> !added[i].mergeable
    requires forall i ::
      (0 <= i < |pops| && pops[i] !in replacing && pops[i] !in added && (survivors != [] || pops[i] !in kept)) ==>
      pops[i].mergeable == was[i]
    ensures Reseated(was, pops, council, |survivors|)
  {
    var seated := council[|survivors|..];
    assert seated == (if survivors != [] then [] else kept) + replacing + added;
    forall i | |survivors| <= i < |council|
      ensures !council[i].mergeable
    {
      assert council[i] == seated[i - |survivors|];
      assert council[i] in kept[|survivors|..] || council[i] in replacing || council[i] in added;
    }
  }

  /** ElectionReseats for an autocracy, which seats no heirs. */
  lemma RecruitsReseat(was: seq<bool>, pops: seq<Population>, council: seq<Population>, survivors: seq<Population>,
                       kept: seq<Population>, added: seq<Population>)
    requires |was| == |pops| && council == kept + added
    requires survivors != [] ==> kept == survivors
    requires survivors == [] ==> |kept| == 1 && !kept[0].mergeable
    requires forall i :: 0 <= i < |added| ==> !added[i].mergeable
    requires forall i ::
      (0 <= i < |pops| && pops[i] !in added && (survivors != [] || pops[i] !in kept)) ==>
      pops[i].mergeable == was[i]
    ensures Reseated(was, pops, council, |survivors|)
  {
    assert council == kept + [] + added;
    ElectionReseats(was, pops, council, survivors, kept, [], added);
  }

  /** A pop's sizes, happiness, children and descendent pops, as one value. */
  datatype Snapshot = Snapshot(startingPopulation: int, descendents: int, happiness: real,
                               children: seq<int>, descendentPops: seq<Population>)

  /** The pops have, one by one, the fields the census recorded. The council
      elections take the census of the pops as a ghost argument and leave
      the pops matching it: they change the pops' mergeable flags only. */
  ghost predicate Matches(pops: seq<Population>, census: seq<Snapshot>)
    reads pops`startingPopulation, pops`descendents, pops`happiness, pops`children, pops`descendentPops
  {
    && |census| == |pops|
    && forall i :: 0 <= i < |pops| ==>
         census[i] == Snapshot(pops[i].startingPopulation, pops[i].descendents, pops[i].happiness,
                               pops[i].children, pops[i].descendentPops)
  }

  /** The census of the pops as they stand. */
  ghost function Census(pops: seq<Population>): (census: seq<Snapshot>)
    reads pops`startingPopulation, pops`descendents, pops`happiness, pops`children, pops`descendentPops
    ensures Matches(pops, census)
  {
    if pops == [] then []
    else
      var rest := Census(pops[1..]);
      assert forall i :: 1 <= i < |pops| ==> pops[i] == pops[1..][i - 1];
      [Snapshot(pops[0].startingPopulation, pops[0].descendents, pops[0].happiness,
                pops[0].children, pops[0].descendentPops)] + rest
  }

  /** Pops that still match the census taken of them before a step are
      Unaltered by it. */
  twostate lemma CensusKept(pops: seq<Population>)
    requires Matches(pops, old(Census(pops)))
    ensures Unaltered(pops)
  {
  }

  /** The council housekeeping leaves: the surviving councillors, or else a
      single seed councillor. */
  ghost predicate Housekept(kept: seq<Population>, survivors: seq<Population>, pops: seq<Population>)
  {
    if survivors != [] then kept == survivors else |kept| == 1 && kept[0] in SeedCandidates(pops)
  }

  /** What the election of a representative democracy leaves, its
      mergeable flags aside: a lone pop forms the council; otherwise the
      council is Elected from the pops; a fault is a sample of too many
      candidates or no council to infer an opinion from, and without one the
      council is not empty and the opinion is its largest bloc's. */
  ghost predicate Reelected(council: seq<Population>, opinion: Opinion, pops: seq<Population>,
                            candidates: seq<Population>, size: nat, threshold: real, fault: Option<Fault>)
  {
    && (|pops| == 1 ==> fault.None? && council == pops)
    && (|pops| != 1 ==> Elected(council, pops, candidates, size, threshold, fault == Some(SampleTooLarge)))
    && (fault.None? <==> council != [])
    && (fault.Some? ==> fault == Some(SampleTooLarge) || fault == Some(MaxOfEmpty))
    && (fault.None? ==> opinion == MajorityOpinion(Opinions(council)))
  }

  /** What the __init__ of a dictatorship or an autocracy leaves: a
      dictator drawn from the pops, holding its own opinion, or a first
      council of a seed councillor drawn from the pops and the pops recruited
      after it, up to size seats, from those that the seed's opinion suits
      (an empty council has no heirs to draw), holding its mean opinion;
      either fails only on no pops. */
  ghost predicate InauguratedAutocratic(kind: GovKind, rule: Rule, pops: seq<Population>, size: nat, fault: Option<Fault>)
  {
    && (fault.Some? <==> pops == [])
    && (fault.Some? ==> fault == Some(EmptyChoice))
    && (fault.None? && kind.IsDictatorship() ==>
          rule.dictator != null && rule.dictator in pops && rule.opinion == rule.dictator.traits.opinion)
    && (fault.None? && !kind.IsDictatorship() ==>
          && |rule.council| > 0 && rule.council[0] in SeedCandidates(pops)
          && Recruited(rule.council[1..], Suited(rule.council[0].traits.opinion, pops), size - 1)
          && rule.opinion == AverageOpinion(Opinions(rule.council)))
  }

  /** What the __init__ of a democracy leaves: a representative
      democracy's FirstElected, a direct democracy's Consulted. */
  ghost predicate InauguratedDemocratic(kind: GovKind, rule: Rule, term: int, pops: seq<Population>, draws: Draws,
                                        size: nat, fault: Option<Fault>, candidates: seq<Population>)
  {
    if kind.IsRepresentative() then FirstElected(rule, term, pops, draws, size, fault, candidates)
    else Consulted(rule, pops, fault)
  }

  /** What the __init__ of a government of kind kind leaves: what an
      autocratic one's leaves (InauguratedAutocratic), or what a
      democratic one's leaves (InauguratedDemocratic). */
  ghost predicate Inaugurated(kind: GovKind, rule: Rule, term: int, pops: seq<Population>, draws: Draws,
                              size: nat, fault: Option<Fault>, candidates: seq<Population>)
  {
    if kind.IsDemocratic() then InauguratedDemocratic(kind, rule, term, pops, draws, size, fault, candidates)
    else InauguratedAutocratic(kind, rule, pops, size, fault)
  }

  /** The mergeable flags the founding of a dictatorship or an autocracy
      leaves, the pops having had the flags was: the dictator, or every
      member of the first council, is no longer mergeable, every other pop
      keeping its flag (Reseated). */
  ghost predicate Refounded(kind: GovKind, was: seq<bool>, pops: seq<Population>, rule: Rule, fault: Option<Fault>)
    reads pops`mergeable, rule.council`mergeable, (if rule.dictator != null then {rule.dictator} else {})`mergeable
  {
    if kind.IsDictatorship() then
      fault.None? ==> rule.dictator != null && !rule.dictator.mergeable && Reseated(was, pops, [rule.dictator], 0)
    else fault.None? ==> Reseated(was, pops, rule.council, 0)
  }

  /** The autocracies' case of Refounded. */
  lemma CouncilRefounded(kind: GovKind, was: seq<bool>, pops: seq<Population>, rule: Rule, fault: Option<Fault>)
    requires kind.IsAutocracy()
    requires fault.None? ==> Reseated(was, pops, rule.council, 0)
    ensures Refounded(kind, was, pops, rule, fault)
  {
  }

  /** A democracy's founding fails only in its first election or, for a
      direct democracy, exactly on no pops; a representative democracy
      takes the drawn term. */
  lemma InauguratedFaults(kind: GovKind, rule: Rule, term: int, pops: seq<Population>, draws: Draws,
                          size: nat, fault: Option<Fault>, candidates: seq<Population>)
    requires kind.IsDemocratic() && InauguratedDemocratic(kind, rule, term, pops, draws, size, fault, candidates)
    ensures kind.IsDirect() ==> (fault.Some? <==> pops == [])
    ensures kind.IsRepresentative() ==> term == draws.term
    ensures fault.Some? ==> fault == Some(SampleTooLarge) || fault == Some(MaxOfEmpty)
  {
  }

  /** What RepresentativeDemocracy.__init__ leaves: the first election
      (Reelected, with council size size) and the term drawn, the founding
      year still unset. */
  ghost predicate FirstElected(rule: Rule, term: int, pops: seq<Population>, draws: Draws, size: nat,
                               fault: Option<Fault>, candidates: seq<Population>)
  {
    && rule.foundingYear == -1 && term == draws.term
    && Reelected(rule.council, rule.opinion, pops, candidates, size, draws.threshold, fault)
  }

  /** What DirectDemocracy.__init__ leaves: the majority opinion of every
      pop, failing only on no pops. */
  ghost predicate Consulted(rule: Rule, pops: seq<Population>, fault: Option<Fault>)
  {
    && (fault.Some? <==> pops == [])
    && (fault.Some? ==> fault == Some(MaxOfEmpty))
    && (fault.None? ==> rule.opinion == MajorityOpinion(Opinions(pops)))
  }

  /** The council, opinion, dictator and founding year a government holds
      at one moment. */
  datatype Rule = Rule(council: seq<Population>, opinion: Opinion, dictator: Population?, foundingYear: int)

  /** What a government's reconsideration looks at before it starts: its
      rule, whether its dictator is dead, the dictator's descendent pops,
      the councillors that are not dead, and the councillors' descendent
      pops, each once. */
  datatype Standing = Standing(rule: Rule, dictatorDead: bool, heirs: seq<Population>, survivors: seq<Population>,
                               councilHeirs: seq<Population>)
  {
    /** What an autocracy's council election reads of the standing. */
    function Seated(): Seating { Seating(rule, survivors, councilHeirs) }
  }

  /** What elect_council_members reads of a council: its rule, the
      councillors that survive housekeeping, and the councillors' heirs,
      each once. */
  datatype Seating = Seating(rule: Rule, survivors: seq<Population>, heirs: seq<Population>)

  /** What RepresentativeDemocracy.govern's election step leaves, from rule
      before to rule after: the founding year recorded on the first call; in
      a year a whole number of terms from it, the council and opinion of an
      election (Reelected) among the pops, with council size size; in any
      other year the council and the opinion as they were. */
  ghost predicate Scheduled(before: Rule, after: Rule, term: int, pops: seq<Population>, year: int,
                            threshold: real, size: nat, fault: Option<Fault>, candidates: seq<Population>)
    requires term > 0
  {
    && after.foundingYear == (if before.foundingYear == -1 then year else before.foundingYear)
    && if before.foundingYear != -1 && ElectionYear(before.foundingYear, year, term)
       then Reelected(after.council, after.opinion, pops, candidates, size, threshold, fault)
       else fault.None? && after.council == before.council && after.opinion == before.opinion
  }

  /** What a democracy's reconsideration leaves: a representative
      democracy's Scheduled election; a direct democracy keeps its council
      and founding year and takes the majority opinion of all pops, failing
      only on no pops. */
  ghost predicate ReconsideredDemocratic(kind: GovKind, term: int, before: Rule, after: Rule, pops: seq<Population>,
                                         year: int, threshold: real, size: nat,
                                         fault: Option<Fault>, candidates: seq<Population>)
    requires kind.IsRepresentative() ==> term > 0
  {
    if kind.IsRepresentative() then Scheduled(before, after, term, pops, year, threshold, size, fault, candidates)
    else
      && after.council == before.council && after.foundingYear == before.foundingYear
      && (fault.Some? <==> pops == [])
      && (fault.Some? ==> fault == Some(MaxOfEmpty))
      && (fault.None? ==> after.opinion == MajorityOpinion(Opinions(pops)))
  }

  /** What an autocratic government's reconsideration leaves: what a
      dictatorship's succession leaves, or what an autocracy's council
      election leaves. */
  ghost predicate ReconsideredAutocratic(kind: GovKind, before: Standing, after: Rule, pops: seq<Population>,
                                         size: nat, fault: Option<Fault>)
  {
    if kind.IsDictatorship() then Succeeded(kind, before, after, pops, fault)
    else CouncilReconsidered(kind == HereditaryAutocracy, before.Seated(), after, pops, size, fault)
  }

  /** What a dictatorship's succession leaves: the council as it was, and
      the living dictator kept, or a dead one succeeded from
      DictatorCandidates. */
  ghost predicate Succeeded(kind: GovKind, before: Standing, after: Rule, pops: seq<Population>, fault: Option<Fault>)
  {
    && after.council == before.rule.council
    && (fault.Some? ==> fault == Some(EmptyChoice))
    && (!before.dictatorDead ==>
          fault.None? && after.dictator == before.rule.dictator && after.opinion == before.rule.opinion)
    && (before.dictatorDead ==>
          var cs := DictatorCandidates(kind, before.rule.opinion, before.heirs, pops);
          && (fault.Some? <==> cs == [])
          && (fault.None? ==>
                after.dictator != null && after.dictator in cs && after.opinion == after.dictator.traits.opinion))
  }

  /** The opinion an autocracy judges its recruits by: its own while a
      councillor survived housekeeping, otherwise that of the seed
      councillor housekeeping elected. */
  function Judging(seat: Seating, kept: seq<Population>): Opinion
  {
    if seat.survivors != [] || kept == [] then seat.rule.opinion else kept[0].traits.opinion
  }

  /** What an autocracy's elect_council_members makes of a council seated
      as seat, step by step: housekeeping keeps kept (the surviving
      councillors, or else a seed councillor); a hereditary autocracy then
      draws replacing from its councillors' heirs, shuffled into order, for
      the seats housekeeping emptied; and added are recruited, up to size
      seats, from the pops the Judging opinion suits. */
  ghost predicate CouncilElected(hereditary: bool, seat: Seating, council: seq<Population>, pops: seq<Population>,
                                 size: nat, kept: seq<Population>, order: seq<Population>,
                                 replacing: seq<Population>, added: seq<Population>)
  {
    && Housekept(kept, seat.survivors, pops)
    && (if hereditary then
          && |order| == |seat.heirs| && IsSample(order, seat.heirs)
          && Recruited(replacing, order, |seat.rule.council| - |kept|)
        else replacing == [])
    && Recruited(added, Suited(Judging(seat, kept), pops), size - |kept| - |replacing|)
    && council == kept + replacing + added
  }

  /** CouncilElected with its steps read off the council: kept is its first
      a members, replacing those up to b, added the rest, and the heirs'
      order is the permutation perm of them. */
  ghost predicate ElectedAt(hereditary: bool, seat: Seating, council: seq<Population>, pops: seq<Population>,
                            size: nat, a: int, b: int, perm: seq<int>)
  {
    && 0 <= a <= b <= |council|
    && (hereditary ==> IsPermutation(perm, |seat.heirs|))
    && CouncilElected(hereditary, seat, council, pops, size, council[..a],
                      if hereditary then Permuted(seat.heirs, perm) else [], council[a..b], council[b..])
  }

  /** The council is one elect_council_members can make of the seating. */
  ghost predicate ElectedFrom(hereditary: bool, seat: Seating, council: seq<Population>, pops: seq<Population>,
                              size: nat)
  {
    exists a, b, perm :: ElectedAt(hereditary, seat, council, pops, size, a, b, perm)
  }

  /** An autocracy's run of the steps, with no heirs drawn, shows the
      council ElectedFrom the seating. */
  lemma RecruitsElected(seat: Seating, council: seq<Population>, pops: seq<Population>, size: nat,
                        kept: seq<Population>, added: seq<Population>)
    requires Housekept(kept, seat.survivors, pops)
    requires Recruited(added, Suited(Judging(seat, kept), pops), size - |kept|)
    requires council == kept + added
    ensures ElectedFrom(false, seat, council, pops, size)
  {
    assert kept + [] + added == council;
    ElectedWitness(false, seat, council, pops, size, kept, [], [], added);
  }

  /** Any run of the election's steps that ends in the council shows it
      ElectedFrom the seating. */
  lemma ElectedWitness(hereditary: bool, seat: Seating, council: seq<Population>, pops: seq<Population>,
                       size: nat, kept: seq<Population>, order: seq<Population>,
                       replacing: seq<Population>, added: seq<Population>)
    requires CouncilElected(hereditary, seat, council, pops, size, kept, order, replacing, added)
    ensures ElectedFrom(hereditary, seat, council, pops, size)
  {
    var a, b := |kept|, |kept| + |replacing|;
    assert council[..a] == kept && council[a..b] == replacing && council[b..] == added;
    if hereditary {
      var pos :| SampledAt(order, seat.heirs, pos);
      assert Permuted(seat.heirs, pos) == order;
      assert ElectedAt(hereditary, seat, council, pops, size, a, b, pos);
    } else {
      assert ElectedAt(hereditary, seat, council, pops, size, a, b, []);
    }
  }

  /** What an autocracy's council election leaves: the dictator as it was;
      a failure only with no surviving councillor and no pops; otherwise a
      council that starts with the surviving councillors (or, with none, a
      seed councillor), is completed as CouncilElected says, and holds the
      council's mean opinion. */
  ghost predicate CouncilReconsidered(hereditary: bool, seat: Seating, after: Rule, pops: seq<Population>,
                                      size: nat, fault: Option<Fault>)
  {
    && after.dictator == seat.rule.dictator
    && (fault.Some? <==> seat.survivors == [] && pops == [])
    && (fault.Some? ==> fault == Some(EmptyChoice))
    && (fault.None? ==>
          && |after.council| > 0 && after.opinion == AverageOpinion(Opinions(after.council))
          && (if seat.survivors != [] then
                |after.council| >= |seat.survivors| && after.council[..|seat.survivors|] == seat.survivors
              else after.council[0] in SeedCandidates(pops))
          && ElectedFrom(hereditary, seat, after.council, pops, size))
  }

  /** A council made of what housekeeping kept followed by new members is
      not empty, and starts with the surviving councillors, or with the seed
      councillor when none survived. */
  lemma CouncilRenewed(survivors: seq<Population>, kept: seq<Population>, added: seq<Population>,
                       council: seq<Population>, pops: seq<Population>)
    requires Housekept(kept, survivors, pops) && council == kept + added
    ensures |council| > 0
    ensures if survivors != [] then |council| >= |survivors| && council[..|survivors|] == survivors
            else council[0] in SeedCandidates(pops)
  {
    assert council[..|kept|] == kept;
  }

  /** The same for a council that heirs (replacing) and recruits (added)
      complete. */
  lemma HeirsRenewed(survivors: seq<Population>, kept: seq<Population>, replacing: seq<Population>,
                     added: seq<Population>, council: seq<Population>, pops: seq<Population>)
    requires Housekept(kept, survivors, pops) && council == kept + replacing + added
    ensures |council| > 0
    ensures if survivors != [] then |council| >= |survivors| && council[..|survivors|] == survivors
            else council[0] in SeedCandidates(pops)
  {
    assert council == kept + (replacing + added);
    CouncilRenewed(survivors, kept, replacing + added, council, pops);
  }

  /** An election whose steps went as elect_council_members takes them,
      and which failed only with no survivor and no pops, is
      CouncilReconsidered. */
  lemma ElectionReconsidered(hereditary: bool, before: Standing, after: Rule, pops: seq<Population>, size: nat,
                             fault: Option<Fault>, kept: seq<Population>, order: seq<Population>,
                             replacing: seq<Population>, added: seq<Population>)
    requires after.dictator == before.rule.dictator
    requires fault.Some? <==> before.survivors == [] && pops == []
    requires fault.Some? ==> fault == Some(EmptyChoice)
    requires fault.None? ==>
      && Housekept(kept, before.survivors, pops)
      && (if hereditary then
            && |order| == |before.councilHeirs| && IsSample(order, before.councilHeirs)
            && Recruited(replacing, order, |before.rule.council| - |kept|)
            && after.council == kept + replacing + added
          else replacing == [] && after.council == kept + added)
      && Recruited(added, Suited(if before.survivors != [] then before.rule.opinion else kept[0].traits.opinion, pops),
                   size - |kept| - |replacing|)
      && after.opinion == AverageOpinion(Opinions(after.council))
    ensures CouncilReconsidered(hereditary, before.Seated(), after, pops, size, fault)
  {
    if fault.None? {
      CouncilCompleted(hereditary, before, after.council, pops, size, kept, order, replacing, added);
    }
  }

  /** The council such an election leaves starts with the survivors (or the
      seed councillor) and is ElectedFrom the standing. */
  lemma CouncilCompleted(hereditary: bool, before: Standing, council: seq<Population>, pops: seq<Population>,
                         size: nat, kept: seq<Population>, order: seq<Population>,
                         replacing: seq<Population>, added: seq<Population>)
    requires Housekept(kept, before.survivors, pops)
    requires if hereditary then
               && |order| == |before.councilHeirs| && IsSample(order, before.councilHeirs)
               && Recruited(replacing, order, |before.rule.council| - |kept|)
               && council == kept + replacing + added
             else replacing == [] && council == kept + added
    requires Recruited(added, Suited(if before.survivors != [] then before.rule.opinion else kept[0].traits.opinion, pops),
                       size - |kept| - |replacing|)
    ensures |council| > 0
    ensures if before.survivors != [] then
              |council| >= |before.survivors| && council[..|before.survivors|] == before.survivors
            else council[0] in SeedCandidates(pops)
    ensures ElectedFrom(hereditary, before.Seated(), council, pops, size)
  {
    if hereditary {
      HeirsRenewed(before.survivors, kept, replacing, added, council, pops);
      ElectedWitness(true, before.Seated(), council, pops, size, kept, order, replacing, added);
    } else {
      CouncilRenewed(before.survivors, kept, added, council, pops);
      RecruitsElected(before.Seated(), council, pops, size, kept, added);
    }
  }

  /** The draws a new government's constructor makes: the voting threshold
      rng.random() * 0.5 of a representative democracy's first election, and
      its term rng.randint(2, 10). */
  datatype Draws = Draws(threshold: real, term: int)
  {
    predicate InRange() { 0.0 <= threshold < 0.5 && 2 <= term <= 10 }
  }

  /** Whether n is a whole multiple of the positive m: n counts down m at a
      time to exactly 0. */
  predicate MultipleOf(n: nat, m: nat)
    requires m > 0
    decreases n
  {
    n == 0 || (n >= m && MultipleOf(n - m, m))
  }

  /** Counting down agrees with the remainder. */
  lemma {:induction false} MultipleOfMod(n: nat, m: nat)
    requires m > 0
    ensures MultipleOf(n, m) <==> n % m == 0
    decreases n
  {
    if n >= m {
      MultipleOfMod(n - m, m);
      ModuloShift(n, m);
    } else {
      ModuloUnique(n, m, 0, n);
    }
  }

  /** A number and its negation are multiples of m together. */
  lemma NegatedMod(k: int, m: int)
    requires m > 0
    ensures (-k) % m == 0 <==> k % m == 0
  {
    if k % m == 0 {
      var q := k / m;
      assert -k == (-q) * m;
      ModuloUnique(-k, m, -q, 0);
    }
    if (-k) % m == 0 {
      var q := (-k) / m;
      assert k == (-q) * m;
      ModuloUnique(k, m, -q, 0);
    }
  }

  /** The re-election rule of RepresentativeDemocracy.govern: a year is an
      election year when the years between it and the founding year are a
      whole number of terms (ElectionYearMod). */
  predicate ElectionYear(foundingYear: int, year: int, term: int)
    requires term > 0
  {
    MultipleOf(if year >= foundingYear then year - foundingYear else foundingYear - year, term)
  }

  /** The rule is (founding_year - year) % term == 0; Python's % and Dafny's
      agree on a positive term. */
  lemma ElectionYearMod(foundingYear: int, year: int, term: int)
    requires term > 0
    ensures ElectionYear(foundingYear, year, term) <==> (foundingYear - year) % term == 0
  {
    var d := foundingYear - year;
    if d >= 0 {
      MultipleOfMod(d, term);
    } else {
      MultipleOfMod(-d, term);
      NegatedMod(d, term);
    }
  }

  /** Elections come round every term years: a year is an election year
      exactly when the year a term later is one, and the founding year is
      one. */
  lemma ElectionsEveryTerm(foundingYear: int, year: int, term: int)
    requires term > 0
    ensures ElectionYear(foundingYear, year, term) <==> ElectionYear(foundingYear, year + term, term)
    ensures ElectionYear(foundingYear, foundingYear, term)
  {
    ElectionYearMod(foundingYear, year, term);
    ElectionYearMod(foundingYear, year + term, term);
    ElectionYearMod(foundingYear, foundingYear, term);
    var d := foundingYear - year;
    assert foundingYear - (year + term) == d - term;
    ModuloShift(d, term);
  }

  /** Subtracting the divisor does not change the remainder. */
  lemma ModuloShift(d: int, term: int)
    requires term > 0
    ensures (d - term) % term == d % term
  {
    var q := d / term;
    var r := d % term;
    assert d - term == (q - 1) * term + r by {
      assert (q - 1) * term == q * term - term;
    }
    ModuloUnique(d - term, term, q - 1, r);
  }

  /** The remainder is the unique r in [0, m) with x == a * m + r. */
  lemma ModuloUnique(x: int, m: int, a: int, r: int)
    requires m > 0 && 0 <= r < m && x == a * m + r
    ensures x % m == r
  {
    var q := x / m;
    var s := x % m;
    assert (q - a) * m == r - s by {
      assert (q - a) * m == q * m - a * m;
    }
    if q - a >= 1 {
      MultiplyAtLeast(q - a, m);
    } else if q - a <= -1 {
      assert (a - q) * m == -((q - a) * m);
      MultiplyAtLeast(a - q, m);
    }
  }

  /** Two distinct election years lie at least a term apart. */
  lemma ElectionsApart(foundingYear: int, y1: int, y2: int, term: int)
    requires term > 0 && y1 < y2
    requires ElectionYear(foundingYear, y1, term) && ElectionYear(foundingYear, y2, term)
    ensures y2 - y1 >= term
  {
    ElectionYearMod(foundingYear, y1, term);
    ElectionYearMod(foundingYear, y2, term);
    var q1 := (foundingYear - y1) / term;
    var q2 := (foundingYear - y2) / term;
    assert foundingYear - y1 == q1 * term;
    assert foundingYear - y2 == q2 * term;
    assert y2 - y1 == (q1 - q2) * term;
    assert q1 - q2 >= 1 by {
      if q1 - q2 <= 0 {
        MultiplyNonPositive(q1 - q2, term);
      }
    }
    MultiplyAtLeast(q1 - q2, term);
  }

  lemma MultiplyNonPositive(k: int, term: int)
    requires k <= 0 && term > 0
    ensures k * term <= 0
  {
  }

  lemma MultiplyAtLeast(k: int, term: int)
    requires k >= 1 && term > 0
    ensures k * term >= term
  {
  }

  /** A descendent pop of some pop of a group. */
  lemma DescendentIn(ps: seq<Population>, d: Population)
    ensures d in AllDescendentPops(ps) <==> exists i :: 0 <= i < |ps| && d in ps[i].descendentPops
  {
    if ps != [] {
      DescendentIn(ps[1..], d);
      if d in AllDescendentPops(ps[1..]) {
        var i :| 0 <= i < |ps[1..]| && d in ps[1..][i].descendentPops;
        assert d in ps[i + 1].descendentPops;
      }
      if exists i :: 0 <= i < |ps| && d in ps[i].descendentPops {
        var i :| 0 <= i < |ps| && d in ps[i].descendentPops;
        if i > 0 {
          assert d in ps[1..][i - 1].descendentPops;
        }
      }
    }
  }

  /** The descendent pops of a subgroup are descendent pops of the whole. */
  lemma DescendentsOfSubgroup(group: seq<Population>, pops: seq<Population>)
    requires forall i :: 0 <= i < |group| ==> group[i] in pops
    ensures forall i :: 0 <= i < |AllDescendentPops(group)| ==> AllDescendentPops(group)[i] in AllDescendentPops(pops)
  {
    forall k | 0 <= k < |AllDescendentPops(group)|
      ensures AllDescendentPops(group)[k] in AllDescendentPops(pops)
    {
      var d := AllDescendentPops(group)[k];
      DescendentIn(group, d);
      var i :| 0 <= i < |group| && d in group[i].descendentPops;
      var j :| 0 <= j < |pops| && pops[j] == group[i];
      DescendentIn(pops, d);
    }
  }

  /** What electing an inner circle again reads of it: its members that
      survive housekeeping, and their heirs, each once. */
  datatype Circle = Circle(survivors: seq<Population>, heirs: seq<Population>)
  {
    /** The seating an autocracy founded with the rule founded has once
        establish_new_government makes the small inner circle inner, of
        which this is the Circle, its council, just before electing it
        again. */
    function Packing(inner: seq<Population>, founded: Rule): Seating
    {
      Seating(founded.(council := inner), survivors, heirs)
    }
  }

  /** The Circle of the inner circle inner as the pops now stand. */
  ghost function CircleOf(inner: seq<Population>): Circle
    reads inner`startingPopulation, inner`descendentPops
  {
    Circle(Surviving(inner), Dedup(AllDescendentPops(inner)))
  }

  /** An inner circle whose sizes and descendent pops are as they were has
      the Circle it had. */
  twostate lemma CircleKept(inner: seq<Population>)
    requires forall i :: 0 <= i < |inner| ==> old(allocated(inner[i]))
    requires forall i :: 0 <= i < |inner| ==>
      inner[i].startingPopulation == old(inner[i].startingPopulation) && inner[i].descendentPops == old(inner[i].descendentPops)
    ensures CircleOf(inner) == old(CircleOf(inner))
  {
  }

  /** A group drawn from pops whose sizes and descendent pops are as they
      were has the Circle it had. */
  twostate lemma GroupKept(pops: seq<Population>, new group: seq<Population>)
    requires forall i :: 0 <= i < |pops| ==>
      pops[i].startingPopulation == old(pops[i].startingPopulation) && pops[i].descendentPops == old(pops[i].descendentPops)
    requires forall i :: 0 <= i < |group| ==> group[i] in pops
    ensures CircleOf(group) == old(CircleOf(group))
  {
    forall i | 0 <= i < |group|
      ensures old(allocated(group[i]))
      ensures group[i].startingPopulation == old(group[i].startingPopulation)
      ensures group[i].descendentPops == old(group[i].descendentPops)
    {
      var j :| 0 <= j < |pops| && pops[j] == group[i];
    }
    CircleKept(group);
  }

  /** What establish_new_government puts in place from its inner circle,
      for a government founded as founded (with council size size): a
      dictator drawn from it, holding its own opinion; or, for an autocracy
      whose founding is Inaugurated, a council sampled from the inner circle
      at the founding council's size when the circle is that large, and
      otherwise the inner circle elected again (CouncilElected from the
      seating its Circle circle gives it); the council's mean opinion either
      way. */
  ghost predicate Installed(kind: GovKind, rule: Rule, inner: seq<Population>, founded: Rule, circle: Circle,
                            pops: seq<Population>, size: nat)
  {
    && (kind.IsDictatorship() ==>
          rule.dictator != null && rule.dictator in inner && rule.opinion == rule.dictator.traits.opinion)
    && (kind.IsAutocracy() ==>
          && InauguratedAutocratic(kind, founded, pops, size, None)
          && |rule.council| > 0 && rule.opinion == AverageOpinion(Opinions(rule.council))
          && (|inner| >= |founded.council| ==> |rule.council| == |founded.council| && IsSample(rule.council, inner))
          && (|inner| < |founded.council| ==>
                CouncilReconsidered(kind == HereditaryAutocracy, circle.Packing(inner, founded), rule, pops, size, None)))
  }

  /** How establish_new_government can fail: a dictatorship on no pops or
      no inner circle, an autocracy or a direct democracy on no pops, all
      of these by an empty choice; a representative democracy only in its
      first election. */
  ghost predicate EstablishFaults(kind: GovKind, pops: seq<Population>, inner: seq<Population>, fault: Option<Fault>)
  {
    && (kind.IsDictatorship() ==> (fault.Some? <==> pops == [] || inner == []))
    && (kind.IsAutocracy() || kind.IsDirect() ==> (fault.Some? <==> pops == []))
    && (fault.Some? && !kind.IsDemocratic() ==> fault == Some(EmptyChoice))
    && (fault.Some? && kind.IsDemocratic() ==> fault == Some(SampleTooLarge) || fault == Some(MaxOfEmpty))
  }

  /** A democracy's founding fails as EstablishFaults says when it fails
      only on no pops (a direct democracy) or in its first election. */
  lemma DemocracyFaults(kind: GovKind, pops: seq<Population>, inner: seq<Population>, fault: Option<Fault>)
    requires kind.IsDemocratic()
    requires kind.IsDirect() ==> (fault.Some? <==> pops == [])
    requires fault.Some? ==> fault == Some(SampleTooLarge) || fault == Some(MaxOfEmpty)
    ensures EstablishFaults(kind, pops, inner, fault)
  {
  }

  /** An autocracy is Installed once its founding council is packed from
      the inner circle as PackCouncil leaves it. */
  lemma AutocracyInstalled(kind: GovKind, rule: Rule, inner: seq<Population>, founded: Rule, circle: Circle,
                           pops: seq<Population>, size: nat, packed: Seating)
    requires kind.IsAutocracy() && InauguratedAutocratic(kind, founded, pops, size, None)
    requires packed == circle.Packing(inner, founded)
    requires |inner| >= |founded.council| ==> |rule.council| == |founded.council| && IsSample(rule.council, inner)
    requires |inner| < |founded.council| ==> CouncilReconsidered(kind == HereditaryAutocracy, packed, rule, pops, size, None)
    requires |rule.council| > 0 && rule.opinion == AverageOpinion(Opinions(rule.council))
    ensures Installed(kind, rule, inner, founded, circle, pops, size)
  {
  }

  /** A democracy is Installed as founded: nothing is installed from the
      inner circle. */
  lemma DemocracyInstalled(kind: GovKind, rule: Rule, inner: seq<Population>, founded: Rule, circle: Circle,
                           pops: seq<Population>, size: nat)
    requires kind.IsDemocratic()
    ensures Installed(kind, rule, inner, founded, circle, pops, size)
  {
  }

  /** What a revolution leads to: a government of a kind drawn from the
      given choices (rng.choice fails on none), Installed from the inner
      circle; only a representative democracy's election, no pops, or a
      dictatorship with no inner circle can make the founding fail. */
  ghost predicate Revolted(out: Outcome, kinds: seq<GovKind>, pops: seq<Population>, inner: seq<Population>,
                           size: nat, chosen: GovKind, founded: Rule, circle: Circle, next: Rule)
  {
    && !out.Unchanged?
    && (kinds == [] ==> out == Crashed(EmptyChoice))
    && (kinds != [] ==> chosen in kinds)
    && (kinds != [] && pops != [] && inner != [] && !chosen.IsRepresentative() ==> out.Replaced?)
    && (out.Replaced? ==>
          out.government.kind == chosen && FormedWith(chosen, out.government.term, next.dictator)
          && Installed(chosen, next, inner, founded, circle, pops, size))
  }

  /** A revolution to carry out: the kinds the new government is drawn
      from, and its inner circle. */
  datatype Plan = Plan(kinds: seq<GovKind>, inner: seq<Population>)

  /** The decision of is_population_going_to_overthrow_government on its
      three groups of pops. */
  function OverthrowPlan(loyal: seq<Population>, unhappy: seq<Population>, rebels: seq<Population>): (p: Option<Plan>)
    ensures p.None? <==> OverthrowVerdict(|loyal|, |unhappy|, |rebels|) == NoUprising
  {
    match OverthrowVerdict(|loyal|, |unhappy|, |rebels|)
    case NoUprising => None
    case PeacefulRevolution => Some(Plan(PreferredKinds(unhappy), unhappy))
    case ViolentRevolution => Some(Plan(PreferredKinds(rebels), rebels))
  }

  /** The revolution is_population_going_to_overthrow_government plans
      under a government holding opinion g, if any. */
  function Overthrow(g: Opinion, pops: seq<Population>): (p: Option<Plan>)
    ensures forall i :: 0 <= i < |Inner(p)| ==> Inner(p)[i] in pops
  {
    var unhappy := Unhappy(g, pops);
    OverthrowPlan(Suited(g, pops), unhappy, Rebels(unhappy, false))
  }

  /** The decision of is_government_going_to_become_autocracy on its three
      groups of pops, for a government leaning ad on the autocratic axis
      whose drift would choose among drifting. */
  function DriftPlan(drifting: seq<GovKind>, ad: real,
                     loyal: seq<Population>, unhappy: seq<Population>, rebels: seq<Population>): (p: Option<Plan>)
    ensures p.None? <==> DriftVerdict(|loyal|, |unhappy|, |rebels|, ad) == NoDrift
  {
    match DriftVerdict(|loyal|, |unhappy|, |rebels|, ad)
    case NoDrift => None
    case DriftToAutocracy => Some(Plan(drifting, loyal))
    case ViolentAutocrats => Some(Plan(PreferredKinds(rebels), unhappy))
    case Overthrown => Some(Plan(PreferredKinds(unhappy), unhappy))
  }

  /** The revolution is_government_going_to_become_autocracy plans under a
      democracy holding opinion g, if any. */
  function DriftTo(g: Opinion, drifting: seq<GovKind>, pops: seq<Population>): (p: Option<Plan>)
    ensures forall i :: 0 <= i < |Inner(p)| ==> Inner(p)[i] in pops
  {
    var unhappy := Unhappy(g, pops);
    DriftPlan(drifting, g.autocraticDemocratic, Suited(g, pops), unhappy, Rebels(unhappy, true))
  }

  /** The outcome carries out the plan: nothing happens without one, and a
      revolution follows it otherwise. */
  ghost predicate Follows(out: Outcome, plan: Option<Plan>, pops: seq<Population>, size: nat,
                          chosen: GovKind, founded: Rule, circle: Circle, next: Rule)
  {
    if plan.None? then out == Unchanged
    else Revolted(out, plan.value.kinds, pops, plan.value.inner, size, chosen, founded, circle, next)
  }

  /** The rule the government that replaced the old one holds, if any. */
  function NextRule(out: Outcome): Rule
    reads if out.Replaced? then {out.government} else {}
  {
    if out.Replaced? then out.government.Holds() else UNRULED
  }

  /** What a government of kind kind and term term with dictator dictator
      holds between govern steps: a dictator, for a dictatorship, and a
      term of 2 to 10 years, for a representative democracy. */
  predicate FormedWith(kind: GovKind, term: int, dictator: Population?)
  {
    && (kind.IsDictatorship() ==> dictator != null)
    && (kind.IsRepresentative() ==> 2 <= term <= 10)
  }

  /** The inner circle of a plan, none without one. */
  function Inner(plan: Option<Plan>): seq<Population>
  {
    if plan.Some? then plan.value.inner else []
  }

  /** The revolution govern's check plans among pops for a government of
      kind kind holding rule: an overthrow of an autocratic government, a
      drift of a democratic one to the kinds its councillors prefer (to
      any autocratic kind for a direct democracy). */
  function Threat(kind: GovKind, rule: Rule, pops: seq<Population>): (p: Option<Plan>)
    ensures forall i :: 0 <= i < |Inner(p)| ==> Inner(p)[i] in pops
  {
    if !kind.IsDemocratic() then Overthrow(rule.opinion, pops)
    else DriftTo(rule.opinion, if kind.IsRepresentative() then PreferredKinds(rule.council) else AUTOCRATIC_KINDS, pops)
  }

  /** What govern leaves a government of kind kind and term term that
      stood as was and now holds now, among pops calling for a council of
      size members, with circle the Circle the inner circle of its Threat
      had: it is still formed; only a dictatorship changes its dictator
      and only a representative democracy its founding year; it has
      reconsidered itself as its kind does (ReconsideredAutocratic or
      ReconsideredDemocratic); a failure there is the crashed outcome;
      otherwise the outcome follows the Threat; and a government that
      replaces it is formed. */
  ghost predicate Governed(kind: GovKind, term: int, was: Standing, now: Rule, size: nat, circle: Circle,
                           out: Outcome, pops: seq<Population>, year: int, threshold: real,
                           fault: Option<Fault>, chosen: GovKind, founded: Rule, candidates: seq<Population>,
                           next: Rule)
  {
    && FormedWith(kind, term, now.dictator)
    && (!kind.IsDictatorship() ==> now.dictator == was.rule.dictator)
    && (!kind.IsRepresentative() ==> now.foundingYear == was.rule.foundingYear)
    && (!kind.IsDemocratic() ==> ReconsideredAutocratic(kind, was, now, pops, size, fault))
    && (kind.IsDemocratic() ==>
          ReconsideredDemocratic(kind, term, was.rule, now, pops, year, threshold, size, fault, candidates))
    && (fault.Some? ==> out == Crashed(fault.value))
    && (fault.None? ==> Follows(out, Threat(kind, now, pops), pops, size, chosen, founded, circle, next))
    && (out.Replaced? ==> FormedWith(out.government.kind, out.government.term, next.dictator))
  }

  /** The rule of a government not founded: the placeholder for the
      founding rule when no autocracy is founded. */
  const UNRULED := Rule([], UNFORMED, null, -1)

  class Government {
    const kind: GovKind
    /** The government's own position on the five axes. */
    var opinion: Opinion
    /** The ruling pop of a dictatorship. */
    var dictator: Population?
    /** The councillors of an autocracy or a representative democracy. */
    var council: seq<Population>
    /** Set by the first govern call of a representative democracy. */
    var foundingYear: int
    /** Years between elections of a representative democracy. */
    const term: int

    /** Government.__init__ does nothing; each kind's own initialisation is
        Create below. The term a representative democracy draws at the end
        of its __init__ is given here, since nothing reads it before. */
    constructor (kind: GovKind, term: int)
      ensures this.kind == kind && opinion == UNFORMED && dictator == null && council == []
      ensures foundingYear == -1 && this.term == term
    {
      this.kind := kind;
      opinion := UNFORMED;
      dictator := null;
      council := [];
      foundingYear := -1;
      this.term := term;
    }

    /** The rule the government holds. */
    function Holds(): (r: Rule)
      reads this`council, this`opinion, this`dictator, this`foundingYear
      ensures r.council == council && r.opinion == opinion && r.dictator == dictator && r.foundingYear == foundingYear
    {
      Rule(council, opinion, dictator, foundingYear)
    }

    /** The government's rule, with whether its dictator is dead, the
        dictator's descendent pops and the surviving councillors. */
    ghost function CurrentStanding(): (st: Standing)
      reads this, dictator, council
      ensures st.rule == Holds() && st.survivors == Surviving(council)
      ensures st.dictatorDead <==> dictator != null && dictator.IsDead()
      ensures dictator != null ==> st.heirs == dictator.descendentPops
      ensures st.councilHeirs == Dedup(AllDescendentPops(council))
    {
      Standing(Holds(), dictator != null && dictator.IsDead(),
               if dictator != null then dictator.descendentPops else [], Surviving(council),
               Dedup(AllDescendentPops(council)))
    }

    /** infer_opinion of the dictatorships and autocracies: the dictator's
        opinion, or the mean opinion of the council. */
    method InferOpinion()
      requires kind.IsDictatorship() ==> dictator != null
      requires kind.IsAutocracy() ==> |council| > 0
      requires kind.IsDictatorship() || kind.IsAutocracy()
      modifies this`opinion
      ensures kind.IsDictatorship() ==> opinion == dictator.traits.opinion
      ensures kind.IsAutocracy() ==> opinion == AverageOpinion(Opinions(council))
    {
      if kind.IsDictatorship() {
        opinion := dictator.traits.opinion;
      } else {
        opinion := AverageOpinion(Opinions(council));
      }
    }

    /** Dictatorship.__init__: a dictator drawn from the pops, no longer
        mergeable; rng.choice fails on no pops. */
    method InstallDictator(pops: seq<Population>) returns (fault: Option<Fault>)
      requires kind.IsDictatorship()
      modifies this`dictator, this`opinion, pops`mergeable
      ensures fault.Some? <==> pops == []
      ensures fault.Some? ==> fault == Some(EmptyChoice)
      ensures fault.None? ==> dictator != null && dictator in pops && !dictator.mergeable
      ensures fault.None? ==> opinion == dictator.traits.opinion
      ensures forall i :: 0 <= i < |pops| && pops[i] != dictator ==> pops[i].mergeable == old(pops[i].mergeable)
    {
      if pops == [] {
        return Some(EmptyChoice);
      }
      assert pops[0] in pops;
      var d :| d in pops;
      d.mergeable := false;
      dictator := d;
      InferOpinion();
      fault := None;
    }

    /** choose_new_dictator of both dictatorships. */
    method ChooseNewDictator(pops: seq<Population>) returns (fault: Option<Fault>)
      requires kind.IsDictatorship() && dictator != null
      modifies this`dictator, this`opinion
      ensures var cs := DictatorCandidates(kind, old(opinion), old(dictator.descendentPops), pops);
        && (fault.Some? <==> cs == [])
        && (fault.Some? ==> fault == Some(EmptyChoice) && dictator == old(dictator) && opinion == old(opinion))
        && (fault.None? ==> dictator != null && dictator in cs && opinion == dictator.traits.opinion)
    {
      var candidates := DictatorCandidates(kind, opinion, dictator.descendentPops, pops);
      if candidates == [] {
        return Some(EmptyChoice);
      }
      assert candidates[0] in candidates;
      var d :| d in candidates;
      dictator := d;
      InferOpinion();
      fault := None;
    }

    /** elect_initital_councilor: a seed councillor drawn from the pops
        leaning autocratic (from every pop if none does) joins the council, is
        no longer mergeable, and the opinion is inferred again. */
    method ElectInitialCouncilor(pops: seq<Population>) returns (fault: Option<Fault>, ghost seed: Population?)
      requires kind.IsAutocracy()
      modifies this`council, this`opinion, pops`mergeable
      ensures fault.Some? <==> pops == []
      ensures fault.Some? ==> fault == Some(EmptyChoice) && council == old(council) && opinion == old(opinion)
      ensures fault.None? ==> seed != null && seed in SeedCandidates(pops) && !seed.mergeable
      ensures fault.None? ==> council == old(council) + [seed] && opinion == AverageOpinion(Opinions(council))
      ensures forall i :: 0 <= i < |pops| && pops[i] != seed ==> pops[i].mergeable == old(pops[i].mergeable)
    {
      var candidates := SeedCandidates(pops);
      if candidates == [] {
        return Some(EmptyChoice), null;
      }
      assert candidates[0] in candidates;
      var s :| s in candidates;
      s.mergeable := false;
      council := council + [s];
      InferOpinion();
      fault, seed := None, s;
    }

    /** housekeeping: dead councillors leave; an emptied council gets a seed
        councillor (whose opinion the government then takes). */
    method Housekeeping(pops: seq<Population>, ghost census: seq<Snapshot>) returns (fault: Option<Fault>, ghost seed: Population?)
      requires kind.IsAutocracy()
      requires Matches(pops, census)
      modifies this`council, this`opinion, pops`mergeable
      ensures old(Surviving(council)) != [] ==> fault.None? && council == old(Surviving(council)) && opinion == old(opinion)
      ensures old(Surviving(council)) == [] ==> (fault.Some? <==> pops == [])
      ensures fault.Some? ==> fault == Some(EmptyChoice) && council == []
      ensures old(Surviving(council)) == [] && fault.None? ==>
        seed != null && council == [seed] && seed in SeedCandidates(pops) && !seed.mergeable
        && opinion == seed.traits.opinion
      ensures old(Surviving(council)) != [] ==> seed == null
      ensures forall i :: |old(Surviving(council))| <= i < |council| ==> !council[i].mergeable
      ensures forall i :: 0 <= i < |pops| && pops[i] != seed ==> pops[i].mergeable == old(pops[i].mergeable)
      ensures Matches(pops, census)
    {
      council := Surviving(council);
      seed := null;
      fault := None;
      if council == [] {
        fault, seed := ElectInitialCouncilor(pops);
        if fault.None? {
          assert council == [seed];
          AverageOfSame(Opinions(council), seed.traits.opinion);
        }
      }
    }

    /** select_council_members: recruits from the pops the government suits
        up to council_size members, as the Recruited rule says. */
    method SelectCouncilMembers(pops: seq<Population>, size: nat) returns (newCouncilors: seq<Population>)
      ensures Recruited(newCouncilors, Suited(opinion, pops), size - |council|)
      ensures forall i :: 0 <= i < |newCouncilors| ==> newCouncilors[i] in pops && Suits(opinion, newCouncilors[i])
    {
      newCouncilors := Draw(Suited(opinion, pops), size - |council|);
    }

    /** appoint_councilors: each new councillor is no longer mergeable and
        joins the end of the council. */
    method AppointCouncilors(newCouncilors: seq<Population>)
      modifies this`council, newCouncilors`mergeable
      ensures council == old(council) + newCouncilors
      ensures forall i :: 0 <= i < |newCouncilors| ==> !newCouncilors[i].mergeable
    {
      for i := 0 to |newCouncilors|
        invariant council == old(council) + newCouncilors[..i]
        invariant forall j :: 0 <= j < i ==> !newCouncilors[j].mergeable
      {
        newCouncilors[i].mergeable := false;
        council := council + [newCouncilors[i]];
        assert newCouncilors[..i + 1] == newCouncilors[..i] + [newCouncilors[i]];
      }
      assert newCouncilors[..|newCouncilors|] == newCouncilors;
    }
  
    /** The common tail of both autocracies' elect_council_members:
        select_council_members, appoint_councilors, infer_opinion. */
    method Recruit(pops: seq<Population>, size: nat, ghost census: seq<Snapshot>) returns (ghost added: seq<Population>)
      requires kind.IsAutocracy() && |council| > 0
      requires Matches(pops, census)
      modifies this`council, this`opinion, pops`mergeable
      ensures Recruited(added, Suited(old(opinion), pops), size - old(|council|))
      ensures forall i :: 0 <= i < |added| ==> added[i] in pops && !added[i].mergeable
      ensures forall i :: 0 <= i < |pops| && pops[i] !in added ==> pops[i].mergeable == old(pops[i].mergeable)
      ensures forall p :: p in old(council) && !old(p.mergeable) ==> !p.mergeable
      ensures council == old(council) + added
      ensures opinion == AverageOpinion(Opinions(council))
      ensures Matches(pops, census)
    {
      var newCouncilors := SelectCouncilMembers(pops, size);
      AppointCouncilors(newCouncilors);
      added := newCouncilors;
      InferOpinion();
    }

    /** Autocracy.elect_council_members: housekeeping, then recruiting up to
        council_size pops that the government, with the opinion housekeeping
        left it, suits; then the council's mean opinion. */
    method ElectCouncil(pops: seq<Population>, ghost census: seq<Snapshot>)
      returns (fault: Option<Fault>, ghost kept: seq<Population>, ghost added: seq<Population>)
      requires kind == Autocracy
      requires forall i :: 0 <= i < |pops| ==> pops[i].Valid()
      requires Matches(pops, census)
      modifies this`council, this`opinion, pops`mergeable
      ensures fault.Some? <==> old(Surviving(council)) == [] && pops == []
      ensures fault.Some? ==> fault == Some(EmptyChoice)
      ensures fault.None? ==>
        var survivors := old(Surviving(council));
        && Housekept(kept, survivors, pops)
        && Recruited(added, Suited(if survivors != [] then old(opinion) else kept[0].traits.opinion, pops),
                     old(CouncilSizeFor(pops)) - |kept|)
        && council == kept + added && |council| > 0
        && opinion == AverageOpinion(Opinions(council))
      ensures fault.None? ==> forall i :: 0 <= i < |added| ==> !added[i].mergeable
      ensures fault.None? && old(Surviving(council)) == [] ==> !kept[0].mergeable
      ensures forall i :: 0 <= i < |pops| && pops[i] !in added && (old(Surviving(council)) != [] || pops[i] !in kept) ==>
        pops[i].mergeable == old(pops[i].mergeable)
      ensures fault.None? ==> Reseated(old(Mergeable(pops)), pops, council, |old(Surviving(council))|)
      ensures Matches(pops, census)
    {
      var size := CouncilSizeFor(pops);
      ghost var survivors := Surviving(council);
      ghost var was := Mergeable(pops);
      ghost var seed;
      fault, seed := Housekeeping(pops, census);
      if fault.Some? {
        return fault, [], [];
      }
      kept := council;
      label recruiting:
      added := Recruit(pops, size, census);
      if survivors == [] {
        assert seed in pops;
      }
      forall i | 0 <= i < |pops| && pops[i] !in added && (survivors != [] || pops[i] !in kept)
        ensures pops[i].mergeable == old(pops[i].mergeable)
      {
        assert pops[i] != seed;
        assert old@recruiting(pops[i].mergeable) == old(pops[i].mergeable);
      }
      RecruitsReseat(was, pops, council, survivors, kept, added);
    }

    /** The heirs' draw of HereditaryAutocracy.elect_council_members: as
        many of the shuffled heirs as seats are required (all of them when
        too few) join the council and are no longer mergeable; the opinion
        stays. */
    method AppointHeirs(pops: seq<Population>, candidates: seq<Population>, required: int, ghost census: seq<Snapshot>)
      returns (replacing: seq<Population>)
      requires Matches(pops, census)
      modifies this`council, candidates`mergeable
      ensures Recruited(replacing, candidates, required)
      ensures forall i :: 0 <= i < |replacing| ==> replacing[i] in candidates && !replacing[i].mergeable
      ensures council == old(council) + replacing && opinion == old(opinion)
      ensures forall p :: p in old(council) && !old(p.mergeable) ==> !p.mergeable
      ensures forall i :: 0 <= i < |pops| && pops[i] !in replacing ==> pops[i].mergeable == old(pops[i].mergeable)
      ensures Matches(pops, census)
    {
      replacing := Draw(candidates, required);
      AppointCouncilors(replacing);
    }

    /** The first half of HereditaryAutocracy.elect_council_members: the
        descendent pops of the councillors, each once and in no particular
        order (the source builds them through a set), replace the councillors
        housekeeping removed, and are no longer mergeable. */
    method ReplaceFromHeirs(pops: seq<Population>, ghost census: seq<Snapshot>)
      returns (fault: Option<Fault>, ghost kept: seq<Population>, ghost order: seq<Population>,
               ghost replacing: seq<Population>)
      requires kind == HereditaryAutocracy
      requires Matches(pops, census)
      modifies this`council, this`opinion, pops`mergeable, AllDescendentPops(council)`mergeable
      ensures fault.Some? <==> old(Surviving(council)) == [] && pops == []
      ensures fault.Some? ==> fault == Some(EmptyChoice)
      ensures fault.None? ==>
        var survivors := old(Surviving(council));
        var heirs := old(Dedup(AllDescendentPops(council)));
        && Housekept(kept, survivors, pops)
        && |order| == |heirs| && IsSample(order, heirs)
        && Recruited(replacing, order, old(|council|) - |kept|)
        && council == kept + replacing && |kept| > 0
        && opinion == (if survivors != [] then old(opinion) else kept[0].traits.opinion)
        && (forall p :: p in replacing ==> !p.mergeable)
      ensures fault.None? && old(Surviving(council)) == [] ==> !kept[0].mergeable
      ensures forall i :: 0 <= i < |pops| && pops[i] !in replacing && (old(Surviving(council)) != [] || pops[i] !in kept) ==>
        pops[i].mergeable == old(pops[i].mergeable)
      ensures Matches(pops, census)
    {
      var pre := |council|;
      ghost var survivors := Surviving(council);
      ghost var descendents := AllDescendentPops(council);
      var heirs := Dedup(AllDescendentPops(council));
      var candidates := Sample(heirs, |heirs|);
      assert forall i :: 0 <= i < |candidates| ==> candidates[i] in descendents;
      order := candidates;
      ghost var seed;
      fault, seed := Housekeeping(pops, census);
      if fault.Some? {
        return fault, [], [], [];
      }
      kept := council;
      ghost var judging := opinion;
      assert judging == if survivors != [] then old(opinion) else seed.traits.opinion;
      label appointing:
      replacing := AppointHeirs(pops, candidates, pre - |council|, census);
      assert forall i :: 0 <= i < |replacing| ==> replacing[i] in old(AllDescendentPops(council));
      if survivors == [] {
        assert seed in pops;
      }
      forall i | 0 <= i < |pops| && pops[i] !in replacing && (survivors != [] || pops[i] !in kept)
        ensures pops[i].mergeable == old(pops[i].mergeable)
      {
        assert pops[i] != seed;
        assert old@appointing(pops[i].mergeable) == old(pops[i].mergeable);
      }
    }

    /** HereditaryAutocracy.elect_council_members: heirs replace the
        councillors housekeeping removed, then suitable pops are recruited up
        to council_size as in an autocracy, and the council's mean opinion is
        taken. */
    method ElectHereditaryCouncil(pops: seq<Population>, ghost census: seq<Snapshot>)
      returns (fault: Option<Fault>, ghost kept: seq<Population>, ghost order: seq<Population>,
               ghost replacing: seq<Population>, ghost added: seq<Population>)
      requires kind == HereditaryAutocracy
      requires forall i :: 0 <= i < |pops| ==> pops[i].Valid()
      requires Matches(pops, census)
      modifies this`council, this`opinion, pops`mergeable, AllDescendentPops(council)`mergeable
      ensures fault.Some? <==> old(Surviving(council)) == [] && pops == []
      ensures fault.Some? ==> fault == Some(EmptyChoice)
      ensures fault.None? ==>
        var survivors := old(Surviving(council));
        var heirs := old(Dedup(AllDescendentPops(council)));
        && Housekept(kept, survivors, pops)
        && |order| == |heirs| && IsSample(order, heirs)
        && Recruited(replacing, order, old(|council|) - |kept|)
        && Recruited(added, Suited(if survivors != [] then old(opinion) else kept[0].traits.opinion, pops),
                     old(CouncilSizeFor(pops)) - |kept| - |replacing|)
        && council == kept + replacing + added
        && opinion == AverageOpinion(Opinions(council))
      ensures fault.None? ==> forall p :: p in replacing ==> !p.mergeable
      ensures fault.None? ==> forall i :: 0 <= i < |added| ==> !added[i].mergeable
      ensures fault.None? && old(Surviving(council)) == [] ==> !kept[0].mergeable
      ensures forall i ::
        (0 <= i < |pops| && pops[i] !in replacing && pops[i] !in added
         && (old(Surviving(council)) != [] || pops[i] !in kept)) ==>
        pops[i].mergeable == old(pops[i].mergeable)
      ensures fault.None? ==> Reseated(old(Mergeable(pops)), pops, council, |old(Surviving(council))|)
      ensures Matches(pops, census)
    {
      var size := CouncilSizeFor(pops);
      ghost var survivors := Surviving(council);
      ghost var was := Mergeable(pops);
      fault, kept, order, replacing, added := FillHereditaryCouncil(pops, size, census);
      if fault.None? {
        ElectionReseats(was, pops, council, survivors, kept, replacing, added);
      }
    }

    /** The rest of HereditaryAutocracy.elect_council_members once
        council_size is known (size): heirs replace the councillors
        housekeeping removed, then suitable pops are recruited up to size, and
        the council's mean opinion is taken. */
    method FillHereditaryCouncil(pops: seq<Population>, size: nat, ghost census: seq<Snapshot>)
      returns (fault: Option<Fault>, ghost kept: seq<Population>, ghost order: seq<Population>,
               ghost replacing: seq<Population>, ghost added: seq<Population>)
      requires kind == HereditaryAutocracy
      requires Matches(pops, census)
      modifies this`council, this`opinion, pops`mergeable, AllDescendentPops(council)`mergeable
      ensures fault.Some? <==> old(Surviving(council)) == [] && pops == []
      ensures fault.Some? ==> fault == Some(EmptyChoice)
      ensures fault.None? ==>
        var survivors := old(Surviving(council));
        var heirs := old(Dedup(AllDescendentPops(council)));
        && Housekept(kept, survivors, pops)
        && |order| == |heirs| && IsSample(order, heirs)
        && Recruited(replacing, order, old(|council|) - |kept|)
        && Recruited(added, Suited(if survivors != [] then old(opinion) else kept[0].traits.opinion, pops),
                     size - |kept| - |replacing|)
        && council == kept + replacing + added
        && opinion == AverageOpinion(Opinions(council))
      ensures fault.None? ==> forall p :: p in replacing ==> !p.mergeable
      ensures fault.None? ==> forall i :: 0 <= i < |added| ==> !added[i].mergeable
      ensures fault.None? && old(Surviving(council)) == [] ==> !kept[0].mergeable
      ensures forall i ::
        (0 <= i < |pops| && pops[i] !in replacing && pops[i] !in added
         && (old(Surviving(council)) != [] || pops[i] !in kept)) ==>
        pops[i].mergeable == old(pops[i].mergeable)
      ensures Matches(pops, census)
    {
      ghost var survivors := Surviving(council);
      ghost var earlier := opinion;
      fault, kept, order, replacing := ReplaceFromHeirs(pops, census);
      if fault.Some? {
        return fault, [], [], [], [];
      }
      ghost var judging := opinion;
      assert judging == if survivors != [] then earlier else kept[0].traits.opinion;
      ghost var before := council;
      added := Recruit(pops, size, census);
      assert Recruited(added, Suited(judging, pops), size - |before|);
      forall p | p in replacing
        ensures !p.mergeable
      {
        assert p in before;
      }
      if survivors == [] {
        assert kept[0] in before;
      }
    }

    // -------------------------------------------------------------------------
    // Democracies

    /** The start of RepresentativeDemocracy.elect_council_members: the
        sitting councillors become mergeable again and the council is
        dissolved. */
    method DissolveCouncil()
      modifies this`council, council`mergeable
      ensures council == []
      ensures forall i :: 0 <= i < |old(council)| ==> old(council)[i].mergeable
    {
      var members := council;
      for i := 0 to |members|
        invariant forall j :: 0 <= j < i ==> members[j].mergeable
      {
        members[i].mergeable := true;
      }
      council := [];
    }

    /** infer_opinions of both democracies: the mean opinion of the largest
        bloc of the group (the council of a representative democracy, every
        pop of a direct one); max() over no blocs raises. */
    method InferMajority(group: seq<Population>) returns (fault: Option<Fault>)
      modifies this`opinion
      ensures fault.Some? <==> group == []
      ensures fault.Some? ==> fault == Some(MaxOfEmpty) && opinion == old(opinion)
      ensures fault.None? ==> opinion == MajorityOpinion(Opinions(group))
    {
      if group == [] {
        return Some(MaxOfEmpty);
      }
      opinion := MajorityOpinion(Opinions(group));
      fault := None;
    }

    /** The election proper of elect_council_members, on a dissolved
        council: candidates are nominated, the voters cast their ballots, and
        the winners are seated (their mergeable flag is left as it was), or,
        when nobody won, a sample of size candidates; rng.sample of more
        candidates than stand raises. */
    method HoldElection(pops: seq<Population>, size: nat, threshold: real)
      returns (fault: Option<Fault>, ghost candidates: seq<Population>)
      requires council == []
      modifies this`council
      ensures fault.Some? ==> fault == Some(SampleTooLarge)
      ensures Elected(council, pops, candidates, size, threshold, fault.Some?)
    {
      var nominated := Nominate(pops, size);
      candidates := nominated;
      var cast := CastVotes(pops, nominated, size, threshold);
      var winners := Winners(cast, size);
      fault := None;
      if winners != [] {
        council := winners;
      } else if size > |nominated| {
        fault := Some(SampleTooLarge);
      } else {
        council := Sample(nominated, size);
      }
    }

    /** The lone pop of a settlement forms the council by itself, is no
        longer mergeable, and its opinion becomes the government's. */
    method SeatSole(p: Population)
      modifies this`council, this`opinion, p`mergeable
      ensures council == [p] && !p.mergeable
      ensures opinion == MajorityOpinion(Opinions(council)) == p.traits.opinion
    {
      p.mergeable := false;
      council := [p];
      var fault := InferMajority(council);
      assert Opinions(council) == [p.traits.opinion];
      MajorityOfOne(p.traits.opinion);
    }

    /** The election and the opinion inference of elect_council_members for
        a settlement of other than one pop: an election seats the council on
        a dissolved council, then the opinion of the council's largest bloc
        becomes the government's. */
    method ElectByVote(pops: seq<Population>, size: nat, threshold: real)
      returns (fault: Option<Fault>, ghost candidates: seq<Population>)
      requires council == []
      modifies this`council, this`opinion
      ensures Elected(council, pops, candidates, size, threshold, fault == Some(SampleTooLarge))
      ensures fault.None? <==> council != []
      ensures fault.Some? ==> fault == Some(SampleTooLarge) || fault == Some(MaxOfEmpty)
      ensures fault.None? ==> opinion == MajorityOpinion(Opinions(council))
    {
      fault, candidates := HoldElection(pops, size, threshold);
      if fault.None? {
        fault := InferMajority(council);
      }
    }

    /** RepresentativeDemocracy.elect_council_members, with the voting
        threshold rng.random() * 0.5 given. The sitting council is released
        and dissolved. A lone pop forms the council by itself and is no longer
        mergeable; otherwise an election seats the council. The opinion of
        the council's largest bloc becomes the government's. The council
        size, council_size(settlement.population), is computed by the
        caller. */
    method ElectRepresentatives(pops: seq<Population>, size: nat, threshold: real)
      returns (fault: Option<Fault>, ghost candidates: seq<Population>)
      requires kind.IsRepresentative()
      requires 0.0 <= threshold < 0.5
      requires forall i :: 0 <= i < |pops| ==> pops[i].Valid()
      requires size == CouncilSizeFor(pops)
      modifies this`council, this`opinion, council`mergeable, pops`mergeable
      ensures forall i :: 0 <= i < |old(council)| ==>
        old(council)[i].mergeable || (|pops| == 1 && old(council)[i] == pops[0])
      ensures forall i :: 0 <= i < |pops| && pops[i] !in old(council) && |pops| != 1 ==>
        pops[i].mergeable == old(pops[i].mergeable)
      ensures |pops| == 1 ==> fault.None? && council == pops && !pops[0].mergeable
      ensures |pops| != 1 ==>
        Elected(council, pops, candidates, size, threshold, fault == Some(SampleTooLarge))
      ensures fault.None? <==> council != []
      ensures fault.Some? ==> fault == Some(SampleTooLarge) || fault == Some(MaxOfEmpty)
      ensures fault.None? ==> opinion == MajorityOpinion(Opinions(council))
    {
      DissolveCouncil();
      if |pops| == 1 {
        SeatSole(pops[0]);
        return None, [];
      }
      fault, candidates := ElectByVote(pops, size, threshold);
    }

    // -------------------------------------------------------------------------
    // Founding

    /** What a government of its kind holds between govern steps: a
        dictator, and a term of 2 to 10 years. */
    ghost predicate Formed()
      reads this`dictator
    {
      FormedWith(kind, term, dictator)
    }

    /** Dictatorship.__init__ on a new government. */
    static method FoundDictatorship(kind: GovKind, pops: seq<Population>)
      returns (g: Government, fault: Option<Fault>)
      requires kind.IsDictatorship()
      modifies pops`mergeable
      ensures fresh(g) && g.kind == kind
      ensures fault.Some? <==> pops == []
      ensures fault.Some? ==> fault == Some(EmptyChoice)
      ensures fault.None? ==>
        g.dictator != null && g.dictator in pops && !g.dictator.mergeable
        && g.opinion == g.dictator.traits.opinion
      ensures Refounded(kind, old(Mergeable(pops)), pops, g.Holds(), fault)
    {
      g := new Government(kind, 0);
      fault := g.InstallDictator(pops);
    }

    /** Autocracy.__init__ on a new government: the first council is elected
        from an empty one. */
    static method FoundAutocracy(kind: GovKind, pops: seq<Population>)
      returns (g: Government, fault: Option<Fault>)
      requires kind.IsAutocracy()
      requires forall i :: 0 <= i < |pops| ==> pops[i].Valid()
      modifies pops`mergeable
      ensures fresh(g) && g.kind == kind
      ensures fault.Some? <==> pops == []
      ensures fault.Some? ==> fault == Some(EmptyChoice)
      ensures fault.None? ==>
        && |g.council| > 0 && g.council[0] in SeedCandidates(pops)
        && Recruited(g.council[1..], Suited(g.council[0].traits.opinion, pops), old(CouncilSizeFor(pops)) - 1)
        && g.opinion == AverageOpinion(Opinions(g.council))
      ensures Refounded(kind, old(Mergeable(pops)), pops, g.Holds(), fault)
    {
      g := new Government(kind, 0);
      assert AllDescendentPops(g.council) == [];
      assert CouncilSizeFor(pops) == old(CouncilSizeFor(pops));
      assert |Surviving(g.council)| == 0 && Mergeable(pops) == old(Mergeable(pops));
      if kind == Autocracy {
        ghost var kept, added;
        fault, kept, added := g.ElectCouncil(pops, Census(pops));
        if fault.None? {
          assert g.council[1..] == added;
        }
      } else {
        ghost var kept, order, replacing, added;
        fault, kept, order, replacing, added := g.ElectHereditaryCouncil(pops, Census(pops));
        if fault.None? {
          assert replacing == [];
          assert g.council[1..] == added;
        }
      }
      assert fault.None? ==> Reseated(old(Mergeable(pops)), pops, g.council, 0);
      assert g.Holds().council == g.council;
      CouncilRefounded(kind, old(Mergeable(pops)), pops, g.Holds(), fault);
    }

    /** RepresentativeDemocracy.__init__ on a new government: the first
        election, and the term. */
    static method FoundRepresentative(kind: GovKind, pops: seq<Population>, draws: Draws)
      returns (g: Government, fault: Option<Fault>, ghost candidates: seq<Population>)
      requires kind.IsRepresentative() && draws.InRange()
      requires forall i :: 0 <= i < |pops| ==> pops[i].Valid()
      modifies pops`mergeable
      ensures fresh(g) && g.kind == kind
      ensures FirstElected(g.Holds(), g.term, pops, draws, old(CouncilSizeFor(pops)), fault, candidates)
      ensures |pops| != 1 ==> forall i :: 0 <= i < |pops| ==> pops[i].mergeable == old(pops[i].mergeable)
      ensures |pops| == 1 ==> !pops[0].mergeable
    {
      var size := CouncilSizeFor(pops);
      g := new Government(kind, draws.term);
      assert g.council == [];
      fault, candidates := g.ElectRepresentatives(pops, size, draws.threshold);
    }

    /** DirectDemocracy.__init__ on a new government: the majority opinion
        of all pops. */
    static method FoundDirect(kind: GovKind, pops: seq<Population>)
      returns (g: Government, fault: Option<Fault>)
      requires kind.IsDirect()
      ensures fresh(g) && g.kind == kind
      ensures Consulted(g.Holds(), pops, fault)
    {
      g := new Government(kind, 0);
      fault := g.InferMajority(pops);
    }

    /** The __init__ of the dictatorships and autocracies. */
    static method FoundAutocratic(kind: GovKind, pops: seq<Population>)
      returns (g: Government, fault: Option<Fault>)
      requires kind.IsDictatorship() || kind.IsAutocracy()
      requires forall i :: 0 <= i < |pops| ==> pops[i].Valid()
      modifies pops`mergeable
      ensures fresh(g) && g.kind == kind
      ensures InauguratedAutocratic(kind, g.Holds(), pops, old(CouncilSizeFor(pops)), fault)
      ensures fault.None? ==> g.Formed()
      ensures fault.None? && kind.IsDictatorship() ==> !g.dictator.mergeable
      ensures Refounded(kind, old(Mergeable(pops)), pops, g.Holds(), fault)
    {
      if kind.IsDictatorship() {
        g, fault := FoundDictatorship(kind, pops);
      } else {
        g, fault := FoundAutocracy(kind, pops);
      }
    }

    /** The __init__ of the democracies. */
    static method FoundDemocratic(kind: GovKind, pops: seq<Population>, draws: Draws)
      returns (g: Government, fault: Option<Fault>, ghost candidates: seq<Population>)
      requires kind.IsDemocratic() && draws.InRange()
      requires forall i :: 0 <= i < |pops| ==> pops[i].Valid()
      modifies pops`mergeable
      ensures fresh(g) && g.kind == kind
      ensures InauguratedDemocratic(kind, g.Holds(), g.term, pops, draws, old(CouncilSizeFor(pops)), fault, candidates)
      ensures fault.None? ==> g.Formed()
      ensures kind.IsDirect() || |pops| != 1 ==> forall i :: 0 <= i < |pops| ==> pops[i].mergeable == old(pops[i].mergeable)
      ensures kind.IsRepresentative() && |pops| == 1 ==> !pops[0].mergeable
    {
      hide Reelected, Consulted;
      if kind.IsRepresentative() {
        g, fault, candidates := FoundRepresentative(kind, pops, draws);
      } else {
        g, fault := FoundDirect(kind, pops);
        candidates := [];
      }
    }

    /** government_type(settlement): each kind's __init__ on a new
        government; a fault is the exception the __init__ raises. */
    static method Create(kind: GovKind, pops: seq<Population>, draws: Draws)
      returns (g: Government, fault: Option<Fault>, ghost candidates: seq<Population>)
      requires draws.InRange()
      requires forall i :: 0 <= i < |pops| ==> pops[i].Valid()
      modifies pops`mergeable
      ensures fresh(g) && g.kind == kind
      ensures Inaugurated(kind, g.Holds(), g.term, pops, draws, old(CouncilSizeFor(pops)), fault, candidates)
      ensures fault.None? ==> g.Formed()
      ensures fault.None? && kind.IsDictatorship() ==> !g.dictator.mergeable
      ensures !kind.IsDemocratic() ==> Refounded(kind, old(Mergeable(pops)), pops, g.Holds(), fault)
      ensures kind.IsDirect() || (kind.IsRepresentative() && |pops| != 1) ==>
        forall i :: 0 <= i < |pops| ==> pops[i].mergeable == old(pops[i].mergeable)
      ensures kind.IsRepresentative() && |pops| == 1 ==> !pops[0].mergeable
    {
      hide InauguratedDemocratic, InauguratedAutocratic, Refounded;
      if kind.IsDemocratic() {
        g, fault, candidates := FoundDemocratic(kind, pops, draws);
      } else {
        g, fault := FoundAutocratic(kind, pops);
        candidates := [];
      }
    }

    /** The dictatorship branch of establish_new_government: the dictator is
        drawn again, from the inner circle (left mergeable as it is), and
        the opinion inferred. */
    method SeizePower(inner: seq<Population>) returns (fault: Option<Fault>)
      requires kind.IsDictatorship()
      modifies this`dictator, this`opinion
      ensures fault.Some? <==> inner == []
      ensures fault.Some? ==> fault == Some(EmptyChoice) && dictator == old(dictator) && opinion == old(opinion)
      ensures fault.None? ==> dictator != null && dictator in inner && opinion == dictator.traits.opinion
    {
      if inner == [] {
        return Some(EmptyChoice);
      }
      assert inner[0] in inner;
      var d :| d in inner;
      dictator := d;
      InferOpinion();
      fault := None;
    }

    /** The autocracy branch of establish_new_government when the inner
        circle is smaller than the council: it becomes the council, which is
        then elected again as elect_council_members does, from the seating
        packed its Circle gives it. */
    method ElectInnerCircle(pops: seq<Population>, inner: seq<Population>, ghost packed: Seating)
      returns (fault: Option<Fault>)
      requires kind.IsAutocracy() && packed == CircleOf(inner).Packing(inner, Holds())
      requires forall i :: 0 <= i < |pops| ==> pops[i].Valid()
      modifies this`council, this`opinion, pops`mergeable, AllDescendentPops(inner)`mergeable
      ensures CouncilReconsidered(kind == HereditaryAutocracy, packed, Holds(), pops, old(CouncilSizeFor(pops)), fault)
    {
      council := inner;
      assert CurrentStanding().Seated() == packed;
      assert CouncilSizeFor(pops) == old(CouncilSizeFor(pops));
      fault := RenewCouncil(pops, packed);
    }

    /** The autocracy branch of establish_new_government, on the council a
        founding left (founded): an inner circle at least as large as that
        council supplies a sample of its size as the council (their mergeable
        flags untouched); a smaller one is elected again (ElectInnerCircle).
        The opinion is inferred from the council either way. packed is the
        seating the inner circle's Circle gives it. */
    method PackCouncil(pops: seq<Population>, inner: seq<Population>, ghost packed: Seating)
      returns (fault: Option<Fault>, ghost founded: Rule)
      requires kind.IsAutocracy() && |council| > 0 && packed == CircleOf(inner).Packing(inner, Holds())
      requires forall i :: 0 <= i < |pops| ==> pops[i].Valid()
      modifies this`council, this`opinion, pops`mergeable, AllDescendentPops(inner)`mergeable
      ensures founded == old(Holds())
      ensures fault.Some? ==> fault == Some(EmptyChoice) && pops == [] && |inner| < |founded.council|
      ensures |inner| >= |founded.council| ==>
        fault.None? && |council| == |founded.council| && IsSample(council, inner)
      ensures |inner| < |founded.council| ==>
        CouncilReconsidered(kind == HereditaryAutocracy, packed, Holds(), pops, old(CouncilSizeFor(pops)), fault)
      ensures fault.None? ==> |council| > 0 && opinion == AverageOpinion(Opinions(council))
    {
      founded := Holds();
      fault := None;
      if |inner| >= |council| {
        council := Sample(inner, |council|);
        InferOpinion();
      } else {
        // elect_council_members ends with infer_opinion, so the one that
        // follows it here leaves the opinion as it is.
        fault := ElectInnerCircle(pops, inner, packed);
      }
    }

    /** establish_new_government for a dictatorship or an autocracy: the
        new government's dictator is drawn again from the inner circle, or
        its council packed from it. */
    static method EstablishAutocratic(kind: GovKind, pops: seq<Population>, inner: seq<Population>)
      returns (g: Government, fault: Option<Fault>, ghost founded: Rule)
      requires kind.IsDictatorship() || kind.IsAutocracy()
      requires forall i :: 0 <= i < |pops| ==> pops[i].Valid()
      modifies pops`mergeable, AllDescendentPops(inner)`mergeable
      ensures fresh(g) && g.kind == kind
      ensures fault.None? ==>
        g.Formed() && Installed(g.kind, g.Holds(), inner, founded, old(CircleOf(inner)), pops, old(CouncilSizeFor(pops))) == true
      ensures EstablishFaults(kind, pops, inner, fault)
    {
      if kind.IsAutocracy() {
        g, fault, founded := EstablishAutocracy(kind, pops, inner);
      } else {
        g, fault, founded := EstablishDictatorship(kind, pops, inner);
      }
    }

    /** The dictatorship branch of establish_new_government: a founded
        dictatorship whose dictator is drawn again from the inner circle. */
    static method EstablishDictatorship(kind: GovKind, pops: seq<Population>, inner: seq<Population>)
      returns (g: Government, fault: Option<Fault>, ghost founded: Rule)
      requires kind.IsDictatorship()
      requires forall i :: 0 <= i < |pops| ==> pops[i].Valid()
      modifies pops`mergeable
      ensures fresh(g) && g.kind == kind
      ensures fault.None? ==>
        g.Formed() && Installed(g.kind, g.Holds(), inner, founded, old(CircleOf(inner)), pops, old(CouncilSizeFor(pops))) == true
      ensures EstablishFaults(kind, pops, inner, fault)
    {
      g, fault := FoundDictatorship(kind, pops);
      founded := g.Holds();
      if fault.Some? {
        return;
      }
      fault := g.SeizePower(inner);
    }

    /** The autocracy branch of establish_new_government: a founded
        autocracy whose council is packed from the inner circle. */
    static method EstablishAutocracy(kind: GovKind, pops: seq<Population>, inner: seq<Population>)
      returns (g: Government, fault: Option<Fault>, ghost founded: Rule)
      requires kind.IsAutocracy()
      requires forall i :: 0 <= i < |pops| ==> pops[i].Valid()
      modifies pops`mergeable, AllDescendentPops(inner)`mergeable
      ensures fresh(g) && g.kind == kind
      ensures fault.None? ==>
        g.Formed() && Installed(g.kind, g.Holds(), inner, founded, old(CircleOf(inner)), pops, old(CouncilSizeFor(pops))) == true
      ensures EstablishFaults(kind, pops, inner, fault)
    {
      assert FormedWith(kind, 0, null);
      g, fault := FoundAutocracy(kind, pops);
      founded := g.Holds();
      if fault.Some? {
        return;
      }
      ghost var size := old(CouncilSizeFor(pops));
      assert InauguratedAutocratic(kind, founded, pops, size, None);
      PopsKept(pops);
      CircleKept(inner);
      ghost var packed := CircleOf(inner).Packing(inner, g.Holds());
      fault, founded := g.PackCouncil(pops, inner, packed);
      if fault.None? {
        AutocracyInstalled(kind, g.Holds(), inner, founded, old(CircleOf(inner)), pops, size, packed);
      }
    }

    /** establish_new_government for a democracy: the new government is
        left as founded, with nothing installed from the inner circle. */
    static method EstablishDemocratic(kind: GovKind, pops: seq<Population>, inner: seq<Population>, draws: Draws)
      returns (g: Government, fault: Option<Fault>, ghost founded: Rule, ghost candidates: seq<Population>)
      requires kind.IsDemocratic() && draws.InRange()
      requires forall i :: 0 <= i < |pops| ==> pops[i].Valid()
      modifies pops`mergeable
      ensures fresh(g) && g.kind == kind
      ensures fault.None? ==> g.Formed() && founded == UNRULED
      ensures InauguratedDemocratic(kind, g.Holds(), g.term, pops, draws, old(CouncilSizeFor(pops)), fault, candidates)
      ensures kind.IsDirect() ==> (fault.Some? <==> pops == [])
      ensures fault.Some? ==> fault == Some(SampleTooLarge) || fault == Some(MaxOfEmpty)
    {
      ghost var size := CouncilSizeFor(pops);
      g, fault, candidates := FoundDemocratic(kind, pops, draws);
      InauguratedFaults(kind, g.Holds(), g.term, pops, draws, size, fault, candidates);
      founded := UNRULED;
    }

    /** establish_new_government: a new government of the given kind, with
        a dictatorship or autocracy then installed from the inner circle;
        democracies are left as founded. */
    static method EstablishNewGovernment(kind: GovKind, pops: seq<Population>, inner: seq<Population>, draws: Draws)
      returns (g: Government, fault: Option<Fault>, ghost founded: Rule, ghost candidates: seq<Population>)
      requires draws.InRange()
      requires forall i :: 0 <= i < |pops| ==> pops[i].Valid()
      modifies pops`mergeable, AllDescendentPops(inner)`mergeable
      ensures fresh(g) && g.kind == kind
      ensures fault.None? ==>
        g.Formed() && Installed(g.kind, g.Holds(), inner, founded, old(CircleOf(inner)), pops, old(CouncilSizeFor(pops))) == true
      ensures EstablishFaults(kind, pops, inner, fault)
      ensures kind.IsDemocratic() ==>
        InauguratedDemocratic(kind, g.Holds(), g.term, pops, draws, old(CouncilSizeFor(pops)), fault, candidates)
    {
      if kind.IsDemocratic() {
        g, fault, founded, candidates := EstablishDemocratic(kind, pops, inner, draws);
        DemocracyInstalled(g.kind, g.Holds(), inner, founded, old(CircleOf(inner)), pops, old(CouncilSizeFor(pops)));
        DemocracyFaults(kind, pops, inner, fault);
      } else {
        g, fault, founded := EstablishAutocratic(kind, pops, inner);
        candidates := [];
      }
    }

    // -------------------------------------------------------------------------
    // Revolutions

    /** The new government of a revolution: its kind is drawn from the
        choices, and establish_new_government founds it with the inner
        circle. */
    static method Revolution(kinds: seq<GovKind>, pops: seq<Population>, inner: seq<Population>, draws: Draws)
      returns (out: Outcome, ghost chosen: GovKind, ghost founded: Rule)
      requires draws.InRange()
      requires forall i :: 0 <= i < |pops| ==> pops[i].Valid()
      requires forall i :: 0 <= i < |inner| ==> inner[i] in pops
      modifies pops`mergeable, AllDescendentPops(pops)`mergeable
      ensures Revolted(out, kinds, pops, inner, old(CouncilSizeFor(pops)), chosen, founded, old(CircleOf(inner)),
                       NextRule(out))
      ensures out.Replaced? ==> fresh(out.government)
    {
      if kinds == [] {
        return Crashed(EmptyChoice), Dictatorship, UNRULED;
      }
      assert kinds[0] in kinds;
      var kind :| kind in kinds;
      chosen := kind;
      DescendentsOfSubgroup(inner, pops);
      var g, fault;
      ghost var candidates;
      g, fault, founded, candidates := EstablishNewGovernment(kind, pops, inner, draws);
      if fault.Some? {
        return Crashed(fault.value), chosen, founded;
      }
      out := Replaced(g);
    }

    /** The decision of is_population_going_to_overthrow_government, once
        its groups are counted. */
    static method Uprise(loyal: seq<Population>, unhappy: seq<Population>, rebels: seq<Population>,
                         pops: seq<Population>, draws: Draws)
      returns (out: Outcome, ghost chosen: GovKind, ghost founded: Rule)
      requires draws.InRange()
      requires forall i :: 0 <= i < |pops| ==> pops[i].Valid()
      requires forall i :: 0 <= i < |unhappy| ==> unhappy[i] in pops
      requires forall i :: 0 <= i < |rebels| ==> rebels[i] in pops
      modifies pops`mergeable, AllDescendentPops(pops)`mergeable
      ensures var plan := OverthrowPlan(loyal, unhappy, rebels);
        Follows(out, plan, pops, old(CouncilSizeFor(pops)), chosen, founded, old(CircleOf(Inner(plan))), NextRule(out))
      ensures out.Replaced? ==> fresh(out.government)
    {
      chosen, founded := Dictatorship, UNRULED;
      if |unhappy| > |loyal| * 5 {
        out, chosen, founded := Revolution(PreferredKinds(unhappy), pops, unhappy, draws);
      } else if |rebels| >= |loyal| * 3 {
        out, chosen, founded := Revolution(PreferredKinds(rebels), pops, rebels, draws);
      } else {
        out := Unchanged;
      }
    }

    /** is_population_going_to_overthrow_government: with more than five
        unhappy pops per loyal one they revolt peacefully and found the
        government one of them prefers with all of them as inner circle;
        otherwise with at least three rebels per loyal pop the rebels found
        theirs; otherwise nothing happens. */
    method OverthrowCheck(pops: seq<Population>, draws: Draws)
      returns (out: Outcome, ghost chosen: GovKind, ghost founded: Rule)
      requires draws.InRange()
      requires forall i :: 0 <= i < |pops| ==> pops[i].Valid()
      modifies pops`mergeable, AllDescendentPops(pops)`mergeable
      ensures var plan := Overthrow(opinion, pops);
        Follows(out, plan, pops, old(CouncilSizeFor(pops)), chosen, founded, old(CircleOf(Inner(plan))), NextRule(out)) == true
      ensures out.Replaced? ==> fresh(out.government)
    {
      var loyal, unhappy, rebels := Factions(opinion, pops, false);
      ghost var size := CouncilSizeFor(pops);
      assert size == old(CouncilSizeFor(pops));
      CircleKept(Inner(OverthrowPlan(loyal, unhappy, rebels)));
      out, chosen, founded := Uprise(loyal, unhappy, rebels, pops, draws);
      assert Overthrow(opinion, pops) == OverthrowPlan(loyal, unhappy, rebels);
    }

    /** The kinds a drift to autocracy chooses among: those the councillors
        of a representative democracy prefer, or any autocratic kind. */
    function DriftChoices(): (ks: seq<GovKind>)
      reads this`council
      ensures kind.IsRepresentative() ==> |ks| == |council|
      ensures !kind.IsRepresentative() ==> forall i :: 0 <= i < |ks| ==> !ks[i].IsDemocratic()
    {
      if kind.IsRepresentative() then PreferredKinds(council) else AUTOCRATIC_KINDS
    }

    /** The decision of is_government_going_to_become_autocracy, once its
        groups are counted. */
    static method Drift(drifting: seq<GovKind>, ad: real,
                        loyal: seq<Population>, unhappy: seq<Population>, rebels: seq<Population>,
                        pops: seq<Population>, draws: Draws)
      returns (out: Outcome, ghost chosen: GovKind, ghost founded: Rule)
      requires draws.InRange()
      requires forall i :: 0 <= i < |pops| ==> pops[i].Valid()
      requires forall i :: 0 <= i < |loyal| ==> loyal[i] in pops
      requires forall i :: 0 <= i < |unhappy| ==> unhappy[i] in pops
      modifies pops`mergeable, AllDescendentPops(pops)`mergeable
      ensures var plan := DriftPlan(drifting, ad, loyal, unhappy, rebels);
        Follows(out, plan, pops, old(CouncilSizeFor(pops)), chosen, founded, old(CircleOf(Inner(plan))), NextRule(out))
      ensures out.Replaced? ==> fresh(out.government)
    {
      chosen, founded := Dictatorship, UNRULED;
      if |loyal| > |unhappy| * 2 && ad < 0.25 {
        out, chosen, founded := Revolution(drifting, pops, loyal, draws);
      } else if |rebels| > |loyal| * 3 {
        out, chosen, founded := Revolution(PreferredKinds(rebels), pops, unhappy, draws);
      } else if |unhappy| > |loyal| * 5 {
        out, chosen, founded := Revolution(PreferredKinds(unhappy), pops, unhappy, draws);
      } else {
        out := Unchanged;
      }
    }

    /** is_government_going_to_become_autocracy: a loyal majority under a
        government leaning autocratic (below 0.25) installs one of the
        DriftChoices with the loyal pops as inner circle; more than three
        hard-autocrat rebels per loyal pop found a kind one of them prefers;
        more than five unhappy pops per loyal one found a kind one of them
        prefers; in both the unhappy pops are the inner circle. */
    method DriftCheck(pops: seq<Population>, draws: Draws)
      returns (out: Outcome, ghost chosen: GovKind, ghost founded: Rule)
      requires kind.IsDemocratic()
      requires draws.InRange()
      requires forall i :: 0 <= i < |pops| ==> pops[i].Valid()
      modifies pops`mergeable, AllDescendentPops(pops)`mergeable
      ensures var plan := DriftTo(opinion, DriftChoices(), pops);
        Follows(out, plan, pops, old(CouncilSizeFor(pops)), chosen, founded, old(CircleOf(Inner(plan))), NextRule(out)) == true
      ensures out.Replaced? ==> fresh(out.government)
    {
      var loyal, unhappy, rebels := Factions(opinion, pops, true);
      ghost var size := CouncilSizeFor(pops);
      assert size == old(CouncilSizeFor(pops));
      CircleKept(Inner(DriftPlan(DriftChoices(), opinion.autocraticDemocratic, loyal, unhappy, rebels)));
      out, chosen, founded := Drift(DriftChoices(), opinion.autocraticDemocratic, loyal, unhappy, rebels, pops, draws);
      assert DriftTo(opinion, DriftChoices(), pops) ==
             DriftPlan(DriftChoices(), opinion.autocraticDemocratic, loyal, unhappy, rebels);
    }

    // -------------------------------------------------------------------------
    // The yearly govern step

    /** The start of Dictatorship.govern: a dead dictator is succeeded by
        one chosen as choose_new_dictator says; a living one stays. */
    method Succeed(pops: seq<Population>) returns (fault: Option<Fault>)
      requires kind.IsDictatorship() && Formed()
      modifies this`dictator, this`opinion
      ensures Formed()
      ensures Succeeded(kind, old(CurrentStanding()), Holds(), pops, fault)
      ensures !old(dictator.IsDead()) ==> fault.None? && dictator == old(dictator) && opinion == old(opinion)
      ensures old(dictator.IsDead()) ==>
        var cs := DictatorCandidates(kind, old(opinion), old(dictator.descendentPops), pops);
        && (fault.Some? <==> cs == [])
        && (fault.Some? ==> fault == Some(EmptyChoice))
        && (fault.None? ==> dictator in cs && opinion == dictator.traits.opinion)
      ensures Unaltered(pops)
    {
      fault := None;
      if dictator.IsDead() {
        fault := ChooseNewDictator(pops);
      }
    }

    /** What govern does in an autocratic government before its revolution
        check: a dictatorship replaces a dead dictator (Succeed), an
        autocracy elects its council again (ElectCouncil,
        ElectHereditaryCouncil). */
    method ReconsiderAutocratic(pops: seq<Population>, ghost before: Standing) returns (fault: Option<Fault>)
      requires !kind.IsDemocratic() && Formed() && before == CurrentStanding()
      requires forall i :: 0 <= i < |pops| ==> pops[i].Valid()
      modifies this`council, this`opinion, this`dictator, pops`mergeable, AllDescendentPops(council)`mergeable
      ensures Formed()
      ensures ReconsideredAutocratic(kind, before, Holds(), pops, old(CouncilSizeFor(pops)), fault)
      ensures kind.IsAutocracy() && fault.None? ==> Reseated(old(Mergeable(pops)), pops, council, |old(Surviving(council))|)
      ensures kind.IsDictatorship() ==> Mergeable(pops) == old(Mergeable(pops))
      ensures Unaltered(pops)
    {
      if kind.IsDictatorship() {
        fault := Succeed(pops);
      } else {
        fault := RenewCouncil(pops, CurrentStanding().Seated());
      }
    }

    /** The council election of an autocracy's govern: ElectCouncil, or
        ElectHereditaryCouncil for a hereditary autocracy. */
    method RenewCouncil(pops: seq<Population>, ghost seat: Seating) returns (fault: Option<Fault>)
      requires kind.IsAutocracy() && seat == CurrentStanding().Seated()
      requires forall i :: 0 <= i < |pops| ==> pops[i].Valid()
      modifies this`council, this`opinion, pops`mergeable, AllDescendentPops(council)`mergeable
      ensures CouncilReconsidered(kind == HereditaryAutocracy, seat, Holds(), pops, old(CouncilSizeFor(pops)), fault)
      ensures fault.None? ==> Reseated(old(Mergeable(pops)), pops, council, |old(Surviving(council))|)
      ensures Unaltered(pops)
    {
      if kind == Autocracy {
        fault := RenewAutocracy(pops);
      } else {
        fault := RenewHereditaryAutocracy(pops);
      }
    }

    /** ElectCouncil, as an autocracy's reconsideration. */
    method RenewAutocracy(pops: seq<Population>) returns (fault: Option<Fault>)
      requires kind == Autocracy
      requires forall i :: 0 <= i < |pops| ==> pops[i].Valid()
      modifies this`council, this`opinion, pops`mergeable
      ensures CouncilReconsidered(kind == HereditaryAutocracy, old(CurrentStanding().Seated()), Holds(), pops,
                                  old(CouncilSizeFor(pops)), fault)
      ensures fault.None? ==> Reseated(old(Mergeable(pops)), pops, council, |old(Surviving(council))|)
      ensures Unaltered(pops)
    {
      ghost var before, size := CurrentStanding(), CouncilSizeFor(pops);
      ghost var kept, added;
      ghost var census := Census(pops);
      fault, kept, added := ElectCouncil(pops, census);
      CensusKept(pops);
      ElectionReconsidered(false, before, Holds(), pops, size, fault, kept, [], [], added);
    }

    /** ElectHereditaryCouncil, as a hereditary autocracy's
        reconsideration. */
    method RenewHereditaryAutocracy(pops: seq<Population>) returns (fault: Option<Fault>)
      requires kind == HereditaryAutocracy
      requires forall i :: 0 <= i < |pops| ==> pops[i].Valid()
      modifies this`council, this`opinion, pops`mergeable, AllDescendentPops(council)`mergeable
      ensures CouncilReconsidered(kind == HereditaryAutocracy, old(CurrentStanding().Seated()), Holds(), pops,
                                  old(CouncilSizeFor(pops)), fault)
      ensures fault.None? ==> Reseated(old(Mergeable(pops)), pops, council, |old(Surviving(council))|)
      ensures Unaltered(pops)
    {
      ghost var before, size := CurrentStanding(), CouncilSizeFor(pops);
      ghost var kept, order, replacing, added;
      ghost var census := Census(pops);
      fault, kept, order, replacing, added := ElectHereditaryCouncil(pops, census);
      CensusKept(pops);
      ElectionReconsidered(true, before, Holds(), pops, size, fault, kept, order, replacing, added);
    }

    /** The start of RepresentativeDemocracy.govern: the first call records
        the founding year; afterwards the council is elected again
        (ElectRepresentatives) in every year a whole number of terms away
        from the founding year. */
    method HoldScheduledElection(pops: seq<Population>, year: int, threshold: real)
      returns (fault: Option<Fault>, ghost candidates: seq<Population>)
      requires kind.IsRepresentative() && Formed()
      requires 0.0 <= threshold < 0.5
      requires forall i :: 0 <= i < |pops| ==> pops[i].Valid()
      modifies this`council, this`opinion, this`foundingYear, council`mergeable, pops`mergeable
      ensures Scheduled(old(Holds()), Holds(), term, pops, year, threshold, old(CouncilSizeFor(pops)), fault, candidates)
      ensures if old(foundingYear) != -1 && ElectionYear(old(foundingYear), year, term)
              then Revoted(old(Mergeable(pops)), old(council), pops) else Mergeable(pops) == old(Mergeable(pops))
    {
      hide Mergeable, Elected;
      fault, candidates := None, [];
      if foundingYear == -1 {
        foundingYear := year;
      } else if ElectionYear(foundingYear, year, term) {
        ghost var was, released := Mergeable(pops), council;
        fault, candidates := ElectRepresentatives(pops, CouncilSizeFor(pops), threshold);
        assert Revoted(was, released, pops);
      }
    }

    /** What govern does in a democracy before its drift check: a
        representative democracy holds its scheduled election
        (HoldScheduledElection), a direct democracy infers its opinion again
        (InferMajority). */
    method ReconsiderDemocratic(pops: seq<Population>, year: int, threshold: real)
      returns (fault: Option<Fault>, ghost candidates: seq<Population>)
      requires kind.IsDemocratic() && Formed()
      requires 0.0 <= threshold < 0.5
      requires forall i :: 0 <= i < |pops| ==> pops[i].Valid()
      modifies this`council, this`opinion, this`foundingYear, council`mergeable, pops`mergeable
      ensures ReconsideredDemocratic(kind, term, old(Holds()), Holds(), pops, year, threshold, old(CouncilSizeFor(pops)),
                                     fault, candidates)
      ensures if kind.IsRepresentative() && old(foundingYear) != -1 && ElectionYear(old(foundingYear), year, term)
              then Revoted(old(Mergeable(pops)), old(council), pops) else Mergeable(pops) == old(Mergeable(pops))
    {
      hide Mergeable, Elected;
      if kind.IsRepresentative() {
        fault, candidates := HoldScheduledElection(pops, year, threshold);
      } else {
        fault := InferMajority(pops);
        candidates := [];
      }
    }

    /** The overthrow check, skipped when the reconsideration failed. */
    method OverthrowUnlessCrashed(pops: seq<Population>, draws: Draws, fault: Option<Fault>)
      returns (out: Outcome, ghost chosen: GovKind, ghost founded: Rule)
      requires draws.InRange()
      requires forall i :: 0 <= i < |pops| ==> pops[i].Valid()
      modifies pops`mergeable, AllDescendentPops(pops)`mergeable
      ensures fault.Some? ==> out == Crashed(fault.value)
      ensures fault.None? ==> var plan := Overthrow(opinion, pops);
        Follows(out, plan, pops, old(CouncilSizeFor(pops)), chosen, founded, old(CircleOf(Inner(plan))), NextRule(out))
      ensures Holds() == old(Holds())
      ensures out.Replaced? ==> fresh(out.government)
    {
      chosen, founded := Dictatorship, UNRULED;
      if fault.Some? {
        out := Crashed(fault.value);
      } else {
        out, chosen, founded := OverthrowCheck(pops, draws);
      }
    }

    /** The drift check, skipped when the reconsideration failed. */
    method DriftUnlessCrashed(pops: seq<Population>, draws: Draws, fault: Option<Fault>)
      returns (out: Outcome, ghost chosen: GovKind, ghost founded: Rule)
      requires kind.IsDemocratic()
      requires draws.InRange()
      requires forall i :: 0 <= i < |pops| ==> pops[i].Valid()
      modifies pops`mergeable, AllDescendentPops(pops)`mergeable
      ensures fault.Some? ==> out == Crashed(fault.value)
      ensures fault.None? ==> var plan := DriftTo(opinion, DriftChoices(), pops);
        Follows(out, plan, pops, old(CouncilSizeFor(pops)), chosen, founded, old(CircleOf(Inner(plan))), NextRule(out))
      ensures Holds() == old(Holds())
      ensures out.Replaced? ==> fresh(out.government)
    {
      chosen, founded := Dictatorship, UNRULED;
      if fault.Some? {
        out := Crashed(fault.value);
      } else {
        out, chosen, founded := DriftCheck(pops, draws);
      }
    }

    /** Government.govern for an autocratic government: it reconsiders
        itself (ReconsiderAutocratic), then faces an overthrow check. */
    method GovernAutocratic(pops: seq<Population>, draws: Draws)
      returns (out: Outcome, ghost fault: Option<Fault>, ghost chosen: GovKind, ghost founded: Rule)
      requires !kind.IsDemocratic() && Formed()
      requires draws.InRange()
      requires forall i :: 0 <= i < |pops| ==> pops[i].Valid()
      modifies this`council, this`opinion, this`dictator, pops`mergeable,
        AllDescendentPops(council)`mergeable, AllDescendentPops(pops)`mergeable
      ensures Formed()
      ensures ReconsideredAutocratic(kind, old(CurrentStanding()), Holds(), pops, old(CouncilSizeFor(pops)), fault) == true
      ensures fault.Some? ==> out == Crashed(fault.value)
      ensures fault.None? ==> var plan := Overthrow(opinion, pops);
        Follows(out, plan, pops, old(CouncilSizeFor(pops)), chosen, founded, old(CircleOf(Inner(plan))), NextRule(out)) == true
      ensures out.Replaced? ==> fresh(out.government)
    {
      ghost var before := CurrentStanding();
      var failed := ReconsiderAutocratic(pops, before);
      fault := failed;
      ghost var after := Holds();
      PopsKept(pops);
      GroupKept(pops, Inner(Overthrow(opinion, pops)));
      out, chosen, founded := OverthrowUnlessCrashed(pops, draws, failed);
      assert Holds() == after;
    }

    /** Government.govern for a democratic government: it reconsiders
        itself (ReconsiderDemocratic), then faces a drift check. */
    method GovernDemocratic(pops: seq<Population>, year: int, threshold: real, draws: Draws)
      returns (out: Outcome, ghost fault: Option<Fault>, ghost chosen: GovKind, ghost founded: Rule,
               ghost candidates: seq<Population>)
      requires kind.IsDemocratic() && Formed()
      requires 0.0 <= threshold < 0.5 && draws.InRange()
      requires forall i :: 0 <= i < |pops| ==> pops[i].Valid()
      modifies this`council, this`opinion, this`foundingYear, council`mergeable,
        pops`mergeable, AllDescendentPops(pops)`mergeable
      ensures ReconsideredDemocratic(kind, term, old(Holds()), Holds(), pops, year, threshold, old(CouncilSizeFor(pops)),
                                     fault, candidates) == true
      ensures fault.Some? ==> out == Crashed(fault.value)
      ensures fault.None? ==> var drift, kinds := opinion, DriftChoices(); var plan := DriftTo(drift, kinds, pops);
        Follows(out, plan, pops, old(CouncilSizeFor(pops)), chosen, founded, old(CircleOf(Inner(DriftTo(drift, kinds, pops)))),
                NextRule(out)) == true
      ensures out.Replaced? ==> fresh(out.government)
    {
      ghost var before, size := Holds(), CouncilSizeFor(pops);
      var failed;
      failed, candidates := ReconsiderDemocratic(pops, year, threshold);
      fault := failed;
      ghost var after := Holds();
      assert ReconsideredDemocratic(kind, term, before, after, pops, year, threshold, size, fault, candidates);
      PopsKept(pops);
      GroupKept(pops, Inner(DriftTo(opinion, DriftChoices(), pops)));
      out, chosen, founded := DriftUnlessCrashed(pops, draws, failed);
      assert Holds() == after;
    }

    /** Government.govern: the government reconsiders itself as its kind
        does; a failure there ends the year; otherwise an autocratic
        government may be overthrown and a democratic one may drift to
        autocracy. What that leaves is Governed, against the standing, the
        council size and the inner circle's Circle as they were; a
        replacement is new. */
    method Govern(pops: seq<Population>, year: int, threshold: real, draws: Draws)
      returns (out: Outcome, ghost fault: Option<Fault>, ghost chosen: GovKind, ghost founded: Rule,
               ghost candidates: seq<Population>)
      requires Formed()
      requires 0.0 <= threshold < 0.5 && draws.InRange()
      requires forall i :: 0 <= i < |pops| ==> pops[i].Valid()
      modifies this`council, this`opinion, this`dictator, this`foundingYear, council`mergeable,
        pops`mergeable, AllDescendentPops(council)`mergeable, AllDescendentPops(pops)`mergeable
      ensures var plan := Threat(kind, Holds(), pops);
        Governed(kind, term, old(CurrentStanding()), Holds(), old(CouncilSizeFor(pops)), old(CircleOf(Inner(plan))),
                 out, pops, year, threshold, fault, chosen, founded, candidates, NextRule(out)) == true
      ensures Formed()
      ensures out.Replaced? ==> fresh(out.government) && out.government.Formed()
    {
      if kind.IsDemocratic() {
        out, fault, chosen, founded, candidates := GovernDemocratic(pops, year, threshold, draws);
      } else {
        out, fault, chosen, founded := GovernAutocratic(pops, draws);
        candidates := [];
      }
    }
  }
}
