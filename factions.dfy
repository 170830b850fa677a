/** Factions: alliances of colonies, and the name a new faction gives
    itself from its members' planets, countries and peoples. */
module Factions {
  import opened Numeric
  import opened Politics
  import opened Populations
  import opened Governments
  import opened Settlements
  import opened Colonies

  /** The kind of faction a country's government leans to, indexed by the
      hash of its opinion (0 to 31); two hashes give "league". */
  const FACTION_NAME_SUFFIXES: seq<string> := [
    "empire", "affiliation", "kingdom", "association", "alliance", "entente", "concordat", "conjunction",
    "dominion", "compact", "coalition", "treaty", "pact", "consortium", "fraternity", "communion",
    "hegemony", "federation", "bloc", "confederation", "axis", "guild", "combine", "accord",
    "congregation", "league", "league", "mutual", "crusade", "syndicate", "sorority", "collaboration"
  ]

  const PREFIX_LIST: seq<string> := ["new ", "old ", "post-", "pre-", "inter-", "extra-"]

  const ADJECTIVE_LIST: seq<string> := ["ancient", "golden", "democratic", "stellar", "eternal",
                                        "traditional", "modern", "utopian"]

  /** The suffix of a government's opinion: every opinion has one. */
  function Suffix(o: Opinion): string
  {
    FACTION_NAME_SUFFIXES[OpinionHash(o)]
  }

  /** The table has one kind per opinion hash, and "league" is the kind of
      hashes 25 and 26. */
  lemma SuffixPerHash()
    ensures |FACTION_NAME_SUFFIXES| == 32
    ensures FACTION_NAME_SUFFIXES[25] == FACTION_NAME_SUFFIXES[26] == "league"
    ensures forall o: Opinion :: 0 <= OpinionHash(o) < |FACTION_NAME_SUFFIXES|
  {
  }

  // ---------------------------------------------------------------------------
  // What a name is made from.

  /** Every pop of every one of the countries has an ancestry. */
  predicate CountriesTagged(ss: seq<Settlement>)
    reads ss
    decreases |ss|
  {
    ss == [] || (CountriesTagged(ss[..|ss| - 1]) && Tagged(ss[|ss| - 1].pops))
  }

  /** Every pop of every country of every member has an ancestry. */
  predicate AllTagged(members: seq<InhabitedPlanet>)
    reads *
    decreases |members|
  {
    members == [] || (AllTagged(members[..|members| - 1]) && CountriesTagged(members[|members| - 1].settlements))
  }

  lemma {:induction false} CountriesTaggedPrefix(ss: seq<Settlement>, k: nat)
    requires k <= |ss| && CountriesTagged(ss)
    ensures CountriesTagged(ss[..k])
    decreases |ss| - k
  {
    if k < |ss| {
      assert ss[..k + 1][..k] == ss[..k];
      assert ss[..|ss|] == ss;
      CountriesTaggedPrefix(ss, k + 1);
    } else {
      assert ss[..k] == ss;
    }
  }

  lemma {:induction false} AllTaggedPrefix(members: seq<InhabitedPlanet>, k: nat)
    requires k <= |members| && AllTagged(members)
    ensures AllTagged(members[..k])
    decreases |members| - k
  {
    if k < |members| {
      assert members[..k + 1][..k] == members[..k];
      AllTaggedPrefix(members, k + 1);
    } else {
      assert members[..k] == members;
    }
  }

  /** The primary ancestry tags of the pops, in order. */
  function Tags(ps: seq<Population>): seq<string>
    requires Tagged(ps)
  {
    seq(|ps|, i requires 0 <= i < |ps| => ps[i].ancestry[0].0)
  }

  /** The nouns the countries offer: each country's name followed by its
      pops' primary tags. */
  function CountryNouns(ss: seq<Settlement>): seq<string>
    reads ss
    requires CountriesTagged(ss)
    decreases |ss|
  {
    if ss == [] then []
    else
      var n := |ss| - 1;
      CountryNouns(ss[..n]) + [ss[n].name] + Tags(ss[n].pops)
  }

  /** The nouns the members offer: each planet's name followed by its
      countries' nouns. */
  function Nouns(members: seq<InhabitedPlanet>): seq<string>
    reads *
    requires AllTagged(members)
    decreases |members|
  {
    if members == [] then []
    else
      var n := |members| - 1;
      Nouns(members[..n]) + [members[n].name] + CountryNouns(members[n].settlements)
  }

  /** The faction kinds the members' countries lean to, one per country. */
  /** The kind a country leans to. */
  function KindOf(s: Settlement): string
    reads s, s.government
  {
    Suffix(s.government.opinion)
  }

  function CountryKinds(ss: seq<Settlement>): seq<string>
    reads ss, set s | s in ss :: s.government
    decreases |ss|
  {
    if ss == [] then [] else CountryKinds(ss[..|ss| - 1]) + [KindOf(ss[|ss| - 1])]
  }

  function Kinds(members: seq<InhabitedPlanet>): seq<string>
    reads *
    decreases |members|
  {
    if members == [] then [] else Kinds(members[..|members| - 1]) + CountryKinds(members[|members| - 1].settlements)
  }

  /** Every country's name is a noun. */
  lemma {:induction false} CountryNounsInclude(ss: seq<Settlement>)
    requires CountriesTagged(ss)
    ensures forall j :: 0 <= j < |ss| ==> ss[j].name in CountryNouns(ss)
    decreases |ss|
  {
    if ss != [] {
      var n := |ss| - 1;
      CountryNounsInclude(ss[..n]);
      assert forall j :: 0 <= j < n ==> ss[j] == ss[..n][j];
    }
  }

  /** Every member planet's name and every country's name is a noun. */
  lemma {:induction false} NounsInclude(members: seq<InhabitedPlanet>)
    requires AllTagged(members)
    ensures forall i :: 0 <= i < |members| ==> members[i].name in Nouns(members)
    ensures forall i, j :: 0 <= i < |members| && 0 <= j < |members[i].settlements| ==>
      members[i].settlements[j].name in Nouns(members)
    decreases |members|
  {
    if members != [] {
      var n := |members| - 1;
      NounsInclude(members[..n]);
      CountryNounsInclude(members[n].settlements);
      assert forall i :: 0 <= i < n ==> members[i] == members[..n][i];
    }
  }

  /** Every country offers the kind its government's opinion gives, one
      per country. */
  lemma {:induction false} CountryKindsInclude(ss: seq<Settlement>)
    ensures |CountryKinds(ss)| == |ss|
    ensures forall j :: 0 <= j < |ss| ==> CountryKinds(ss)[j] == KindOf(ss[j])
    decreases |ss|
  {
    if ss != [] {
      var n := |ss| - 1;
      CountryKindsInclude(ss[..n]);
      assert forall j :: 0 <= j < n ==> ss[j] == ss[..n][j];
    }
  }

  /** Every country of every member offers its kind. */
  lemma {:induction false} KindsInclude(members: seq<InhabitedPlanet>)
    ensures forall i, j :: 0 <= i < |members| && 0 <= j < |members[i].settlements| ==>
      KindOf(members[i].settlements[j]) in Kinds(members)
    decreases |members|
  {
    if members != [] {
      var n := |members| - 1;
      KindsInclude(members[..n]);
      CountryKindsInclude(members[n].settlements);
      assert forall i :: 0 <= i < n ==> members[i] == members[..n][i];
    }
  }

  /** There are no kinds exactly when no member has a country. */
  lemma {:induction false} NoKinds(members: seq<InhabitedPlanet>)
    ensures Kinds(members) == [] <==> forall i :: 0 <= i < |members| ==> members[i].settlements == []
    decreases |members|
  {
    if members != [] {
      var n := |members| - 1;
      NoKinds(members[..n]);
      CountryKindsInclude(members[n].settlements);
      assert forall i :: 0 <= i < n ==> members[i] == members[..n][i];
    }
  }

  // ---------------------------------------------------------------------------
  // The name.

  /** The pieces written one after the other. */
  function Cat(pieces: seq<string>): string
    decreases |pieces|
  {
    if pieces == [] then "" else pieces[0] + Cat(pieces[1..])
  }

  /** The name patterns, as the source lists them: adjacent string literals
      without a comma between them are one string, so of the seven patterns
      the list was evidently meant to hold it holds three, the second and
      third being run-together concatenations. */
  function Templates(prefix: string, noun: string, adjective: string, kind: string): (r: seq<string>)
    ensures |r| == 3
  {
    [ Cat([prefix, noun, " ", kind]),
      Cat([noun, " ", adjective, " ", kind, adjective, " ", kind, " of ", noun]),
      Cat([prefix, adjective, " ", noun, " ", kind, noun, " ", kind, adjective, " ", kind,
           prefix, adjective, " ", kind, prefix, noun]) ]
  }

  /** t occurs in s. */
  ghost predicate Contains(s: string, t: string)
  {
    exists before, after :: s == before + t + after
  }

  /** Every piece occurs in what the pieces make up. */
  lemma {:induction false} CatContains(pieces: seq<string>, x: string)
    requires x in pieces
    ensures Contains(Cat(pieces), x)
    decreases |pieces|
  {
    if pieces[0] == x {
      assert Cat(pieces) == "" + x + Cat(pieces[1..]);
    } else {
      CatContains(pieces[1..], x);
      var before, after :| Cat(pieces[1..]) == before + x + after;
      assert Cat(pieces) == (pieces[0] + before) + x + after;
    }
  }

  /** Every pattern names both the noun and the faction's kind. */
  lemma TemplatesNameFaction(prefix: string, noun: string, adjective: string, kind: string)
    ensures forall s :: s in Templates(prefix, noun, adjective, kind) ==> Contains(s, noun) && Contains(s, kind)
  {
    CatContains([prefix, noun, " ", kind], noun);
    CatContains([prefix, noun, " ", kind], kind);
    CatContains([noun, " ", adjective, " ", kind, adjective, " ", kind, " of ", noun], noun);
    CatContains([noun, " ", adjective, " ", kind, adjective, " ", kind, " of ", noun], kind);
    var third := [prefix, adjective, " ", noun, " ", kind, noun, " ", kind, adjective, " ", kind,
                  prefix, adjective, " ", kind, prefix, noun];
    assert third[3] == noun && third[5] == kind;
    CatContains(third, noun);
    CatContains(third, kind);
  }

  /** A faction: its member colonies and its name. */
  class Faction {
    var members: seq<InhabitedPlanet>
    var name: string

    /** The members are a copy of the founding members. */
    constructor (foundingMembers: seq<InhabitedPlanet>, name: string)
      ensures members == foundingMembers && this.name == name
    {
      members := [] + foundingMembers;
      this.name := name;
    }

    /** generate_name, over the faction's members: the nouns and kinds the
        members offer are gathered in order; reading a pop without an
        ancestry fails; drawing from no nouns or no kinds fails; otherwise
        the name is one of the patterns filled with a drawn noun, kind,
        prefix and adjective. */
    static method GenerateName(members: seq<InhabitedPlanet>) returns (r: Result<string>)
      ensures !AllTagged(members) ==> r == Err(IndexOutOfRange)
      ensures AllTagged(members) ==> (r.Err? <==> Kinds(members) == [])
      ensures AllTagged(members) && r.Err? ==> r.fault == EmptyChoice
      ensures r.Ok? ==> AllTagged(members) && exists prefix, noun, adjective, kind ::
        && r.value in Templates(prefix, noun, adjective, kind)
        && noun in Nouns(members) && kind in Kinds(members)
        && prefix in PREFIX_LIST && adjective in ADJECTIVE_LIST
    {
      var nouns, kinds, tagged := Collect(members);
      if !tagged {
        return Err(IndexOutOfRange);
      }
      if kinds != [] {
        assert members != [];
        assert nouns != [];
      }
      r := Draw(nouns, kinds);
    }

    /** The nouns and kinds all the members offer, in order, or false when
        one of their pops has no ancestry. */
    static method Collect(members: seq<InhabitedPlanet>) returns (nouns: seq<string>, kinds: seq<string>, tagged: bool)
      ensures tagged <==> AllTagged(members)
      ensures tagged ==> nouns == Nouns(members) && kinds == Kinds(members)
    {
      nouns := [];
      kinds := [];
      for i := 0 to |members|
        invariant AllTagged(members[..i])
        invariant nouns == Nouns(members[..i]) && kinds == Kinds(members[..i])
      {
        var more;
        nouns, kinds, more := CollectNext(members, i, nouns, kinds);
        if !more {
          if AllTagged(members) {
            AllTaggedPrefix(members, i + 1);
          }
          return nouns, kinds, false;
        }
      }
      assert members[..|members|] == members;
      tagged := true;
    }

    /** One more member's nouns and kinds. */
    static method CollectNext(members: seq<InhabitedPlanet>, i: nat, nouns: seq<string>, kinds: seq<string>)
      returns (nouns': seq<string>, kinds': seq<string>, tagged: bool)
      requires i < |members| && AllTagged(members[..i])
      requires nouns == Nouns(members[..i]) && kinds == Kinds(members[..i])
      ensures tagged <==> AllTagged(members[..i + 1])
      ensures tagged ==> nouns' == Nouns(members[..i + 1]) && kinds' == Kinds(members[..i + 1])
    {
      var planet := members[i];
      var front := members[..i + 1];
      assert front[..i] == members[..i] && front[i] == planet;
      assert AllTagged(front) == CountriesTagged(planet.settlements);
      assert Kinds(front) == kinds + CountryKinds(planet.settlements);
      assert CountriesTagged(planet.settlements) ==>
        Nouns(front) == nouns + [planet.name] + CountryNouns(planet.settlements);
      var planetNouns, planetKinds, planetTagged := Gather(planet);
      nouns', kinds', tagged := nouns + planetNouns, kinds + planetKinds, planetTagged;
    }

    /** A name drawn from the nouns and kinds: a pattern filled with a drawn
        noun, kind, prefix and adjective; drawing from nothing fails. */
    static method Draw(nouns: seq<string>, kinds: seq<string>) returns (r: Result<string>)
      ensures r.Err? <==> nouns == [] || kinds == []
      ensures r.Err? ==> r.fault == EmptyChoice
      ensures r.Ok? ==> exists prefix, noun, adjective, kind ::
        && r.value in Templates(prefix, noun, adjective, kind)
        && noun in nouns && kind in kinds
        && prefix in PREFIX_LIST && adjective in ADJECTIVE_LIST
    {
      if nouns == [] || kinds == [] {
        return Err(EmptyChoice);
      }
      assert nouns[0] in nouns && kinds[0] in kinds;
      var noun :| noun in nouns;
      var kind :| kind in kinds;
      assert PREFIX_LIST[0] in PREFIX_LIST && ADJECTIVE_LIST[0] in ADJECTIVE_LIST;
      var prefix :| prefix in PREFIX_LIST;
      var adjective :| adjective in ADJECTIVE_LIST;
      assert Templates(prefix, noun, adjective, kind)[0] in Templates(prefix, noun, adjective, kind);
      var name :| name in Templates(prefix, noun, adjective, kind);
      r := Ok(name);
    }

    /** The nouns and kinds one member planet offers, or false when one of
        its pops has no ancestry. */
    static method Gather(planet: InhabitedPlanet) returns (nouns: seq<string>, kinds: seq<string>, tagged: bool)
      ensures tagged <==> CountriesTagged(planet.settlements)
      ensures tagged ==> nouns == [planet.name] + CountryNouns(planet.settlements)
      ensures tagged ==> kinds == CountryKinds(planet.settlements)
    {
      nouns := [planet.name];
      kinds := [];
      var ss := planet.settlements;
      for j := 0 to |ss|
        invariant CountriesTagged(ss[..j])
        invariant nouns == [planet.name] + CountryNouns(ss[..j])
        invariant kinds == CountryKinds(ss[..j])
      {
        var more;
        nouns, kinds, more := GatherNext(planet.name, ss, j, nouns, kinds);
        if !more {
          if CountriesTagged(ss) {
            CountriesTaggedPrefix(ss, j + 1);
          }
          return nouns, kinds, false;
        }
      }
      assert ss[..|ss|] == ss;
      tagged := true;
    }

    /** One more country's nouns and kind. */
    static method GatherNext(planetName: string, ss: seq<Settlement>, j: nat, nouns: seq<string>, kinds: seq<string>)
      returns (nouns': seq<string>, kinds': seq<string>, tagged: bool)
      requires j < |ss| && CountriesTagged(ss[..j])
      requires nouns == [planetName] + CountryNouns(ss[..j]) && kinds == CountryKinds(ss[..j])
      ensures tagged <==> CountriesTagged(ss[..j + 1])
      ensures tagged ==> nouns' == [planetName] + CountryNouns(ss[..j + 1]) && kinds' == CountryKinds(ss[..j + 1])
    {
      var s := ss[j];
      assert ss[..j + 1][..j] == ss[..j];
      var tags, popsTagged := PopTags(s.pops);
      nouns', kinds', tagged := nouns + [s.name] + tags, kinds + [KindOf(s)], popsTagged;
    }

    /** The primary tags of a country's pops, or false at the first pop
        without an ancestry. */
    static method PopTags(ps: seq<Population>) returns (tags: seq<string>, tagged: bool)
      ensures tagged <==> Tagged(ps)
      ensures tagged ==> tags == Tags(ps)
    {
      tags := [];
      for k := 0 to |ps|
        invariant Tagged(ps[..k])
        invariant tags == Tags(ps[..k])
      {
        if |ps[k].ancestry| == 0 {
          return tags, false;
        }
        tags := tags + [ps[k].ancestry[0].0];
      }
      assert ps[..|ps|] == ps;
      tagged := true;
    }

    /** Faction(rng, founding_members): the members are copied and the
        faction names itself. */
    static method Found(foundingMembers: seq<InhabitedPlanet>) returns (r: Result<Faction>)
      ensures r.Ok? ==> fresh(r.value) && r.value.members == foundingMembers
      ensures r.Ok? ==> exists prefix, noun, adjective, kind ::
        && r.value.name in Templates(prefix, noun, adjective, kind)
        && old(AllTagged(foundingMembers)) && noun in old(Nouns(foundingMembers))
        && kind in old(Kinds(foundingMembers)) && prefix in PREFIX_LIST && adjective in ADJECTIVE_LIST
      ensures r.Err? <==> old(!AllTagged(foundingMembers) || Kinds(foundingMembers) == [])
    {
      var name := GenerateName(foundingMembers);
      if name.Err? {
        return Err(name.fault);
      }
      var f := new Faction(foundingMembers, name.value);
      r := Ok(f);
    }
  }
}
