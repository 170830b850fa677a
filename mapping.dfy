/** The star catalogue: Sol, built by hand, followed by the catalogue's stars
    whose spectral data the simulation understands, each record normalised
    (its proper name, its spectral class and subclass, its colour). Reading
    the catalogue files and generating the stars' planets are outside the
    model: the records are given, and so is the planet generator. */
module Mapping {
  import opened Numeric
  import opened Text

  datatype Colour = Colour(r: real, g: real, b: real)

  datatype Position = Position(x: real, y: real, z: real)

  /** What a planet is built from: its mass, day length in hours, orbital
      radius, whether it is solid, and the greenhouse factor passed to it. */
  datatype PlanetSpec = PlanetSpec(mass: real, dayLength: real, orbitalRadius: real, solid: bool, greenhouseFactor: int)

  /** What a star is built from. */
  datatype StarData = StarData(name: string, position: Position, spectralType: string, spectralSubtype: string,
                               colour: Colour, luminosity: real)

  /** A star and its planets. */
  datatype Star = Star(data: StarData, planets: seq<PlanetSpec>)

  /** The colour of a record that gives none. */
  const WHITE := Colour(1.0, 1.0, 1.0)

  // ---------------------------------------------------------------------------
  // Sol.

  const SOL := StarData("Sol", Position(0.0, 0.0, 0.0), "G", "2", WHITE, 1.0)

  /** The planets of the solar system, innermost first. */
  const SOL_PLANETS: seq<PlanetSpec> := [
    PlanetSpec(0.055, 88.0 * 24.0, 0.4, true, 0),
    PlanetSpec(0.815, 243.0 * 24.0, 0.72, true, 0),
    PlanetSpec(1.0, 24.0, 1.0, true, 32),
    PlanetSpec(0.107, 24.5, 1.45, true, 0),
    PlanetSpec(317.0, 10.0, 5.2, false, 0),
    PlanetSpec(95.0, 10.5, 9.5, false, 0),
    PlanetSpec(14.5, 17.4, 19.1, false, 0),
    PlanetSpec(17.0, 16.0, 30.0, false, 0)
  ]

  /** generate_sol: a white G2 star of luminosity 1 at the origin whose
      generated planets are replaced by the eight of the solar system: four
      solid ones inside four gas giants, each orbit wider than the last. */
  function GenerateSol(): (sol: Star)
    ensures sol.data.name == "Sol" && sol.data.spectralType == "G" && sol.data.spectralSubtype == "2"
    ensures |sol.planets| == 8
    ensures forall i :: 0 <= i < 8 ==> (sol.planets[i].solid <==> i < 4)
    ensures forall i, j :: 0 <= i < j < 8 ==> sol.planets[i].orbitalRadius < sol.planets[j].orbitalRadius
  {
    Star(SOL, SOL_PLANETS)
  }

  // ---------------------------------------------------------------------------
  // The star's name.

  const NAME_PREFIX := "NAME "

  predicate StartsWith(s: string, prefix: string)
  {
    |prefix| <= |s| && s[..|prefix|] == prefix
  }

  /** The proper names among a star's catalogue names: each "NAME "-prefixed
      entry with the five-character prefix cut off, in order. */
  function ProperNames(names: seq<string>): seq<string>
    decreases |names|
  {
    if names == [] then []
    else (if StartsWith(names[0], NAME_PREFIX) then [names[0][5..]] else []) + ProperNames(names[1..])
  }

  /** A proper name is exactly what follows "NAME " in some catalogue name. */
  lemma {:induction false} ProperNamesMembers(names: seq<string>, n: string)
    ensures n in ProperNames(names) <==> NAME_PREFIX + n in names
    decreases |names|
  {
    if names != [] {
      ProperNamesMembers(names[1..], n);
      var m := names[0];
      if StartsWith(m, NAME_PREFIX) {
        assert m == NAME_PREFIX + m[5..];
      }
      if m == NAME_PREFIX + n {
        assert m[..5] == NAME_PREFIX && m[5..] == n;
      }
      assert names == [m] + names[1..];
    }
  }

  /** min(xs, key=len): a shortest element. */
  function Shortest(xs: seq<string>): (r: string)
    requires xs != []
    ensures r in xs
    ensures forall i :: 0 <= i < |xs| ==> |r| <= |xs[i]|
    decreases |xs|
  {
    if |xs| == 1 then xs[0]
    else
      var rest := Shortest(xs[1..]);
      assert forall i :: 1 <= i < |xs| ==> xs[i] == xs[1..][i - 1];
      if |rest| < |xs[0]| then rest else xs[0]
  }

  /** Of several shortest elements, min takes the first: everything before
      the one chosen is strictly longer. */
  lemma {:induction false} ShortestIsFirst(xs: seq<string>)
    requires xs != []
    ensures forall i :: 0 <= i < FirstIndex(xs, Shortest(xs)) ==> |xs[i]| > |Shortest(xs)|
    decreases |xs|
  {
    if |xs| > 1 {
      var rest := Shortest(xs[1..]);
      if |rest| < |xs[0]| {
        ShortestIsFirst(xs[1..]);
        assert xs[0] != rest;
        assert FirstIndex(xs, rest) == 1 + FirstIndex(xs[1..], rest);
        forall i | 1 <= i < FirstIndex(xs, rest)
          ensures |xs[i]| > |rest|
        {
          assert xs[i] == xs[1..][i - 1];
        }
      }
    }
  }

  /** The star's name: the shortest proper name, the first of equally short
      ones, or else the record's own name. */
  function StarName(names: seq<string>, fallback: string): string
  {
    var proper := ProperNames(names);
    if proper != [] then Shortest(proper) else fallback
  }

  /** Without a "NAME " entry the record's name is used; otherwise the name is
      what follows "NAME " in some entry, no other such entry gives a
      shorter name, and the entries giving one as short come later. */
  lemma StarNameChoice(names: seq<string>, fallback: string)
    ensures (forall n :: NAME_PREFIX + n !in names) ==> StarName(names, fallback) == fallback
    ensures (exists n :: NAME_PREFIX + n in names) ==>
      var name := StarName(names, fallback);
      var proper := ProperNames(names);
      && NAME_PREFIX + name in names
      && (forall n :: NAME_PREFIX + n in names ==> |name| <= |n|)
      && name in proper
      && (forall i :: 0 <= i < FirstIndex(proper, name) ==> |proper[i]| > |name|)
  {
    var proper := ProperNames(names);
    if proper != [] {
      var name := Shortest(proper);
      ProperNamesMembers(names, name);
      ShortestIsFirst(proper);
      forall n | NAME_PREFIX + n in names
        ensures |name| <= |n|
      {
        ProperNamesMembers(names, n);
      }
    } else {
      forall n
        ensures NAME_PREFIX + n !in names
      {
        ProperNamesMembers(names, n);
      }
    }
  }

  // ---------------------------------------------------------------------------
  // Spectral class and subclass.

  /** The last sep-separated field: split(sep)[-1]. */
  function LastField(s: string, sep: char): string
  {
    var fields := Split(s, sep);
    fields[|fields| - 1]
  }

  /** The last field is the part of s after its last sep (all of s when
      there is none). */
  lemma LastFieldSuffix(s: string, sep: char)
    ensures var f := LastField(s, sep);
      && |f| <= |s| && s[|s| - |f|..] == f && sep !in f
      && (|f| < |s| ==> s[|s| - |f| - 1] == sep)
  {
    LastFieldEnds(s, sep);
    LastFieldAfterSep(s, sep);
  }

  /** The last field ends s. */
  lemma {:induction false} LastFieldEnds(s: string, sep: char)
    ensures var f := LastField(s, sep);
      |f| <= |s| && s[|s| - |f|..] == f
    decreases |s|
  {
    if s != [] {
      var t := s[1..];
      LastFieldStep(s, sep);
      if s[0] == sep || sep in t {
        LastFieldEnds(t, sep);
        var g := LastField(t, sep);
        assert t[|t| - |g|..] == s[|s| - |g|..];
      }
    }
  }

  /** Before a last field shorter than s comes a sep. */
  lemma {:induction false} LastFieldAfterSep(s: string, sep: char)
    ensures var f := LastField(s, sep);
      |f| < |s| ==> s[|s| - |f| - 1] == sep
    decreases |s|
  {
    if s != [] {
      var t := s[1..];
      LastFieldStep(s, sep);
      if s[0] == sep || sep in t {
        LastFieldEnds(t, sep);
        LastFieldAfterSep(t, sep);
        var g := LastField(t, sep);
        if |g| < |t| {
          assert t[|t| - |g| - 1] == s[|s| - |g| - 1];
        }
      }
    }
  }

  /** The last field of s is all of s when sep occurs nowhere in it, and
      otherwise the last field of its tail. */
  lemma LastFieldStep(s: string, sep: char)
    requires s != []
    ensures LastField(s, sep) == if s[0] != sep && sep !in s[1..] then s else LastField(s[1..], sep)
  {
    var t := s[1..];
    if s[0] != sep {
      if sep in t {
        SplitMany(t, sep);
      } else {
        SplitSingle(t, sep);
        assert [s[0]] + t == s;
      }
    }
  }

  /** A string holding sep splits into at least two fields. */
  lemma {:induction false} SplitMany(s: string, sep: char)
    requires sep in s
    ensures |Split(s, sep)| > 1
    decreases |s|
  {
    if s[0] != sep {
      assert s == [s[0]] + s[1..];
      SplitMany(s[1..], sep);
    }
  }

  /** The first field is the part of s before its first sep (all of s when
      there is none). */
  lemma {:induction false} FirstFieldPrefix(s: string, sep: char)
    ensures var f := Split(s, sep)[0];
      && |f| <= |s| && s[..|f|] == f && sep !in f
      && (|f| < |s| ==> s[|f|] == sep)
    decreases |s|
  {
    if s != [] && s[0] != sep {
      FirstFieldPrefix(s[1..], sep);
    }
  }

  /** The spectral classes the simulation knows. */
  const CLASSES: seq<string> := ["O", "B", "A", "F", "G", "K", "M"]

  /** A class written with a "/" is reduced to what follows the last "/". */
  function SpectralClass(c: string): string
  {
    if '/' in c then LastField(c, '/') else c
  }

  lemma SpectralClassLastSegment(c: string)
    ensures var r := SpectralClass(c);
      && '/' !in r && |r| <= |c| && c[|c| - |r|..] == r
      && ('/' in c ==> |r| < |c| && c[|c| - |r| - 1] == '/')
  {
    LastFieldSuffix(c, '/');
    if '/' in c {
      LastFieldShorter(c, '/');
    }
  }

  /** A string holding sep is longer than its last field. */
  lemma LastFieldShorter(s: string, sep: char)
    requires sep in s
    ensures |LastField(s, sep)| < |s|
  {
    LastFieldStep(s, sep);
    LastFieldSuffix(s[1..], sep);
  }

  /** The subclass: "5" when missing or empty, then cut at the first "/" and
      then at the first "-". */
  function Subclass(given: Option<string>): string
  {
    var s := if given.None? || given.value == "" then "5" else given.value;
    var slashless := if '/' in s then Split(s, '/')[0] else s;
    if '-' in slashless then Split(slashless, '-')[0] else slashless
  }

  /** The subclass is the longest prefix of the given (or default) one that
      holds neither "/" nor "-". */
  lemma SubclassPrefix(given: Option<string>)
    ensures var s := if given.None? || given.value == "" then "5" else given.value;
      var r := Subclass(given);
      && |r| <= |s| && s[..|r|] == r && '/' !in r && '-' !in r
      && (|r| < |s| ==> s[|r|] == '/' || s[|r|] == '-')
  {
    var s := if given.None? || given.value == "" then "5" else given.value;
    FirstFieldPrefix(s, '/');
    var slashless := if '/' in s then Split(s, '/')[0] else s;
    FirstFieldPrefix(slashless, '-');
    var r := Subclass(given);
    if '-' in slashless {
      assert '/' !in r by {
        assert forall i :: 0 <= i < |r| ==> r[i] == slashless[i];
      }
    }
    if |r| < |s| {
      if |r| < |slashless| {
        assert s[|r|] == slashless[|r|];
      }
    }
  }

  /** What float() accepts of a subclass here: an optional sign, then
      digits with at most one decimal point, and at least one digit. */
  predicate IsDecimal(s: string)
  {
    var body := if |s| > 0 && (s[0] == '+' || s[0] == '-') then s[1..] else s;
    && (exists i :: 0 <= i < |body| && IsDigit(body[i]))
    && (forall i :: 0 <= i < |body| ==> IsDigit(body[i]) || body[i] == '.')
    && Count(body, '.') <= 1
  }

  // ---------------------------------------------------------------------------
  // One record.

  /** A record of the positional catalogue: its id, position, colour if
      given, name and luminosity. */
  datatype Entry = Entry(id: int, position: Position, colour: Option<Colour>, name: string, luminosity: real)

  /** A record of the spectral catalogue: the class and, if given, the
      subclass. */
  datatype Spectral = Spectral(spectralClass: string, subclass: Option<string>)

  function ColourOf(e: Entry): Colour
  {
    if e.colour.Some? then e.colour.value else WHITE
  }

  /** The star a record describes, or None when it is skipped. A record
      absent from the name or the spectral catalogue is a KeyError; one
      whose class is not O, B, A, F, G, K or M, or whose subclass is not a
      number, is skipped. */
  function Normalise(e: Entry, names: map<int, seq<string>>, spectral: map<int, Spectral>): (r: Result<Option<StarData>>)
    ensures r.Ok? <==> e.id in names && e.id in spectral
    ensures r.Err? ==> r.fault == MissingKey
    ensures r.Ok? ==>
      var cls := SpectralClass(spectral[e.id].spectralClass);
      var sub := Subclass(spectral[e.id].subclass);
      (r.value.Some? <==> cls in CLASSES && IsDecimal(sub))
    ensures r.Ok? && r.value.Some? ==>
      var d := r.value.value;
      && d.name == StarName(names[e.id], e.name)
      && d.spectralType == SpectralClass(spectral[e.id].spectralClass)
      && d.spectralSubtype == Subclass(spectral[e.id].subclass)
      && d.position == e.position && d.luminosity == e.luminosity
      && (e.colour.None? ==> d.colour == WHITE) && (e.colour.Some? ==> d.colour == e.colour.value)
  {
    if e.id !in names then Err(MissingKey)
    else
      var name := StarName(names[e.id], e.name);
      if e.id !in spectral then Err(MissingKey)
      else
        var cls := SpectralClass(spectral[e.id].spectralClass);
        if cls !in CLASSES then Ok(None)
        else
          var sub := Subclass(spectral[e.id].subclass);
          if !IsDecimal(sub) then Ok(None)
          else Ok(Some(StarData(name, e.position, cls, sub, ColourOf(e), e.luminosity)))
  }

  // ---------------------------------------------------------------------------
  // The catalogue.

  /** The stars the records give, in record order; the first missing lookup
      aborts. Each star's planets come from the generator. */
  function Catalogue(entries: seq<Entry>, names: map<int, seq<string>>, spectral: map<int, Spectral>,
                     generate: StarData -> seq<PlanetSpec>): Result<seq<Star>>
    decreases |entries|
  {
    if entries == [] then Ok([])
    else
      var n := |entries| - 1;
      var front := Catalogue(entries[..n], names, spectral, generate);
      if front.Err? then front
      else
        var one := Normalise(entries[n], names, spectral);
        if one.Err? then Err(one.fault)
        else if one.value.None? then front
        else Ok(front.value + [Star(one.value.value, generate(one.value.value))])
  }

  /** A star the catalogue is built from: of a known class, with a numeric
      subclass, neither holding a separator. */
  predicate Classified(d: StarData)
  {
    && d.spectralType in CLASSES && IsDecimal(d.spectralSubtype)
    && '/' !in d.spectralSubtype && '-' !in d.spectralSubtype
  }

  /** The catalogue fails exactly when some record is missing from the name
      or the spectral catalogue, and otherwise holds only classified stars. */
  lemma CatalogueShape(entries: seq<Entry>, names: map<int, seq<string>>,
                       spectral: map<int, Spectral>, generate: StarData -> seq<PlanetSpec>)
    ensures var c := Catalogue(entries, names, spectral, generate);
      && (c.Ok? <==> forall i :: 0 <= i < |entries| ==> entries[i].id in names && entries[i].id in spectral)
      && (c.Err? ==> c.fault == MissingKey)
      && (c.Ok? ==> |c.value| <= |entries| && forall k :: 0 <= k < |c.value| ==> Classified(c.value[k].data))
  {
    CatalogueFails(entries, names, spectral, generate);
    CatalogueClassified(entries, names, spectral, generate);
  }

  /** The catalogue fails, with a KeyError, exactly when some record is
      missing from one of the two lookups. */
  lemma {:induction false} CatalogueFails(entries: seq<Entry>, names: map<int, seq<string>>,
                                          spectral: map<int, Spectral>, generate: StarData -> seq<PlanetSpec>)
    ensures var c := Catalogue(entries, names, spectral, generate);
      && (c.Ok? <==> forall i :: 0 <= i < |entries| ==> Known(entries[i], names, spectral))
      && (c.Err? ==> c.fault == MissingKey)
    decreases |entries|
  {
    if entries != [] {
      var n := |entries| - 1;
      var front := entries[..n];
      var c := Catalogue(entries, names, spectral, generate);
      var f := Catalogue(front, names, spectral, generate);
      var one := Normalise(entries[n], names, spectral);
      CatalogueFails(front, names, spectral, generate);
      assert c.Ok? <==> f.Ok? && one.Ok?;
      assert c.Err? ==> (f.Err? && c == f) || (one.Err? && c.fault == one.fault);
      KnownSplit(entries, names, spectral);
    }
  }

  /** Every record is known exactly when all but the last are and the last
      is. */
  lemma KnownSplit(entries: seq<Entry>, names: map<int, seq<string>>, spectral: map<int, Spectral>)
    requires entries != []
    ensures var n := |entries| - 1;
      (forall i :: 0 <= i < |entries| ==> Known(entries[i], names, spectral))
      <==> (forall i :: 0 <= i < n ==> Known(entries[..n][i], names, spectral)) && Known(entries[n], names, spectral)
  {
    var n := |entries| - 1;
    if forall i :: 0 <= i < n ==> Known(entries[..n][i], names, spectral) {
      forall i | 0 <= i < n
        ensures Known(entries[i], names, spectral)
      {
        assert entries[..n][i] == entries[i];
      }
    }
  }

  /** A record present in both lookups. */
  predicate Known(e: Entry, names: map<int, seq<string>>, spectral: map<int, Spectral>)
  {
    e.id in names && e.id in spectral
  }

  /** A catalogue that does not fail holds at most one star per record, each
      of them classified. */
  lemma {:induction false} CatalogueClassified(entries: seq<Entry>, names: map<int, seq<string>>,
                                               spectral: map<int, Spectral>, generate: StarData -> seq<PlanetSpec>)
    ensures var c := Catalogue(entries, names, spectral, generate);
      c.Ok? ==> |c.value| <= |entries| && forall k :: 0 <= k < |c.value| ==> Classified(c.value[k].data)
    decreases |entries|
  {
    if entries != [] {
      var n := |entries| - 1;
      var front := Catalogue(entries[..n], names, spectral, generate);
      CatalogueClassified(entries[..n], names, spectral, generate);
      var one := Normalise(entries[n], names, spectral);
      if front.Ok? && one.Ok? && one.value.Some? {
        NormalisedClassified(entries[n], names, spectral);
        var star := Star(one.value.value, generate(one.value.value));
        assert Catalogue(entries, names, spectral, generate) == Ok(front.value + [star]);
      }
    }
  }

  /** A record that is not skipped gives a classified star. */
  lemma NormalisedClassified(e: Entry, names: map<int, seq<string>>, spectral: map<int, Spectral>)
    requires Normalise(e, names, spectral).Ok? && Normalise(e, names, spectral).value.Some?
    ensures Classified(Normalise(e, names, spectral).value.value)
  {
    SubclassPrefix(spectral[e.id].subclass);
  }

  /** load_stellar_catalogue, once the three files are read: Sol, then one
      star for each record that is not skipped, in record order. */
  method LoadStellarCatalogue(entries: seq<Entry>, names: map<int, seq<string>>, spectral: map<int, Spectral>,
                              generate: StarData -> seq<PlanetSpec>)
    returns (r: Result<seq<Star>>)
    ensures var c := Catalogue(entries, names, spectral, generate);
      && (c.Err? ==> r == Err(c.fault))
      && (c.Ok? ==> r == Ok([GenerateSol()] + c.value))
  {
    var stars := [GenerateSol()];
    for i := 0 to |entries|
      invariant Catalogue(entries[..i], names, spectral, generate).Ok?
      invariant stars == [GenerateSol()] + Catalogue(entries[..i], names, spectral, generate).value
    {
      assert entries[..i + 1][..i] == entries[..i];
      var one := Normalise(entries[i], names, spectral);
      if one.Err? {
        CatalogueStops(entries, i + 1, names, spectral, generate);
        return Err(one.fault);
      }
      if one.value.Some? {
        var d := one.value.value;
        stars := stars + [Star(d, generate(d))];
      }
    }
    assert entries[..|entries|] == entries;
    r := Ok(stars);
  }

  /** Once a prefix of the records fails, so does the catalogue, with the
      same fault. */
  lemma {:induction false} CatalogueStops(entries: seq<Entry>, i: nat, names: map<int, seq<string>>,
                                          spectral: map<int, Spectral>, generate: StarData -> seq<PlanetSpec>)
    requires i <= |entries| && Catalogue(entries[..i], names, spectral, generate).Err?
    ensures Catalogue(entries, names, spectral, generate) == Catalogue(entries[..i], names, spectral, generate)
    decreases |entries| - i
  {
    if i < |entries| {
      assert entries[..i + 1][..i] == entries[..i];
      CatalogueStops(entries, i + 1, names, spectral, generate);
    } else {
      assert entries[..i] == entries;
    }
  }

  /** The catalogue always starts with Sol and its eight planets, and every
      other star is classified. */
  lemma CatalogueStartsWithSol(entries: seq<Entry>, names: map<int, seq<string>>,
                               spectral: map<int, Spectral>, generate: StarData -> seq<PlanetSpec>)
    requires Catalogue(entries, names, spectral, generate).Ok?
    ensures var stars := [GenerateSol()] + Catalogue(entries, names, spectral, generate).value;
      && stars[0].data.name == "Sol" && |stars[0].planets| == 8
      && forall k :: 1 <= k < |stars| ==> Classified(stars[k].data)
  {
    CatalogueShape(entries, names, spectral, generate);
  }
}
