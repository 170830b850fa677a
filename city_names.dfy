/** City names for new settlements: the per-country name pools read from the
    world-cities table, and the draw that takes a name out of its pool so that
    no city name is handed out twice. */
module CityNames {
  import opened Numeric
  import opened Text

  /** Country names of the cities table that the simulation knows by another
      name. */
  const COUNTRY_TRANSLATIONS: map<string, string> := map[
    "Congo (Brazzaville)" := "Republic of the Congo",
    "Congo (Kinshasa)" := "Democratic Republic of the Congo",
    "Gaza Strip" := "Palestine",
    "West Bank" := "Palestine",
    "U.S. Virgin Islands" := "United States Virgin Islands",
    "Bonaire" := "Netherlands",
    "Christmas Island" := "Australia",
    "Kosovo" := "Serbia",
    "Swaziland" := "Eswatini",
    "The Gambia" := "Gambia",
    "The Bahamas" := "Bahamas",
    "Svalbard" := "Norway"
  ]

  /** A country's translation when it has one, else the country itself; the
      result is always a name the table leaves alone. */
  function Translate(country: string): (t: string)
    ensures t == country || country in COUNTRY_TRANSLATIONS
    ensures t !in COUNTRY_TRANSLATIONS
  {
    if country in COUNTRY_TRANSLATIONS then COUNTRY_TRANSLATIONS[country] else country
  }

  lemma TranslateIdempotent(country: string)
    ensures Translate(Translate(country)) == Translate(country)
    ensures country !in COUNTRY_TRANSLATIONS ==> Translate(country) == country
  {
  }

  // ---------------------------------------------------------------------------
  // Cleaning a field.

  predicate Escape(c: char)
  {
    c == '"' || c == '\\'
  }

  /** The field with every double quote and backslash removed. */
  function Strip(s: string): (r: string)
    ensures |r| <= |s|
    ensures forall i :: 0 <= i < |r| ==> !Escape(r[i]) && r[i] in s
  {
    if s == [] then []
    else (if Escape(s[0]) then [] else [s[0]]) + Strip(s[1..])
  }

  /** Stripping keeps every other character, in order. */
  lemma {:induction false} StripAppend(a: string, b: string)
    ensures Strip(a + b) == Strip(a) + Strip(b)
    decreases |a|
  {
    if a == [] {
      assert a + b == b;
    } else {
      assert (a + b)[0] == a[0] && (a + b)[1..] == a[1..] + b;
      StripAppend(a[1..], b);
    }
  }

  /** A field that is already clean is left as it is. */
  lemma {:induction false} StripClean(s: string)
    ensures Strip(s) == s <==> forall i :: 0 <= i < |s| ==> !Escape(s[i])
    decreases |s|
  {
    if s != [] {
      StripClean(s[1..]);
      assert s == [s[0]] + s[1..];
      if Escape(s[0]) {
        assert |Strip(s)| <= |s[1..]| < |s|;
      }
    }
  }

  // ---------------------------------------------------------------------------
  // One line of the cities table.

  datatype Row = Row(city: string, country: string)

  /** The city is the second field and the country the fifth, both cleaned and
      the country translated; a line with fewer than five fields cannot be
      unpacked. */
  function ParseLine(line: string): (r: Option<Row>)
    ensures r.Some? <==> |Split(line, ',')| >= 5
    ensures r.Some? ==> r.value.country !in COUNTRY_TRANSLATIONS
  {
    var fields := Split(line, ',');
    if |fields| < 5 then None
    else Some(Row(Strip(fields[1]), Translate(Strip(fields[4]))))
  }

  /** A line built from clean fields parses back to its second and fifth
      field. */
  lemma ParseLineOfJoin(fields: seq<string>)
    requires |fields| >= 5
    requires forall i :: 0 <= i < |fields| ==> ',' !in fields[i]
    requires forall i, k :: 0 <= i < |fields| && 0 <= k < |fields[i]| ==> !Escape(fields[i][k])
    ensures ParseLine(Join(fields, ',')) == Some(Row(fields[1], Translate(fields[4])))
  {
    SplitJoin(fields, ',');
    StripClean(fields[1]);
    StripClean(fields[4]);
  }

  // ---------------------------------------------------------------------------
  // The pools: a dictionary from country to its list of city names, kept in
  // the order its keys were first inserted.

  type Pools = seq<(string, seq<string>)>

  ghost predicate DistinctKeys(pools: Pools)
  {
    forall i, j :: 0 <= i < j < |pools| ==> pools[i].0 != pools[j].0
  }

  /** The position of key, or |pools| when it is absent. */
  function Find(pools: Pools, key: string): (i: nat)
    ensures i <= |pools|
    ensures i < |pools| ==> pools[i].0 == key
    ensures forall j :: 0 <= j < i ==> pools[j].0 != key
  {
    if pools == [] then 0
    else if pools[0].0 == key then 0
    else 1 + Find(pools[1..], key)
  }

  /** The list a defaultdict(list) holds for key: empty when it is absent. */
  function Lookup(pools: Pools, key: string): seq<string>
  {
    var i := Find(pools, key);
    if i < |pools| then pools[i].1 else []
  }

  /** Looking the key up in a defaultdict inserts an empty list for it at the
      end when it is absent. */
  function Touched(pools: Pools, key: string): (r: Pools)
    ensures r == pools || r == pools + [(key, [])]
    ensures Find(r, key) < |r|
  {
    if Find(pools, key) < |pools| then pools
    else
      var r := pools + [(key, [])];
      assert r[|pools|].0 == key;
      r
  }

  /** cities[country].append(city). */
  function Append(pools: Pools, country: string, city: string): (r: Pools)
  {
    var t := Touched(pools, country);
    var i := Find(t, country);
    t[i := (country, t[i].1 + [city])]
  }

  /** The pools the table's rows build up, one row after the other. */
  function Group(rows: seq<Row>): Pools
  {
    if rows == [] then []
    else
      var last := rows[|rows| - 1];
      Append(Group(rows[..|rows| - 1]), last.country, last.city)
  }

  /** The cities of the rows for country, in table order. */
  function CitiesOf(rows: seq<Row>, country: string): seq<string>
  {
    if rows == [] then []
    else
      var last := rows[|rows| - 1];
      CitiesOf(rows[..|rows| - 1], country) + (if last.country == country then [last.city] else [])
  }

  /** Find gives the first position holding the key. */
  lemma FindFirst(pools: Pools, key: string, i: nat)
    requires i < |pools| && pools[i].0 == key
    requires forall j :: 0 <= j < i ==> pools[j].0 != key
    ensures Find(pools, key) == i
  {
  }

  lemma LookupAt(pools: Pools, key: string, i: nat)
    requires DistinctKeys(pools)
    requires i < |pools| && pools[i].0 == key
    ensures Lookup(pools, key) == pools[i].1
  {
    FindFirst(pools, key, i);
  }

  lemma LookupAbsent(pools: Pools, key: string)
    requires forall j :: 0 <= j < |pools| ==> pools[j].0 != key
    ensures Lookup(pools, key) == []
  {
  }

  lemma TouchedKeys(pools: Pools, key: string)
    requires DistinctKeys(pools)
    ensures DistinctKeys(Touched(pools, key))
    ensures forall k :: Lookup(Touched(pools, key), k) == Lookup(pools, k)
  {
    var t := Touched(pools, key);
    forall k
      ensures Lookup(t, k) == Lookup(pools, k)
    {
      if exists j :: 0 <= j < |pools| && pools[j].0 == k {
        var j :| 0 <= j < |pools| && pools[j].0 == k;
        LookupAt(pools, k, j);
        LookupAt(t, k, j);
      } else if t != pools && k == key {
        LookupAt(t, k, |pools|);
      } else {
        LookupAbsent(t, k);
      }
    }
  }

  lemma AppendLookup(pools: Pools, country: string, city: string)
    requires DistinctKeys(pools)
    ensures DistinctKeys(Append(pools, country, city))
    ensures forall k :: Lookup(Append(pools, country, city), k)
                        == Lookup(pools, k) + (if k == country then [city] else [])
  {
    TouchedKeys(pools, country);
    var t := Touched(pools, country);
    var i := Find(t, country);
    var r := Append(pools, country, city);
    LookupAt(t, country, i);
    forall k
      ensures Lookup(r, k) == Lookup(t, k) + (if k == country then [city] else [])
    {
      if k == country {
        LookupAt(r, k, i);
      } else if exists j :: 0 <= j < |t| && t[j].0 == k {
        var j :| 0 <= j < |t| && t[j].0 == k;
        LookupAt(t, k, j);
        LookupAt(r, k, j);
      } else {
        LookupAbsent(t, k);
        LookupAbsent(r, k);
      }
    }
  }

  /** The grouped pools have one entry per country and hold, for each country,
      exactly its cities in table order. */
  lemma {:induction false} GroupLookup(rows: seq<Row>)
    ensures DistinctKeys(Group(rows))
    ensures forall k :: Lookup(Group(rows), k) == CitiesOf(rows, k)
  {
    if rows != [] {
      var last := rows[|rows| - 1];
      GroupLookup(rows[..|rows| - 1]);
      AppendLookup(Group(rows[..|rows| - 1]), last.country, last.city);
    }
  }

  /** The rows of lines that all parse. */
  function Rows(lines: seq<string>): (rows: seq<Row>)
    requires forall i :: 0 <= i < |lines| ==> |Split(lines[i], ',')| >= 5
    ensures |rows| == |lines|
    ensures forall i :: 0 <= i < |lines| ==> Some(rows[i]) == ParseLine(lines[i])
  {
    seq(|lines|, i requires 0 <= i < |lines| => ParseLine(lines[i]).value)
  }

  /** load_city_list over the lines of the table: every line adds its city to
      its country's pool; the first line with fewer than five fields aborts the
      load. */
  method LoadCityList(lines: seq<string>) returns (r: Result<Pools>)
    ensures r.Ok? <==> forall i :: 0 <= i < |lines| ==> |Split(lines[i], ',')| >= 5
    ensures r.Ok? ==> r.value == Group(Rows(lines))
    ensures r.Err? ==> r.fault == TooFewFields
  {
    var cities: Pools := [];
    var rows: seq<Row> := [];
    for n := 0 to |lines|
      invariant |rows| == n
      invariant forall i :: 0 <= i < n ==> ParseLine(lines[i]) == Some(rows[i])
      invariant cities == Group(rows)
    {
      var parsed := ParseLine(lines[n]);
      if parsed.None? {
        return Err(TooFewFields);
      }
      cities := Append(cities, parsed.value.country, parsed.value.city);
      assert (rows + [parsed.value])[..n] == rows;
      rows := rows + [parsed.value];
    }
    assert rows == Rows(lines);
    r := Ok(cities);
  }

  // ---------------------------------------------------------------------------
  // Drawing names.

  /** Every name held by some pool, with its multiplicity. */
  function Holdings(pools: Pools): multiset<string>
  {
    if pools == [] then multiset{}
    else Holdings(pools[..|pools| - 1]) + multiset(pools[|pools| - 1].1)
  }

  lemma {:induction false} HoldingsUpdate(pools: Pools, i: nat, entry: (string, seq<string>))
    requires i < |pools|
    ensures Holdings(pools[i := entry]) + multiset(pools[i].1) == Holdings(pools) + multiset(entry.1)
    decreases |pools|
  {
    var n := |pools| - 1;
    var updated := pools[i := entry];
    if i < n {
      assert updated[..n] == pools[..n][i := entry];
      assert pools[..n][i] == pools[i] && updated[n] == pools[n];
      HoldingsUpdate(pools[..n], i, entry);
      calc {
        Holdings(updated) + multiset(pools[i].1);
        Holdings(updated[..n]) + multiset(pools[n].1) + multiset(pools[i].1);
        Holdings(pools[..n]) + multiset(entry.1) + multiset(pools[n].1);
        Holdings(pools) + multiset(entry.1);
      }
    } else {
      assert updated[..n] == pools[..n] && updated[n] == entry;
    }
  }

  lemma {:induction false} HoldingsEmpty(pools: Pools)
    ensures Holdings(pools) == multiset{} <==> forall i :: 0 <= i < |pools| ==> pools[i].1 == []
    decreases |pools|
  {
    if pools != [] {
      var n := |pools| - 1;
      HoldingsEmpty(pools[..n]);
      assert forall i :: 0 <= i < n ==> pools[..n][i] == pools[i];
    }
  }

  lemma TouchedHoldings(pools: Pools, key: string)
    ensures Holdings(Touched(pools, key)) == Holdings(pools)
  {
    var t := Touched(pools, key);
    if t != pools {
      assert t[..|t| - 1] == pools;
    }
  }

  /** Names drawn one after another, each taken out of the holdings left by the
      draws before it, never include a name more often than the first holdings
      held it. */
  lemma {:induction false} DrawsBounded(holdings: seq<multiset<string>>, names: seq<string>)
    requires |holdings| == |names| + 1
    requires forall i :: 0 <= i < |names| ==> holdings[i + 1] + multiset{names[i]} == holdings[i]
    ensures multiset(names) + holdings[|names|] == holdings[0]
    ensures multiset(names) <= holdings[0]
    ensures forall name :: multiset(names)[name] <= holdings[0][name]
    decreases |names|
  {
    if names != [] {
      var n := |names| - 1;
      DrawsBounded(holdings[..n + 1], names[..n]);
      assert names == names[..n] + [names[n]];
    }
  }

  /** The positions of the non-empty pools, in order. */
  function NonEmpty(pools: Pools): (r: seq<nat>)
    ensures forall j :: 0 <= j < |r| ==> r[j] < |pools| && pools[r[j]].1 != []
    ensures forall i :: 0 <= i < |pools| && pools[i].1 != [] ==> i in r
  {
    if pools == [] then []
    else
      var n := |pools| - 1;
      assert forall i :: 0 <= i < n ==> pools[..n][i] == pools[i];
      NonEmpty(pools[..n]) + (if pools[n].1 != [] then [n] else [])
  }

  /** Taking one name out of one pool takes it out of the holdings and keeps
      the keys apart. */
  lemma TakeName(pools: Pools, k: nat, name: string)
    requires DistinctKeys(pools)
    requires k < |pools| && name in pools[k].1
    ensures var taken := pools[k := (pools[k].0, RemoveFirst(pools[k].1, name))];
      DistinctKeys(taken) && Holdings(taken) + multiset{name} == Holdings(pools)
  {
    var entry := (pools[k].0, RemoveFirst(pools[k].1, name));
    var taken := pools[k := entry];
    HoldingsUpdate(pools, k, entry);
    var rest := multiset(entry.1);
    assert multiset(pools[k].1) == rest + multiset{name};
    Cancel(Holdings(taken) + multiset{name}, Holdings(pools), rest);
  }

  lemma Cancel<T>(x: multiset<T>, y: multiset<T>, a: multiset<T>)
    requires x + a == y + a
    ensures x == y
  {
    assert forall e :: x[e] == (x + a)[e] - a[e];
  }

  /** The global pools of city names. */
  class CityList {
    var pools: Pools

    ghost predicate Valid()
      reads this
    {
      DistinctKeys(pools)
    }

    constructor (pools: Pools)
      requires DistinctKeys(pools)
      ensures this.pools == pools && Valid()
    {
      this.pools := pools;
    }

    /** get_name: the origin country's pool is looked up (and inserted, empty,
        when the country is unknown); when it is empty, some non-empty pool is
        used instead. A name of the pool used is returned and its first
        occurrence removed; the draw fails only when every pool is empty. */
    method GetName(origin: string) returns (r: Result<string>, ghost used: nat)
      requires Valid()
      modifies this`pools
      ensures Valid()
      ensures Drawn(Touched(old(pools), origin), origin, r, used, pools)
      ensures r.Err? <==> Holdings(old(pools)) == multiset{}
      ensures r.Ok? ==> Holdings(pools) + multiset{r.value} == Holdings(old(pools))
      ensures r.Ok? && Lookup(old(pools), origin) != [] ==> pools[used].0 == origin
    {
      TouchedKeys(pools, origin);
      TouchedHoldings(pools, origin);
      var k;
      r, k, pools := DrawName(Touched(pools, origin), origin);
      used := k;
    }
  }

  /** After the lookup of origin in pools: either the draw failed and nothing
      changed, or the name was in pool used, which is the origin's own pool
      whenever that one was non-empty, and its first occurrence is gone. */
  ghost predicate Drawn(pools: Pools, origin: string, r: Result<string>, used: nat, after: Pools)
  {
    && (r.Err? ==> r.fault == EmptyChoice && after == pools)
    && (r.Ok? ==>
          used < |pools| && r.value in pools[used].1
          && after == pools[used := (pools[used].0, RemoveFirst(pools[used].1, r.value))]
          && (Lookup(pools, origin) != [] ==> pools[used].0 == origin))
  }

  /** The draw of get_name on pools that already hold the origin. */
  method DrawName(pools: Pools, origin: string) returns (r: Result<string>, used: nat, after: Pools)
    requires DistinctKeys(pools) && Find(pools, origin) < |pools|
    ensures DistinctKeys(after)
    ensures Drawn(pools, origin, r, used, after)
    ensures r.Err? <==> Holdings(pools) == multiset{}
    ensures r.Ok? ==> Holdings(after) + multiset{r.value} == Holdings(pools)
  {
    used := Find(pools, origin);
    if pools[used].1 == [] {
      var choices := NonEmpty(pools);
      if choices == [] {
        HoldingsEmpty(pools);
        return Err(EmptyChoice), used, pools;
      }
      assert choices[0] in choices;
      used :| used in choices;
    }
    assert pools[used].1[0] in pools[used].1;
    var name :| name in pools[used].1;
    TakeName(pools, used, name);
    after := pools[used := (pools[used].0, RemoveFirst(pools[used].1, name))];
    r := Ok(name);
  }
}
