# destiny, the civilisation core, in Dafny

destiny simulates the spread of humanity from Earth through the nearby stars,
year by year. This project models the simulation's sociology and the
bookkeeping around it:

- **Numeric** (`numeric.dfy`): shared helpers. Rounding as Python rounds
  (half to even), clamping, filters, `Counter.most_common`, and the fault
  kinds Python raises (empty `choice`, index and key errors, division by zero).
- **Text** (`text.dfy`): `str.split` and `int()` on numerals.
- **CityNames** (`city_names.py`): the per-line field extraction of
  `load_city_list`, and `get_name` drawing from a shared pool without repeats.
- **Politics** (`government.py`, pure part): the 5-bit opinion hash and
  philosophy table, `suitable_for`, `council_size`, `average_opinion`, the
  `preferred_government` tree, and the overthrow and drift decision procedures.
- **Populations** (`pop.py`): the `Population` class, with the happiness
  clamp, `births_and_deaths` with its 20-slot children buffer, and
  `merge_small_pops`.
- **Generations** (`pop.py`): `form_next_generation`.
- **Life** (`utils/life.py`): `process_births_and_deaths`. It ages every pop,
  forms new generations from shuffled batches, then merges or drops small and
  empty pops.
- **Elections** (`government.py`): the ranked elections of the representative
  governments.
- **Governments** (`government.py`): the `Government` class with council
  maintenance for the dictatorship, autocracy and both democracies,
  `establish_new_government` and `govern`.
- **Settlements** (`settlement.py`): `for_pops`, `population` and
  `process_year`. The year runs demography, governs, splits pops into stayers
  and movers, and splits effort between science and manufacturing.
- **Science** (`science.py`): the technology tree as linked `ScienceNode`
  objects, and its shape and acyclicity.
- **Shipyard** (`starships.py`, pure part): ship range, travel times,
  `construct_from_available_technologies`, and ship-name recycling.
- **Colonies** (`starships.py`, `inhabitedplanet.py`): `Starship` (travel,
  transit, offload, settle) and `InhabitedPlanet` (science upgrades, ship
  building).
- **Migration** (`inhabitedplanet.py`): `migrate_pops`. Unhappy pops move
  within the planet, leave on colony and settler ships, or found a new state
  or return home.
- **Factions** (`faction.py`): the suffix table and `generate_name`.
- **Mapping** (`cartography/mapping.py`): `generate_sol`, and the record
  normalisation of `load_stellar_catalogue`.
- **Serialisation** (`serialisation.py`): planet and system records, and the
  trade-route frequency aggregation.

Objects the source updates in place are Dafny classes: `Population`,
`Government`, `Settlement`, `Starship`, `InhabitedPlanet`, `ScienceNode` and
`CityList`. Loops that update state are methods, proved against specification
functions. Every random draw (`choice`, `sample`, `random`, `uniform`,
`randint`, `shuffle`) is either a nondeterministic pick from the values it
could return or an argument constrained to its range. Python's `float` is an
exact `real`. Integers are unbounded, as in Python. Failures Python would
raise (an empty `choice`, a missing key, a bad index, a division by zero)
come back as `Fault` values rather than preconditions, wherever a caller can
reach them.

## Model

| member | source | states |
|---|---|---|
| Numeric.Clamp | destiny/sociology/pop.py:81 | max(lo, min(hi, x)) lies in [lo, hi], is x inside the range and the nearer bound outside it |
| Numeric.Floor | destiny/sociology/pop.py:128-134 | math.floor: the greatest integer not above x |
| Numeric.Ceil | destiny/sociology/pop.py:134 | math.ceil: the least integer not below x |
| Numeric.RoundHalfEven | destiny/sociology/pop.py:341-345 | Python's round(): within one half of x, and even when x is exactly halfway |
| Numeric.RoundUnit | destiny/sociology/government.py:36-40 | on a trait in [0, 1], round() gives 1 exactly when the trait is above one half |
| Numeric.RoundFractionBounds | destiny/sociology/settlement.py:84-86 | rounding a fraction in [0, 1] of a non-negative effort stays within [0, effort] |
| Numeric.Dedup | destiny/sociology/inhabitedplanet.py:66-70 | every element appears exactly once, each an element of the input, none lost |
| Numeric.DedupSnoc | destiny/sociology/inhabitedplanet.py:69-70 | appending an element extends the options unless it is already among them |
| Numeric.DedupOrder | destiny/sociology/inhabitedplanet.py:66-70 | the options are listed in order of first occurrence |
| Numeric.Filter | destiny/sociology/inhabitedplanet.py:163-169 | the accepted elements, each one of the input |
| Numeric.Reject | destiny/sociology/inhabitedplanet.py:163-169 | the refused elements, each one of the input |
| Numeric.FilterRejectSplit | destiny/sociology/inhabitedplanet.py:163-169 | accepted and refused elements together are the input as a multiset |
| Numeric.RemoveFirstAccepted | destiny/sociology/inhabitedplanet.py:226 | list.remove of the first accepted element drops it from the accepted ones and leaves the refused ones alone |
| Numeric.Sample | destiny/sociology/government.py:198 | rng.sample: k elements of the input drawn at distinct positions |
| Numeric.RemoveFirst | destiny/sociology/utils/city_names.py:44 | list.remove: one element shorter, the multiset loses exactly one copy of x |
| Numeric.Tally | destiny/sociology/settlement.py:32-37 | the Counter: one entry per distinct key, in order of first appearance, holding the key's total weight |
| Numeric.FirstMaxIndex | destiny/sociology/government.py:299-301 | max with a key: an entry of largest weight, the first such |
| Numeric.MostCommon | destiny/sociology/government.py:350 | Counter.most_common(n): min(n, size) entries, led by the first maximum; the order of the rest is stated by Numeric.MostCommonDescending and Numeric.MostCommonTiesInOrder |
| Numeric.MostCommonDraws | destiny/sociology/government.py:350 | most_common takes counter entries, each at most once |
| Numeric.MostCommonLargest | destiny/sociology/government.py:350 | an entry left out weighs no more than any entry taken |
| Numeric.MostCommonFrom | destiny/sociology/government.py:350 | every entry taken is an entry of the counter |
| Numeric.MostCommonDescending | destiny/sociology/government.py:350 | most_common lists its entries in descending count |
| Numeric.MostCommonTiesInOrder | destiny/sociology/government.py:350 | on a counter with distinct entries, entries of equal count come in the order they appear in the counter |
| Numeric.CounterMostCommonOrder | destiny/sociology/pop.py:320 | on a tallied Counter, most_common(n) is in descending count with equal counts in first-added key order, which fixes who takes the last council seats and the order of the secondary ancestry tags |
| Numeric.TallyLeader | destiny/sociology/settlement.py:40-43 | most_common(1)[0][0] names a key whose total weight is at least every key's, and no key of equal weight appears earlier |
| Numeric.Side | destiny/sociology/settlement.py:66-73 | the pops whose flag is the given side, in order |
| Numeric.SidesCover | destiny/sociology/settlement.py:66-73 | the two sides together are the pops as a multiset |
| Numeric.SideMembers | destiny/sociology/settlement.py:68-73 | a pop is on a side exactly when its flag says so |
| Numeric.SumRealBounds | destiny/sociology/government.py:152-165 | a sum of values in [lo, hi] lies between n*lo and n*hi |
| Numeric.MeanBounds | destiny/sociology/government.py:152-165 | the mean of values in [lo, hi] lies in [lo, hi] |
| CityNames.Translate | destiny/sociology/utils/city_names.py:5-18 | the translated country is either the country itself or a key of the translation table, and never a key of the table |
| CityNames.TranslateIdempotent | destiny/sociology/utils/city_names.py:29 | translating twice is translating once; a country outside the table is left as it is |
| CityNames.Strip | destiny/sociology/utils/city_names.py:27-28 | the cleaned field is no longer than the raw one and holds no double quote or backslash, only characters of the raw field |
| CityNames.StripAppend | destiny/sociology/utils/city_names.py:27-28 | cleaning distributes over concatenation, so every other character is kept in order |
| CityNames.StripClean | destiny/sociology/utils/city_names.py:27-28 | cleaning leaves a field unchanged exactly when it holds no quote or backslash |
| CityNames.ParseLine | destiny/sociology/utils/city_names.py:26-29 | a line unpacks exactly when it has at least five comma-separated fields; the parsed country is always a translated one |
| CityNames.ParseLineOfJoin | destiny/sociology/utils/city_names.py:26-29 | a line joined from clean fields parses back to its second field and its translated fifth field |
| CityNames.Find | destiny/sociology/utils/city_names.py:38 | the lookup position holds the key, or is the end when no earlier entry holds it |
| CityNames.Touched | destiny/sociology/utils/city_names.py:38 | indexing the defaultdict leaves it alone or appends an empty pool for the key, after which the key is present |
| CityNames.TouchedKeys | destiny/sociology/utils/city_names.py:38 | indexing the defaultdict keeps keys distinct and changes no country's pool |
| CityNames.AppendLookup | destiny/sociology/utils/city_names.py:30 | appending a city adds it to the end of its country's pool only, keeping keys distinct |
| CityNames.GroupLookup | destiny/sociology/utils/city_names.py:21-31 | the grouped table has one pool per country, holding exactly that country's cities in file order |
| CityNames.Rows | destiny/sociology/utils/city_names.py:24-29 | one parsed row per line, each the parse of its line |
| CityNames.LoadCityList | destiny/sociology/utils/city_names.py:21-31 | the load succeeds exactly when every line has five fields, and then equals the grouped table; otherwise it fails with the unpacking error |
| CityNames.TouchedHoldings | destiny/sociology/utils/city_names.py:38 | indexing the defaultdict adds no name to the pools |
| CityNames.DrawsBounded | destiny/sociology/utils/city_names.py:43-44 | names drawn one after another, each removed from the pools, are a sub-multiset of the original pools: no name is handed out more often than the table holds it |
| CityNames.NonEmpty | destiny/sociology/utils/city_names.py:41 | the fallback candidates are exactly the positions of the non-empty pools |
| CityNames.TakeName | destiny/sociology/utils/city_names.py:43-44 | removing a drawn name from one pool removes exactly that name from the holdings and keeps the keys distinct |
| CityNames.CityList.GetName | destiny/sociology/utils/city_names.py:37-45 | the origin's pool is used when non-empty, else some non-empty pool; the drawn name leaves the pools; the draw fails exactly when every pool is empty |
| CityNames.DrawName | destiny/sociology/utils/city_names.py:40-45 | the draw on pools already holding the origin: fails exactly when all pools are empty, otherwise removes exactly the returned name |
| Text.Split | destiny/sociology/utils/city_names.py:26 | str.split gives at least one field and no field holds the separator |
| Text.JoinSplit | destiny/sociology/utils/city_names.py:26 | joining the fields again gives the original line back |
| Text.SplitJoin | destiny/sociology/inhabitedplanet.py:92-98 | fields free of the separator survive a join and a split unchanged |
| Text.Digits | destiny/sociology/inhabitedplanet.py:98 | str(n) is a decimal numeral |
| Text.ParseNat | destiny/sociology/inhabitedplanet.py:95 | int(s) succeeds exactly on decimal numerals |
| Text.ParseDigits | destiny/sociology/inhabitedplanet.py:95-98 | reading back a written number gives the number |
| Politics.HashBits | destiny/sociology/government.py:35-41 | five bits shifted into place give a hash below 32 whose bits are exactly those five |
| Politics.OpinionHash | destiny/sociology/government.py:33-41 | the opinion hash is below 32 |
| Politics.OpinionHashRounds | destiny/sociology/government.py:35-41 | the hash is the sum of the five rounded axes shifted by 0 to 4 places, round() being half-to-even |
| Politics.HashBitsOfOpinion | destiny/sociology/pop.py:338-346 | bit i of the hash says whether axis i is above one half |
| Politics.SameHashIff | destiny/sociology/pop.py:338-346 | two opinions share a hash exactly when they lie on the same side of one half on every axis |
| Politics.Philosophy | destiny/sociology/government.py:43-79 | the philosophy table has all 32 hashes, so every opinion has a name, the one its hash indexes |
| Politics.SuitableForIff | destiny/sociology/government.py:81-93 | a government suits a pop exactly when every axis differs by less than half the pop's tolerance |
| Politics.Distance | destiny/sociology/government.py:95-102 | suitability_for and similarity_to lie in [0, 1] and are 0 exactly for equal opinions |
| Politics.DistanceSymmetric | destiny/sociology/pop.py:363-370 | the distance is symmetric |
| Politics.SuitableIsClose | destiny/sociology/government.py:81-102 | a suitable government is also within half the tolerance on average |
| Politics.ToleranceExtremes | destiny/sociology/government.py:81-93 | with no tolerance nothing is suitable; with some tolerance a government of the pop's own opinion is |
| Politics.RootFromLeast | destiny/sociology/government.py:27-30 | counting up from a lower bound finds the least k with k*k*50*POP_TARGET_SIZE covering the population |
| Politics.CouncilSizeBounds | destiny/sociology/government.py:27-30 | ceil(sqrt(population / POP_TARGET_SIZE / 50)): the size squared covers the population and one fewer does not |
| Politics.CouncilSizeZeroIff | destiny/sociology/government.py:27-30 | the council size is 0 exactly for an empty settlement |
| Politics.CouncilSizeLeast | destiny/sociology/government.py:27-30 | no smaller size covers the population |
| Politics.CouncilSizeAtMostUnits | destiny/sociology/government.py:27-30 | a settlement of n full units needs at most n councillors |
| Politics.FamiliesPartition | destiny/sociology/government.py:535-544 | the eight government kinds fall into exactly one of the four families, and democratic means neither dictatorship nor autocracy |
| Politics.PreferredGovernment | destiny/sociology/pop.py:50-73 | the preferred kind is democratic exactly when the autocratic/democratic axis is above one half |
| Politics.PreferredGovernmentLeaves | destiny/sociology/pop.py:50-73 | two opinions prefer the same kind exactly when they take the same branch at all three tests |
| Politics.PreferredGovernmentOnto | destiny/sociology/pop.py:50-73 | every kind is some opinion's preference |
| Politics.PoliticalEngagement | destiny/sociology/pop.py:46-48 | engagement lies in [0, 1], is 0 exactly at the centre and 1 exactly at the extremes |
| Politics.OverthrowNeedsLoyalty | destiny/sociology/government.py:444-467 | a peaceful revolution needs unhappy pops, no uprising needs loyal pops, and with nobody at all the violent branch fires |
| Politics.OverthrowMonotone | destiny/sociology/government.py:444-467 | more loyal pops never provoke an uprising that fewer did not |
| Politics.DriftGroupsNonEmpty | destiny/sociology/government.py:486-532 | drift needs a loyal group and an autocratic-leaning government; the other outcomes each have a non-empty group to choose from; no drift bounds both groups by the loyal one |
| Politics.NoDriftWhenDemocratic | destiny/sociology/government.py:486-489 | a government at or above 0.25 on the democratic axis never drifts to autocracy |
| Politics.Column | destiny/sociology/government.py:152-165 | axis i of every opinion, in order |
| Politics.MinOf | destiny/sociology/government.py:152-165 | the least value, which is one of the values |
| Politics.MaxOf | destiny/sociology/government.py:152-165 | the largest value, which is one of the values |
| Politics.AverageAxis | destiny/sociology/government.py:152-165 | axis i of average_opinion is the mean of axis i and lies between its least and largest value |
| Politics.AverageIsMean | destiny/sociology/government.py:152-165 | every axis of average_opinion is the arithmetic mean of that axis, within [0, 1] |
| Politics.AverageOfSame | destiny/sociology/government.py:152-165 | opinions that are all o average to o |
| Politics.AverageKeepsSide | destiny/sociology/government.py:152-165 | averaging opinions on the same side of one half on an axis keeps that side |
| Politics.AverageKeepsHash | destiny/sociology/government.py:152-165 | the average of opinions sharing a hash has that hash |
| Politics.Bloc | destiny/sociology/government.py:386-388 | the bloc of hash h holds exactly the opinions with that hash |
| Politics.BlocSize | destiny/sociology/government.py:386-392 | the tally of a hash equals the size of its bloc |
| Politics.MajorityHashLargest | destiny/sociology/government.py:390-392 | the winning hash is some opinion's hash and no bloc is larger than its bloc |
| Politics.MajorityOpinionHash | destiny/sociology/government.py:385-393 | the winning bloc is non-empty and its average opinion has the winning hash |
| Politics.MajorityOfOne | destiny/sociology/government.py:385-393 | a lone opinion is its own majority |
| Populations.Population.constructor | destiny/sociology/pop.py:83-115 | a new pop: generation 0, happiness 1, mergeable, the given founders aged 20, no descendents, 20 empty child slots, no descendent pops |
| Populations.Population.Valid | destiny/sociology/pop.py:20-44 | a valid pop has a primary ancestry |
| Populations.Population.OpinionHash | destiny/sociology/pop.py:338-346 | the pop's opinion hash is below 32 |
| Populations.Population.WantsToMove | destiny/sociology/pop.py:354-357 | a pop that is not mergeable never wants to move |
| Populations.Population.SetHappiness | destiny/sociology/pop.py:79-81 | the setter stores the value clamped into [0, 1], and the value itself exactly when it lies in [0, 1] |
| Populations.Population.Accidents | destiny/sociology/pop.py:128-134 | the accidental deaths are split between founders and descendents in proportion; nothing else changes |
| Populations.Population.AgeOutChildren | destiny/sociology/pop.py:158-161 | children are popped off the end until 19 slots remain and their sum is returned; nothing else changes |
| Populations.Population.BirthsAndDeaths | destiny/sociology/pop.py:117-179 | the pop's new cohort is one year of AgeOneYear, whose properties AgeOneYearShape, AccidentsBounded, ChildrenBuffer and BirthsWithinRate prove; returns the new descendents; ancestry, traits and links are untouched |
| Populations.OldAgeLikelihood | destiny/sociology/pop.py:136-150 | the old-age likelihood lies in [0, 1] |
| Populations.AccidentSplit | destiny/sociology/pop.py:132-134 | floor(D r) + ceil(D (1 - r)) = D: the split removes exactly the accidental deaths |
| Populations.SurvivorsBounds | destiny/sociology/pop.py:151-156 | old age never creates people nor leaves a negative count |
| Populations.AccidentsAtMostPopulation | destiny/sociology/pop.py:128-130 | at a rate of at most 1000 per thousand the accidental deaths are between 0 and the population |
| Populations.AccidentsBounded | destiny/sociology/pop.py:128-134 | accidents take neither cohort below 0 and remove exactly the accidental deaths in total |
| Populations.AccidentLosses | destiny/sociology/pop.py:132-134 | each cohort's share of the deaths is within its size and the shares add up to the deaths |
| Populations.SplitWithin | destiny/sociology/pop.py:133-134 | rounding one share down and the other up keeps each within its cohort and the total at the deaths |
| Populations.ChildrenBuffer | destiny/sociology/pop.py:158-177 | the buffer keeps its 20 slots: births enter at the front and the last slot leaves to join the descendents |
| Populations.AgeOneYearShape | destiny/sociology/pop.py:117-179 | a year keeps a valid cohort valid, old age only removes people, the founders' age rises by one and the descendents gain exactly the aged-out children |
| Populations.BirthsWithinRate | destiny/sociology/pop.py:170-175 | births are non-negative, never exceed the rate applied to the childbearing cohorts, and are zero once both cohorts are 50 or older |
| Populations.AccidentsWithoutDescendents | destiny/sociology/pop.py:128-134 | without descendents every accidental death falls on the founders |
| Populations.TotalPopulationSplits | destiny/sociology/pop.py:181-183 | the total population is founders plus descendents, and is not negative for valid pops |
| Populations.ZipAdd | destiny/sociology/pop.py:291-293 | zip-and-sum: as long as the shorter buffer, each slot the sum of the two |
| Populations.SumsSplit | destiny/sociology/pop.py:262-271 | splitting the pops by their tag splits the founder and descendent sums |
| Populations.ChildrenTotalsValid | destiny/sociology/pop.py:291-293 | the summed children of valid pops are 20 non-negative slots |
| Populations.InheritTrait | destiny/sociology/pop.py:186-193 | an inherited trait lies within the deviation draw of the parents' mean (and in [0, 1]) |
| Populations.InheritedNearMean | destiny/sociology/pop.py:185-249 | every one of the eight inherited traits lies within its draw of the parents' mean |
| Populations.InheritWithoutDeviation | destiny/sociology/pop.py:294 | inheriting with deviation 0 gives the parents' mean in every trait, average_opinion on the political axes |
| Populations.InheritedSize | destiny/sociology/pop.py:250 | the inherited preferred size lies in [10, 1000] |
| Populations.InheritedSizeClamps | destiny/sociology/pop.py:250 | the size is the rounded mean plus the draw when that lies in [10, 1000], otherwise the nearer bound |
| Populations.MergedCohort | destiny/sociology/pop.py:274-293 | the merged cohort holds the group's summed founders and descendents |
| Populations.NewMergedPop | destiny/sociology/pop.py:274-297 | the constructor call plus the field updates: the fresh pop holds the merged cohort, traits, size, ancestry [(tag, 100)] and the pooled descendent pops |
| Populations.MergeGroup | destiny/sociology/pop.py:273-299 | a group with no founders is dropped; otherwise one fresh valid pop with its sums, tag and pooled lineage |
| Populations.MergingSums | destiny/sociology/pop.py:274-297 | the merged pop holds summed founders, descendents and children, head-count-weighted ages, mean traits and a size in [10, 1000] |
| Populations.CollectPartners | destiny/sociology/pop.py:262-265 | the partners are exactly the remaining pops with the candidate's primary tag, in order |
| Populations.RemovePartners | destiny/sociology/pop.py:270-271 | after the removals the remaining pops are exactly those with another tag, in order |
| Populations.MergePartners | destiny/sociology/pop.py:262-299 | the partners leave the list; the group becomes one fresh pop with its summed cohort and the tag, or nothing when it has no founders; founders are conserved |
| Populations.MergeOutcome | destiny/sociology/pop.py:274-299 | at most one fresh pop, absent exactly when the group has no founders; founders conserved; other lists' sums unchanged |
| Populations.EmitCandidate | destiny/sociology/pop.py:258-268 | a candidate passed through unchanged keeps the merge invariant |
| Populations.EmitMerged | destiny/sociology/pop.py:270-299 | absorbing the partners and emitting the merged pop keeps the merge invariant |
| Populations.SelectDescribed | destiny/sociology/pop.py:262-271 | selecting by tag picks the same pops from the plan's entries as from the list |
| Populations.StepSplit | destiny/sociology/pop.py:257-271 | a turn takes some pops and leaves the others: none lost or taken twice |
| Populations.PlanPartition | destiny/sociology/pop.py:253-301 | every pop is taken by exactly one turn: passed through or absorbed into exactly one group |
| Populations.LonePopPasses | destiny/sociology/pop.py:266-268 | a pop no other pop shares a primary tag with passes through unchanged |
| Populations.TakeTurn | destiny/sociology/pop.py:257-299 | one loop turn is the plan's next step, emits only input or fresh non-empty pops and shortens what remains |
| Populations.PassTurn | destiny/sociology/pop.py:258-268 | the candidate passes through: it is appended to the output as it is |
| Populations.MergeTurn | destiny/sociology/pop.py:262-299 | the group is merged into a fresh non-empty pop, or dropped when it has no founders |
| Populations.MergeCandidate | destiny/sociology/pop.py:270-299 | the group's pop is emitted and the pops with the tag leave the remaining list |
| Populations.MergeRound | destiny/sociology/pop.py:257-299 | one pass keeps the plan invariant and shortens the remaining list |
| Populations.MergeFinished | destiny/sociology/pop.py:301 | at the end the output realises the whole plan, conserves founders, never gains descendents, and mergeable outputs have distinct tags |
| Populations.NoneEmptied | destiny/sociology/pop.py:279-280 | every output pop is an input pop or has founders of its own, so none is empty when no input was |
| Populations.MergeSmallPops | destiny/sociology/pop.py:252-301 | merge_small_pops: outputs are valid input pops or fresh merged ones; the output is exactly what the merge plan emits; founders are conserved, descendents never grow; mergeable outputs have distinct tags; no output is empty when no input was |
| Generations.MovedChildren | destiny/sociology/pop.py:314-317 | one moved count per child slot |
| Generations.MovedSlot | destiny/sociology/pop.py:315 | floor(percent * slot): a share in [0, 1] of a non-negative slot moves between 0 and the slot |
| Generations.DescendentShare | destiny/sociology/pop.py:310 | the descendents' share of a parent's people lies in [0, 1] |
| Generations.BequeathedSplit | destiny/sociology/pop.py:310-317 | a parent keeps its founders, loses all descendents, and in every slot keeps a non-negative part of its children, kept plus moved being what it had |
| Generations.AllBequeathed | destiny/sociology/pop.py:309-317 | every parent after the bequest |
| Generations.NewChildren | destiny/sociology/pop.py:307-316 | the new pop's children buffer has 20 slots |
| Generations.GenerationKeepsPeople | destiny/sociology/pop.py:309-313 | nobody is lost or created: the people left in the parents plus the new pop's founders are the people the parents had |
| Generations.GenerationKeepsChildren | destiny/sociology/pop.py:314-317 | no child is lost or created: slot by slot the children left plus the new pop's equal what the parents had, and the new slots are non-negative |
| Generations.AllAncestriesValid | destiny/sociology/pop.py:318-319 | parents with valid ancestries pool into a valid, at least as long, list of entries |
| Generations.NormalisedAncestryBounds | destiny/sociology/pop.py:320-328 | the new ancestry holds most_common(3)'s tags in order, one to three of them; its primary tag has the largest total weight and a percentage of at least a third; every percentage is in [0, 100] |
| Generations.Percentages | destiny/sociology/pop.py:325-328 | each tag's percentage is its weighting over the total times 100, rounded half to even |
| Generations.PercentBounds | destiny/sociology/pop.py:321-328 | with a positive leader at least as heavy as the others the total is positive, the leader's percentage is at least a third and all are in [0, 100] |
| Generations.TopWeight | destiny/sociology/pop.py:318-320 | the most common tag weighs at least every tag, including the first entry's, and no weight is negative |
| Generations.TallyHeaviest | destiny/sociology/pop.py:318-320 | the tally's first heaviest entry weighs at least every tag and at least the first entry's weighting |
| Generations.WeightAtLeast | destiny/sociology/pop.py:318-319 | with no negative weightings a tag weighs at least any one of its entries |
| Generations.DescendentsOfSnapshots | destiny/sociology/pop.py:311 | the cohorts' descendents are the pops' summed descendents |
| Generations.MaxGeneration | destiny/sociology/pop.py:333 | max(p.generation for p in pops): at least every generation and equal to one of them |
| Generations.BequeathChildren | destiny/sociology/pop.py:310-317 | one parent's turn: its cohort becomes the bequeathed one and the new buffer gains its moved children; it stays valid |
| Generations.BequeathStep | destiny/sociology/pop.py:309-317 | the loop's running totals one parent further on |
| Generations.BequeathNext | destiny/sociology/pop.py:309-319 | one loop turn keeps the progress invariant |
| Generations.BequeathAll | destiny/sociology/pop.py:305-319 | the first loop: every parent bequeaths; the totals are the parents' descendents, their age-years and the summed moved children |
| Generations.RecordDescendent | destiny/sociology/pop.py:334-335 | every parent appends the new pop to its descendent pops and nothing else changes |
| Generations.NewGenerationPop | destiny/sociology/pop.py:322-333 | the fresh pop is founded with the cohort, ancestry, traits, size and generation given |
| Generations.OffspringValid | destiny/sociology/pop.py:322-331 | the new pop's cohort is valid |
| Generations.Bequeath | destiny/sociology/pop.py:305-319 | the offspring cohort is the parents' descendents, with no descendents of its own, one generation past the oldest parent |
| Generations.FoundNextGeneration | destiny/sociology/pop.py:305-333 | a fresh pop is founded with the bequeathed cohort and the heritage given |
| Generations.FormGenerationWith | destiny/sociology/pop.py:305-336 | the new pop is founded and every parent records it |
| Generations.FormNextGeneration | destiny/sociology/pop.py:303-336 | form_next_generation: the descendents found a fresh pop one generation on with the normalised ancestry and inherited traits and size; parents keep their founders and record the new pop |
| Life.ShuffledDistinct | destiny/sociology/utils/life.py:9-11 | a shuffle of distinct pops holds each of them exactly once |
| Life.WithDescendents | destiny/sociology/utils/life.py:8 | exactly the pops with descendents, each once |
| Life.WithDescendentsCounts | destiny/sociology/utils/life.py:8 | counting the filtered pops gives the positive descendent counts of the cohorts |
| Life.TakeBatchShape | destiny/sociology/utils/life.py:14-18 | the inner loop leaves a prefix of the queue and the batch gains the rest, last first; no count is lost and at least one is taken when possible |
| Life.TakeBatchStops | destiny/sociology/utils/life.py:14-18 | the batch stops early only once it reaches POP_TARGET_SIZE, and its last count was taken while it was below |
| Life.TakeBatchGrows | destiny/sociology/utils/life.py:14-18 | the batch only grows, keeping what it held |
| Life.TakeBatchShrinks | destiny/sociology/utils/life.py:12-18 | each outer turn shortens the queue |
| Life.BatchesPartition | destiny/sociology/utils/life.py:12-18 | the batches split the shuffled counts without gaps or overlaps, in the order taken from the end |
| Life.BatchesGreedy | destiny/sociology/utils/life.py:12-20 | every batch holds a count and stops on reaching POP_TARGET_SIZE; only the last may fall short |
| Life.BatchesLoss | destiny/sociology/utils/life.py:12-21 | all but fewer than POP_TARGET_SIZE descendents found new generations, and every batch but possibly the last founds one |
| Life.AgeAll | destiny/sociology/utils/life.py:6-7 | every pop ages one year with its own draws in range, stays valid and only its cohort changes |
| Life.AgeOne | destiny/sociology/utils/life.py:7 | one pop's year with draws from randint(10, 80) and randint(1, 10) |
| Life.Promote | destiny/sociology/utils/life.py:21 | the fresh valid new pop's founders are the parents' descendents |
| Life.TakeParents | destiny/sociology/utils/life.py:13-18 | the parents are popped from the end of the queue; their counts are the next greedy batch |
| Life.FoundGenerations | destiny/sociology/utils/life.py:12-21 | the batches are the greedy batches of the queue's counts; as many fresh valid pops are founded as batches reach POP_TARGET_SIZE, holding their totals |
| Life.FoundNext | destiny/sociology/utils/life.py:13-21 | one outer turn takes the next batch and founds one pop when it reaches POP_TARGET_SIZE |
| Life.PromoteIfLarge | destiny/sociology/utils/life.py:20-21 | a batch reaching POP_TARGET_SIZE founds one pop holding its total; otherwise it is dropped |
| Life.Living | destiny/sociology/utils/life.py:25-32 | the living pops that are small, or that are not, in order, and no others |
| Life.Classify | destiny/sociology/utils/life.py:22-32 | the loop puts exactly the living small pops in one list and the living others in the kept list; the no-founders branch is unreachable |
| Life.ProcessBirthsAndDeaths | destiny/sociology/utils/life.py:5-39 | every pop ages with its draws; the shuffled positive descendents are batched greedily and each batch of POP_TARGET_SIZE founds a fresh pop; the returned pops are the living large pops in order, then, pop by pop, what merge_small_pops' plan on the small living pops emits, none empty |
| Life.Survive | destiny/sociology/utils/life.py:5-39 | the old pops head the grown list and the year's result is its survivors, with the small pops and the merged tail recorded |
| Life.Grow | destiny/sociology/utils/life.py:5-21 | ageing and founding: the old pops followed by one fresh pop per promoted batch, holding the promoted totals |
| Life.ShuffleAndFound | destiny/sociology/utils/life.py:8-21 | the batches are those of a shuffle of the positive counts, and the founded pops hold the promoted totals |
| Life.ShuffledCounts | destiny/sociology/utils/life.py:8-11 | the counts of the shuffled pops are the shuffled positive counts |
| Life.MergedSurvivors | destiny/sociology/utils/life.py:22-39 | the kept pops followed by what realises merge_small_pops' plan on the small ones are the year's survivors |
| Life.MergedCohorts | destiny/sociology/utils/life.py:22-39 | the kept pops followed by merged pops holding the small pops' total are the survivors' head counts: the kept prefix, no pop empty |
| Life.TailRecorded | destiny/sociology/utils/life.py:22-39 | the entries the survivors are described by list the small pops and the pops after the kept ones |
| Life.SortSurvivors | destiny/sociology/utils/life.py:22-39 | the returned pops are the living large pops in order, then exactly what merge_small_pops' plan on the small living pops emits |
| Life.MergeFew | destiny/sociology/utils/life.py:37-38 | the result is exactly what merge_small_pops' plan on the small pops emits (nothing for none): each a small pop passed through or a fresh merged one, none empty, together holding the small pops' founders |
| Elections.Engaged | destiny/sociology/government.py:319-321 | exactly the pops with engagement above 0.5, in order |
| Elections.CandidatePool | destiny/sociology/government.py:319-323 | the pool is empty only when there are no pops, and holds only pops |
| Elections.Nominate | destiny/sociology/government.py:325-326 | rng.sample of the pool: min(pool size, 3 * seats) distinct-position draws, all pops of the settlement |
| Elections.InsertBy | destiny/sociology/government.py:346 | inserting x after every item of key at most x's adds exactly x to the items |
| Elections.InsertBySorted | destiny/sociology/government.py:346 | inserting into a sorted list keeps it sorted |
| Elections.SortBy | destiny/sociology/government.py:346 | the stable sort is a permutation of its input (SortBySorted: in key order; SortByStable: equal keys keep their order) |
| Elections.SortBySorted | destiny/sociology/government.py:346 | the stable sort leaves its items in nondecreasing key order |
| Elections.InsertByStable | destiny/sociology/government.py:346 | inserting into a sorted list keeps the items of each key in their order, the new item last among those of its key |
| Elections.SortByStable | destiny/sociology/government.py:346 | sorted is stable: the items of any one key come out in the order they went in |
| Elections.Rank | destiny/sociology/government.py:346 | the choices reordered by similarity to the voter: a permutation of them (RankRanked: closest first; RankStable: equally distant candidates keep their order) |
| Elections.RankRanked | destiny/sociology/government.py:346 | the ranked choices run from the closest to the voter to the farthest |
| Elections.RankStable | destiny/sociology/government.py:346 | candidates equally distant from the voter come out of the ranking in the order they were offered, so the ballot's cut at size keeps the earlier ones |
| Elections.Kindred | destiny/sociology/government.py:328-330 | exactly the candidates sharing the hash |
| Elections.Choices | destiny/sociology/government.py:341-345 | the voter's own-hash candidates when at least size of them stand, else every candidate |
| Elections.Ballot | destiny/sociology/government.py:341-347 | min(size, choices) candidates, all of the voter's own opinion hash when at least size of them stand |
| Elections.BallotRanked | destiny/sociology/government.py:346-347 | a ballot runs from the candidate closest to the voter to the farthest |
| Elections.BallotClosest | destiny/sociology/government.py:346-347 | nobody considered but left off the ballot is closer to the voter than anyone on it |
| Elections.VotesOf | destiny/sociology/government.py:347-348 | one vote per candidate on the ballot |
| Elections.Voters | destiny/sociology/government.py:335-339 | exactly the non-candidate pops with engagement at least the threshold, in order |
| Elections.VotesCast | destiny/sociology/government.py:340-348 | every vote cast goes to a candidate and weighs one |
| Elections.VotesBound | destiny/sociology/government.py:340-348 | each voter casts at most size votes |
| Elections.Winners | destiny/sociology/government.py:350 | most_common(size): min(size, voted-for candidates) winners |
| Elections.WinnersVotedFor | destiny/sociology/government.py:350 | every winner is a candidate with at least one vote |
| Elections.WinnersLead | destiny/sociology/government.py:350 | no candidate left out has more votes than any winner |
| Elections.WinnersEmpty | destiny/sociology/government.py:350-357 | there are winners exactly when seats are to be filled and someone voted |
| Elections.CastVotes | destiny/sociology/government.py:332-348 | the voting loop casts exactly the votes of every voter's ballot, in order |
| Elections.VoterStep | destiny/sociology/government.py:340-348 | one more pop adds its ballot's votes when it votes, and nothing else |
| Governments.Opinions | destiny/sociology/government.py:152-165 | the opinion of every pop, in order |
| Governments.Suited | destiny/sociology/government.py:441-442 | exactly the pops the government suits, in order: the loyal pops and the council candidates |
| Governments.Unhappy | destiny/sociology/government.py:436-438 | exactly the pops not suited and engaged above 0.75, in order |
| Governments.Rebels | destiny/sociology/government.py:439-440 | exactly the unhappy pops that are militant (at least 0.75, and below 0.25 on the democratic axis for the drift check) |
| Governments.AutocraticLeaning | destiny/sociology/government.py:214 | exactly the pops below 0.5 on the autocratic/democratic axis |
| Governments.Surviving | destiny/sociology/government.py:207-209 | exactly the councillors that are not dead, in order |
| Governments.PreferredKinds | destiny/sociology/government.py:446 | the preferred government of every pop, in order |
| Governments.Factions | destiny/sociology/government.py:432-442 | the loop yields the suited pops as loyal, the disaffected as unhappy and the militant unhappy as rebels; loyal and unhappy never overlap |
| Governments.FactionsStep | destiny/sociology/government.py:435-442 | one more pop extends each group by at most that pop |
| Governments.DictatorCandidates | destiny/sociology/government.py:122-149 | the heirs for a hereditary dictatorship if any, else the suited pops if any, else every pop; empty only when there are no pops (and no heirs) |
| Governments.SeedCandidates | destiny/sociology/government.py:214-216 | the autocratic-leaning pops, or every pop if none leans so; empty only when there are no pops |
| Governments.Draw | destiny/sociology/government.py:190-199 | nothing when none is required, the whole pool when it is too small, otherwise a sample of the required size |
| Governments.RecruitedSize | destiny/sociology/government.py:190-199 | a recruitment takes min(required, pool) members (none when none is required), from the pool, none twice |
| Governments.ElectionYearMod | destiny/sociology/government.py:280 | the counting-down rule agrees with (founding_year - year) % term == 0 |
| Governments.ElectionsEveryTerm | destiny/sociology/government.py:278-280 | a year is an election year exactly when the year a term later is, and the founding year is one |
| Governments.ElectionsApart | destiny/sociology/government.py:280 | two election years lie at least a term apart |
| Governments.DescendentIn | destiny/sociology/government.py:239-241 | a pop is among the pooled descendent pops exactly when some councillor has it as a descendent pop |
| Governments.DescendentsOfSubgroup | destiny/sociology/government.py:239-241 | the descendent pops of a subgroup are descendent pops of the whole |
| Governments.OverthrowPlan | destiny/sociology/government.py:444-467 | the overthrow decision keeps the government exactly when the verdict is no uprising |
| Governments.Overthrow | destiny/sociology/government.py:428-467 | the revolution is_population_going_to_overthrow_government plans from the suited, unhappy and rebel groups of the pops; its inner circle is drawn from the pops |
| Governments.DriftPlan | destiny/sociology/government.py:486-532 | the drift decision keeps the government exactly when the verdict is no drift |
| Governments.DriftTo | destiny/sociology/government.py:470-532 | the revolution is_government_going_to_become_autocracy plans from the loyal, unhappy and rebel groups; its inner circle is drawn from the pops |
| Governments.Threat | destiny/sociology/government.py:129-136 | the check govern ends with: an overthrow for an autocratic kind, a drift to the councillors' preferred kinds for a representative democracy or to any autocratic kind for a direct one; its inner circle is drawn from the pops |
| Governments.Government.constructor | destiny/sociology/government.py:21-22 | a new government of the kind, unformed, with no dictator, no council, founding year -1 and the drawn term |
| Governments.Government.InferOpinion | destiny/sociology/government.py:109-114 | a dictatorship takes its dictator's opinion, an autocracy its council's mean opinion |
| Governments.Government.InstallDictator | destiny/sociology/government.py:116-120 | a dictator drawn from the pops, no longer mergeable, whose opinion the government takes; fails exactly when there are no pops; every other pop's mergeable flag stays |
| Governments.Government.ChooseNewDictator | destiny/sociology/government.py:122-149 | the new dictator is drawn from DictatorCandidates and the government takes its opinion |
| Governments.Government.ElectInitialCouncilor | destiny/sociology/government.py:213-220 | a seed councillor from SeedCandidates joins the end of the council, no longer mergeable, and the opinion is the council's mean; fails exactly when there are no pops, leaving council and opinion; every other pop's mergeable flag stays |
| Governments.Government.Housekeeping | destiny/sociology/government.py:206-211 | dead councillors leave and the opinion stays; an emptied council becomes one seed from SeedCandidates, no longer mergeable, whose opinion it takes; it fails only then, on no pops; no pop but the seed changes its mergeable flag |
| Governments.Government.SelectCouncilMembers | destiny/sociology/government.py:190-199 | recruits suited pops up to council_size |
| Governments.Government.AppointCouncilors | destiny/sociology/government.py:201-204 | the new councillors, no longer mergeable, join the end of the council |
| Governments.Government.Recruit | destiny/sociology/government.py:183-188 | the recruits are Recruited from the pops the old opinion suits, up to council_size less the council (all of them if too few, none if full, else a sample); they join the end of the council, no longer mergeable, the opinion is the council's mean, and no other pop's flag changes |
| Governments.Government.AppointHeirs | destiny/sociology/government.py:245-257 | the heirs appointed are Recruited from the candidates, as many as required (all if too few, else a sample); they join the end of the council, no longer mergeable, the opinion stays and no other flag changes |
| Governments.Government.ElectCouncil | destiny/sociology/government.py:180-188 | housekeeping then recruitment: the council is the survivors (or one seed) followed by recruits Recruited from the suited pops up to council_size, with its mean opinion; fails exactly when the council died out and there are no pops; only the seed and the recruits stop being mergeable; the flags are stated as Reseated from the survivors on |
| Governments.Government.ReplaceFromHeirs | destiny/sociology/government.py:236-257 | the survivors (or one seed) followed by heirs Recruited from the councillors' descendants, each once, up to the number housekeeping removed; fails exactly when the council died out and there are no pops; only the seed and the heirs stop being mergeable |
| Governments.Government.ElectHereditaryCouncil | destiny/sociology/government.py:235-262 | the survivors (or one seed), then heirs Recruited from the councillors' descendants up to the number removed, then recruits Recruited from the suited pops up to council_size; the opinion is the council's mean; fails exactly when the council died out and there are no pops; only seed, heirs and recruits stop being mergeable; the flags are stated as Reseated from the survivors on |
| Governments.Government.FillHereditaryCouncil | destiny/sociology/government.py:235-262 | the same hereditary election for a council size given by the caller, as a revolution's packing uses it |
| Governments.Government.DissolveCouncil | destiny/sociology/government.py:305-308 | the sitting councillors become mergeable and the council is emptied |
| Governments.Government.InferMajority | destiny/sociology/government.py:294-302 | the opinion is the mean of the largest hash bloc; max() over no blocs fails |
| Governments.Government.HoldElection | destiny/sociology/government.py:317-357 | candidates nominated, votes cast, winners seated or a sample of the candidates; sampling more than there are fails |
| Governments.Government.SeatSole | destiny/sociology/government.py:310-315 | the lone pop forms the council, is no longer mergeable, and its opinion is the government's |
| Governments.Government.ElectByVote | destiny/sociology/government.py:317-359 | an election seats a non-empty council whose majority opinion is the government's, or fails |
| Governments.Government.ElectRepresentatives | destiny/sociology/government.py:304-359 | the old council is released; a lone pop forms the council; otherwise an election; success means a non-empty council and the majority opinion; no other pop's mergeable flag changes |
| Governments.Government.FoundDictatorship | destiny/sociology/government.py:116-120 | a fresh dictatorship with a dictator drawn from the pops; fails exactly on no pops; on success the dictator is no longer mergeable and every other pop keeps its flag (Refounded) |
| Governments.Government.FoundAutocracy | destiny/sociology/government.py:175-178 | a fresh autocracy whose council is a seed from SeedCandidates followed by recruits Recruited from the pops the seed's opinion suits, up to council_size less one, holding its mean opinion; fails exactly on no pops; on success the whole council is no longer mergeable and every other pop keeps its flag (Refounded) |
| Governments.Government.FoundRepresentative | destiny/sociology/government.py:270-275 | a fresh representative democracy with founding year -1, the drawn term, and on success a non-empty council and the majority opinion; a lone pop is seated and no longer mergeable, with more pops every flag stays |
| Governments.Government.FoundDirect | destiny/sociology/government.py:372-374 | a fresh direct democracy with the majority opinion of all pops; fails exactly on no pops |
| Governments.Government.FoundAutocratic | destiny/sociology/government.py:116-178 | the dictatorial and autocratic __init__s fail exactly on no pops; otherwise a dictator drawn from the pops, no longer mergeable, holding its own opinion, or a first council of a seed and the recruits Recruited from the pops its opinion suits up to council_size, holding its mean opinion; formed; the dictator or whole first council is no longer mergeable and every other pop keeps its flag (Refounded) |
| Governments.Government.FoundDemocratic | destiny/sociology/government.py:270-374 | the democratic __init__s: a representative democracy's first election (founding year -1, the drawn term, on success a non-empty council with its majority opinion) or a direct democracy's majority opinion of all pops, failing exactly on no pops; formed on success; no flag changes, except that a representative democracy seats a lone pop no longer mergeable |
| Governments.InauguratedFaults | destiny/sociology/government.py:270-374 | a democracy's founding fails only by a too-large sample or a max() over nothing, a direct one exactly on no pops; a representative one takes the drawn term |
| Governments.Government.Create | destiny/sociology/government.py:408 | government_type(settlement): a fresh government of the kind left as its __init__ leaves it (a dictator drawn from the pops, a seed and its Recruited council, a representative democracy's first election or the majority opinion), formed on success, or the exception that __init__ raises; a dictatorship or autocracy leaves only its dictator or first council no longer mergeable (Refounded), a democracy changes no flag except seating a lone pop |
| Governments.Government.SeizePower | destiny/sociology/government.py:420-424 | the dictator is redrawn from the inner circle and the opinion is its opinion; fails exactly on an empty inner circle |
| Governments.Government.ElectInnerCircle | destiny/sociology/government.py:417-419 | a council set to an inner circle smaller than the founding council is elected again: the dictator stays and the council is ElectedFrom the inner circle's seating (its survivors first, then heirs and recruits), holding its mean opinion; fails exactly when no one survives and there are no pops |
| Governments.Government.PackCouncil | destiny/sociology/government.py:409-419 | an inner circle at least the founding council's size supplies a sample of that size; a smaller one becomes the council and is elected again (ElectedFrom its seating); either way a non-empty council with its mean opinion, failing only when the smaller circle has no survivor and there are no pops |
| Governments.Government.EstablishAutocratic | destiny/sociology/government.py:403-425 | a dictatorship or autocracy Installed from the inner circle: a dictator drawn from it, or a founded council replaced by a sample of the inner circle of the same size or by the inner circle elected again; formed; fails exactly on no pops or an empty inner circle for a dictatorship |
| Governments.Government.EstablishDictatorship | destiny/sociology/government.py:403-425 | a founded dictatorship whose dictator is drawn again from the inner circle: formed and Installed on success, failing exactly on no pops or an empty inner circle |
| Governments.Government.EstablishAutocracy | destiny/sociology/government.py:403-419 | a founded autocracy whose council is sampled from, or elected again from, the inner circle: formed and Installed on success, failing exactly on no pops |
| Governments.Government.EstablishDemocratic | destiny/sociology/government.py:403-425 | a democracy is left as founded: formed on success, a direct one failing exactly on no pops, faults only a too-large sample or a max() over nothing; founding state as InauguratedDemocratic (founding year -1, the drawn term, the first election or the majority opinion) |
| Governments.Government.EstablishNewGovernment | destiny/sociology/government.py:403-425 | establish_new_government: a fresh formed government Installed from the inner circle (a dictator from it, or a council sampled from it or elected again from it), failing exactly on no pops or an empty circle for a dictatorship, on no pops for an autocracy or direct democracy, and a representative democracy only by a too-large sample or a max() over nothing; a new democracy is left as InauguratedDemocratic states |
| Governments.Government.Revolution | destiny/sociology/government.py:445-467 | never Unchanged: no choices is the empty-choice crash; otherwise the new kind is one of the choices, the outcome is a replacement whenever there are pops and an inner circle and the kind is not representative, and a replacement is fresh, formed and Installed from the inner circle |
| Governments.Government.Uprise | destiny/sociology/government.py:444-467 | the outcome follows the overthrow plan on the counted groups |
| Governments.Government.OverthrowCheck | destiny/sociology/government.py:428-467 | is_population_going_to_overthrow_government: the outcome follows the overthrow plan of the government's opinion on the pops |
| Governments.Government.DriftChoices | destiny/sociology/government.py:490-502 | the councillors' preferences for a representative democracy, otherwise only non-democratic kinds |
| Governments.Government.Drift | destiny/sociology/government.py:486-532 | the outcome follows the drift plan on the counted groups |
| Governments.Government.DriftCheck | destiny/sociology/government.py:470-532 | is_government_going_to_become_autocracy: the outcome follows the drift plan of the government's opinion on the pops |
| Governments.Government.Succeed | destiny/sociology/government.py:129-132 | a living dictator stays; a dead one is succeeded as choose_new_dictator says |
| Governments.Government.ReconsiderAutocratic | destiny/sociology/government.py:129-230 | a dictatorship keeps a living dictator or succeeds a dead one from choose_new_dictator's candidates, taking its opinion; an autocracy keeps its dictator and its council is ElectedFrom its seating (survivors or a seed, then heirs and recruits) with the mean opinion, failing exactly with no survivor and no pops; on success the newly seated councillors are no longer mergeable and every other pop keeps its flag (Reseated) |
| Governments.Government.RenewCouncil | destiny/sociology/government.py:222-262 | an autocracy's council election: the dictator untouched; the council ElectedFrom the seating it had (the surviving councillors or a seed first, then heirs for a hereditary one, then recruits to council_size) with its mean opinion; a failure exactly with no survivor and no pops; on success the newly seated councillors are no longer mergeable and every other pop keeps its flag (Reseated) |
| Governments.Government.RenewAutocracy | destiny/sociology/government.py:180-230 | elect_council_members of an autocracy leaves the council ElectedFrom its seating, as RenewCouncil states; on success the newly seated councillors are no longer mergeable and every other pop keeps its flag (Reseated) |
| Governments.Government.RenewHereditaryAutocracy | destiny/sociology/government.py:235-262 | the hereditary elect_council_members leaves the council ElectedFrom its seating, heirs then recruits after the survivors, as RenewCouncil states; on success the newly seated councillors are no longer mergeable and every other pop keeps its flag (Reseated) |
| Governments.CouncilRenewed | destiny/sociology/government.py:180-210 | housekeeping's survivors (or seed) followed by new members is a non-empty council starting with the survivors |
| Governments.HeirsRenewed | destiny/sociology/government.py:235-262 | the same for a council that heirs and recruits complete |
| Governments.ElectionReseats | destiny/sociology/government.py:180-262 | a council election that keeps the survivors (or one seed) and seats heirs and recruits no longer mergeable, changing no other flag, leaves the flags Reseated from the survivors on |
| Governments.RecruitsReseat | destiny/sociology/government.py:180-210 | the same for an autocracy, which seats no heirs |
| Governments.Government.HoldScheduledElection | destiny/sociology/government.py:277-290 | the first call records the founding year; in a later year a whole number of terms from it the council is elected again (non-empty with its majority opinion on success); in any other year council and opinion stay; in an election year the old council is released mergeable, a lone pop is seated no longer mergeable and every other flag stays (Revoted); in any other year no flag changes |
| Governments.Government.ReconsiderDemocratic | destiny/sociology/government.py:277-392 | a representative democracy holds its scheduled election; a direct one keeps its council and takes the majority opinion of all pops, failing exactly on no pops; a representative democracy in an election year leaves the flags Revoted, otherwise no flag changes |
| Governments.Government.OverthrowUnlessCrashed | destiny/sociology/government.py:136 | the overthrow check, skipped after a failure |
| Governments.Government.DriftUnlessCrashed | destiny/sociology/government.py:383 | the drift check, skipped after a failure; the government's own state is untouched |
| Governments.Government.GovernAutocratic | destiny/sociology/government.py:129-230 | the reconsideration (a dictator's succession or the council ElectedFrom its seating, with its opinion); a failure is the crash with that fault; otherwise the outcome Follows the overthrow plan of the opinion now held: Unchanged without one, else a fresh revolution Installed from the plan's inner circle; stays formed |
| Governments.Government.GovernDemocratic | destiny/sociology/government.py:277-383 | the scheduled election or the majority opinion of all pops, then the drift check on the opinion now held; a failure ends the year |
| Governments.Government.Govern | destiny/sociology/government.py:24-25 | govern leaves the government Governed: formed; reconsidered as its kind says (dictator succession, an autocracy's council ElectedFrom its seating with the mean opinion, a representative democracy's scheduled election, a direct democracy's majority opinion); a failure is the crash with that fault; otherwise the outcome Follows the Threat (Unchanged without a plan, else a revolution Installed from its inner circle); any replacement is fresh and formed |
| Settlements.Votes | destiny/sociology/settlement.py:34-35 | one vote per key, in order |
| Settlements.VotesCount | destiny/sociology/settlement.py:34-35 | adding one vote per key counts each key's occurrences |
| Settlements.FavouriteKind | destiny/sociology/settlement.py:43 | government_types.most_common(1)[0][0] exists exactly when there are pops |
| Settlements.VotesLeader | destiny/sociology/settlement.py:43 | the leader is one of the keys, no key has more votes, and an equally voted key first appears no earlier |
| Settlements.FavouriteKindWins | destiny/sociology/settlement.py:32-43 | the favourite kind is some pop's preference with the most votes, the earliest-preferred among equals |
| Settlements.Origin | destiny/sociology/settlement.py:36-40 | countries.most_common(1)[0][0] exists exactly when some pop has an ancestry |
| Settlements.OriginHeaviest | destiny/sociology/settlement.py:36-40 | the origin has the largest summed weighting, the first to appear among equals |
| Settlements.OriginOfValid | destiny/sociology/settlement.py:39-40 | valid pops always give an origin |
| Settlements.Flags | destiny/sociology/settlement.py:70 | each pop leaves exactly when the government does not suit it and it wants to move on its draw |
| Settlements.PartitionCovers | destiny/sociology/settlement.py:66-73 | movers and stayers together are the pops, none lost or duplicated |
| Settlements.PartitionSides | destiny/sociology/settlement.py:68-73 | a pop is among the movers exactly when it leaves on its draw |
| Settlements.SortPops | destiny/sociology/settlement.py:66-73 | the loop puts exactly the leaving pops in the movers and the rest in the stayers, in order |
| Settlements.DispersedKeepsOne | destiny/sociology/settlement.py:75-80 | somebody always stays after a dispersal |
| Settlements.Dispersal | destiny/sociology/settlement.py:66-80 | the stayers and movers of a non-empty settlement, one mover kept back when nobody would stay |
| Settlements.KeepOne | destiny/sociology/settlement.py:75-78 | when nobody stays one mover is kept back and removed from the movers; otherwise both sides are unchanged; no pop lost or duplicated |
| Settlements.AgriculturalRequirement | destiny/sociology/settlement.py:64 | the farming requirement is not negative |
| Settlements.SmallSettlementsNeedNoFarming | destiny/sociology/settlement.py:64 | up to one and a half pop targets needs no farming (one half rounds to the even 0) |
| Settlements.EffortSplitBounds | destiny/sociology/settlement.py:81-90 | a positive effort is shared out whole with science within a half of its share; no effort yields nothing |
| Settlements.Paired | destiny/sociology/settlement.py:92 | each mover paired with the settlement it leaves |
| Settlements.Settlement.constructor | destiny/sociology/settlement.py:18-28 | the settlement holds the name, pops and government |
| Settlements.Settlement.Population | destiny/sociology/settlement.py:45-47 | the population of valid pops is not negative |
| Settlements.Settlement.NameFor | destiny/sociology/settlement.py:39-41 | the name is drawn from the city names of the pops' origin |
| Settlements.Settlement.ForPops | destiny/sociology/settlement.py:30-43 | for_pops: no pops fail with the index error; otherwise the name (given or drawn from the origin's cities) and a government of the favourite kind |
| Settlements.Settlement.Establish | destiny/sociology/settlement.py:43 | a government of the favourite kind, left as its __init__ leaves it (Inaugurated), governs the new settlement; the result is a settlement exactly when the founding raised no fault, and a failure is a representative democracy's |
| Settlements.Settlement.BirthsAndDeaths | destiny/sociology/settlement.py:49-50 | the old pops head the grown list; the pops become the living large pops in order, then what merge_small_pops' plan on the small ones emits, none empty |
| Settlements.Settlement.Govern | destiny/sociology/settlement.py:60-62 | the government is left Governed as Government.Govern leaves it, a crash carrying govern's own fault; a returned government replaces the old one, fresh and formed; otherwise the government stays, formed |
| Settlements.Settlement.Disperse | destiny/sociology/settlement.py:64-92 | the settlement keeps the stayers; the movers are returned paired with it; the effort is split into science and manufacturing; no pops is the empty-choice error |
| Settlements.Settlement.DisperseDrawn | destiny/sociology/settlement.py:64-92 | the dispersal with the year's own move draws in [0, 1): the empty-choice error exactly on no pops, leaving them; otherwise the pops are Dispersed by the government's opinion and never left empty, the movers are returned paired with the settlement and the effort of the pops' population is split into science and manufacturing |
| Settlements.Settlement.ProcessYear | destiny/sociology/settlement.py:52-92 | process_year: the pops survive the year, the old government is left Governed among the survivors, a crash carrying its fault and leaving the survivors with no movers; otherwise the stayers remain (never none), the movers are returned and the effort of the survivors' population is split |
| Settlements.Settlement.RuleAndDisperse | destiny/sociology/settlement.py:60-92 | govern leaves the old government Governed (standing, council size and inner circle as they were before); a crash ends the year with govern's fault and no movers; otherwise the dispersal of DisperseDrawn |
| Science.ScienceNode.constructor | destiny/sociology/science.py:61-63 | a node provides the technologies and has no options |
| Science.ScienceNode.LeadsTo | destiny/sociology/science.py:65-71 | the given node, or a fresh one providing exactly the technologies, is appended to the options and returned |
| Science.BuildSublightTree | destiny/sociology/science.py:111-118 | six fresh distinct nodes in a chain, providing the sublight technologies in order |
| Science.BuildFoldspaceTree | destiny/sociology/science.py:120-128 | seven fresh distinct nodes in a chain hung from the last sublight node |
| Science.BuildWormholeTree | destiny/sociology/science.py:130-139 | eight fresh distinct nodes in a chain hung from the last sublight node |
| Science.BuildTechTree | destiny/sociology/science.py:111-139 | TECH_TREE has the shape of the technology tree, all nodes fresh |
| Science.JoinChains | destiny/sociology/science.py:111-139 | the three chains join into the tree's shape |
| Science.TreePointsForward | destiny/sociology/science.py:111-139 | every option of a node was created after it |
| Science.BranchingShape | destiny/sociology/science.py:117-131 | the foldspace I node is the only branching point; the two chain ends have no options; every other node one |
| Science.RootProvidesChassisAndEngine | destiny/sociology/science.py:78-111 | the root provides sublight I and superheavy I |
| Science.PathIncreases | destiny/sociology/science.py:111-139 | along any walk, creation order strictly increases |
| Science.Acyclic | destiny/sociology/science.py:111-139 | no walk from TECH_TREE returns to its start |
| Shipyard.TravelTime | destiny/sociology/starships.py:134-169 | no travel time exactly when the FTL drive does not cover the distance and it exceeds the sublight range; an FTL trip takes a non-negative whole number of years |
| Shipyard.FtlClocksAgree | destiny/sociology/starships.py:138-139 | when the FTL drive covers the distance, objective and subjective times agree |
| Shipyard.WithinRangeReachable | destiny/sociology/starships.py:87-91 | every destination within the ship's range has a travel time |
| Shipyard.Countdown | destiny/sociology/starships.py:121-132 | k transit calls from n objective years leave n - k, and the subjective count goes down to max(m - k, 0) |
| Shipyard.ArrivalOnNthCall | destiny/sociology/starships.py:121-132 | transit first reports arrival on the n-th call |
| Shipyard.ProvidedMembers | destiny/sociology/starships.py:181-182 | a technology is provided exactly when some discovered node provides it |
| Shipyard.CollectTechs | destiny/sociology/starships.py:180-185 | the techs list holds every provided technology once, in order of first appearance |
| Shipyard.Absorb | destiny/sociology/starships.py:182-185 | the inner loop appends each technology not yet listed |
| Shipyard.MaxIndex | destiny/sociology/starships.py:195-199 | max(ts, key): the first technology no other outranks |
| Shipyard.Blueprint | destiny/sociology/starships.py:195-196 | max() over no chassis or no engine is an error |
| Shipyard.BlueprintExists | destiny/sociology/starships.py:187-196 | a design exists exactly when a chassis and a sublight engine are known |
| Shipyard.BlueprintChassis | destiny/sociology/starships.py:195-221 | the chassis has the largest capacity and the lowest cost among those; the price is capacity times per-pop cost, doubled with a folding drive |
| Shipyard.BlueprintEngine | destiny/sociology/starships.py:196 | no known engine outranks the chosen one on (acceleration, range) |
| Shipyard.BlueprintFtl | destiny/sociology/starships.py:198-206 | a folding drive exactly when one is known, and then the fastest, longest-ranged among the fastest |
| Shipyard.RootSuffices | destiny/sociology/starships.py:171-223 | any discoveries including the tree's root can build a ship |
| Shipyard.FirstCopy | destiny/sociology/inhabitedplanet.py:92-97 | an unnumbered name becomes its second copy |
| Shipyard.NextCopy | destiny/sociology/inhabitedplanet.py:92-98 | a numbered name becomes the next copy of the same base, which splits back into base and number |
| Shipyard.NamePool.constructor | destiny/sociology/inhabitedplanet.py:81 | the pool holds the names |
| Shipyard.NamePool.Recycle | destiny/sociology/inhabitedplanet.py:91-98 | the used name is removed and its successor appended, keeping the pool's size; an unparsable number leaves the name removed and fails |
| Colonies.Planet.constructor | destiny/cartography/planet.py:60-71 | a planet of its star; the colony and the docked ships, which the colony code attaches later, start absent and empty |
| Colonies.ArrivalsPartition | destiny/sociology/starships.py:268-278 | with every target a distinct settlement, the settlements together receive exactly the cargo |
| Colonies.GovernmentOpinions | destiny/sociology/starships.py:270-271 | the opinion of every settlement's government, in order |
| Colonies.FirstSuitable | destiny/sociology/starships.py:270-276 | the for-else search stops within the settlements or at their end |
| Colonies.FirstSuitableIsFirst | destiny/sociology/starships.py:270-276 | the index found suits the pop and no earlier one does; at the end none does |
| Colonies.Starship.constructor | destiny/sociology/starships.py:48-82 | a ship of the given design, docked, empty, with no clocks and not decommissioned |
| Colonies.Starship.Construct | destiny/sociology/starships.py:171-223 | the design Blueprint picks, a lifespan in 25..100 and the price; no chassis or engine is the max() error |
| Colonies.Starship.TravelTo | destiny/sociology/starships.py:93-119 | origin and destination are set first; too much cargo raises; otherwise the cargo is loaded and both clocks set from the travel time |
| Colonies.Starship.Transit | destiny/sociology/starships.py:121-132 | the clocks tick; the result is whether the objective clock reached 0 (None cannot be decremented); while the subjective clock runs the cargo becomes the living large pops, then what merge_small_pops' plan on the small ones emits |
| Colonies.Starship.TickClocks | destiny/sociology/starships.py:128-132 | the subjective clock counts down while truthy, then the objective one |
| Colonies.Starship.LiveThroughYear | destiny/sociology/starships.py:129 | the cargo becomes the living large pops in order, then what merge_small_pops' plan on the small ones emits, none empty |
| Colonies.Starship.Reset | destiny/sociology/starships.py:263-266 | the destination is forgotten and the cargo unloaded; nothing else changes |
| Colonies.Starship.OffloadToSettlement | destiny/sociology/starships.py:268-278 | each pop joins the first suiting settlement with happiness 1, or a random one at 0.75; no settlements with cargo is the empty-choice error |
| Colonies.Starship.Distribute | destiny/sociology/starships.py:269-278 | the crew, in order, each join the settlement placed for it, and each settlement gains exactly its arrivals |
| Colonies.Starship.OffloadNext | destiny/sociology/starships.py:270-278 | one pop joins its target with its welcome |
| Colonies.Starship.Join | destiny/sociology/starships.py:272 | the pop is appended to the target's pops |
| Colonies.Starship.Place | destiny/sociology/starships.py:270-277 | the first suiting settlement with welcome 1, else any settlement at 0.75 |
| Colonies.Starship.FindSuitable | destiny/sociology/starships.py:270-274 | the search returns the first suiting settlement |
| Colonies.Starship.SettlePlanet | destiny/sociology/starships.py:240-261 | the colony is named from the cargo's heaviest origin, starts with the ship's science and holds one settlement of the cargo; no cargo is the index error |
| Colonies.Starship.Gather | destiny/sociology/starships.py:256-259 | the cargo, made fully happy, forms the settlement |
| Colonies.Starship.Colonise | destiny/sociology/starships.py:251-261 | a fresh colony with the name and the settlement |
| Colonies.Starship.Offload | destiny/sociology/starships.py:225-238 | the ship lands or founds a colony, docks unless its service life is over, and is reset; a failed landing aborts before docking |
| Colonies.Starship.Land | destiny/sociology/starships.py:226-232 | the cargo joins the colony at the destination, or founds one that is returned |
| Colonies.OffloadedSnoc | destiny/sociology/starships.py:269-278 | one more placed pop extends what the loop has done |
| Colonies.Cheer | destiny/sociology/starships.py:256-257 | every pop's happiness is set; the cohorts are unchanged |
| Colonies.Threshold | destiny/sociology/inhabitedplanet.py:61 | the (level x 10)^3 threshold is 0 at level 0 and non-negative for non-negative levels |
| Colonies.UnlockableMembers | destiny/sociology/inhabitedplanet.py:68-70 | the unlockable nodes are exactly the undiscovered candidates, each once |
| Colonies.FrontierMembers | destiny/sociology/inhabitedplanet.py:66-70 | the frontier holds exactly the undiscovered options of the discoveries, each once |
| Colonies.InhabitedPlanet.constructor | destiny/sociology/inhabitedplanet.py:33-51 | a colony recorded on its planet, knowing only the tree's root, with level 0, base 1 and no surplus |
| Colonies.InhabitedPlanet.ScienceUpgrade | destiny/sociology/inhabitedplanet.py:59-76 | below the threshold nothing happens; otherwise it is paid, the level rises and one frontier node is discovered; an empty frontier is the empty-choice error |
| Colonies.InhabitedPlanet.BuildShips | destiny/sociology/inhabitedplanet.py:78-98 | ships of the best design are bought until the capacity is reached or a ship is unaffordable; the surplus pays exactly their cost and stays non-negative; each name is recycled |
| Colonies.InhabitedPlanet.Purchase | destiny/sociology/inhabitedplanet.py:80-98 | one pass keeps the books: a ship is bought only when affordable, and its name recycled |
| Colonies.InhabitedPlanet.BuyShip | destiny/sociology/inhabitedplanet.py:81-91 | a name is drawn and the best design quoted; an affordable ship is paid for and docked |
| Colonies.BooksStep | destiny/sociology/inhabitedplanet.py:88-91 | one purchase adds the capacity, pays the cost and docks the ship |
| Colonies.RenamedStep | destiny/sociology/inhabitedplanet.py:91-98 | one recycling keeps the name pool's balance |
| Colonies.FindFrontier | destiny/sociology/inhabitedplanet.py:66-70 | the options loop yields exactly the frontier |
| Colonies.Unlock | destiny/sociology/inhabitedplanet.py:68-70 | the inner loop appends each undiscovered, unlisted option |
| Colonies.PopulationAppend | destiny/sociology/inhabitedplanet.py:100-102 | a new settlement adds its population to the planet's |
| Migration.Classify | destiny/sociology/inhabitedplanet.py:166-171 | the unhappy pops, popped from the end, go to the colonists when below 0.5 on the settler/colonial axis and to the settlers otherwise, in the order popped |
| Migration.ClassifiedOnce | destiny/sociology/inhabitedplanet.py:166-171 | every unhappy pop becomes exactly one of a colonist or a settler; colonists are exactly those below 0.5 |
| Migration.HomeIsFirstSuiting | destiny/sociology/inhabitedplanet.py:175-180 | a settler's home is the first settlement of its opinion-hash bucket whose government suits it; with no home, none in the bucket does |
| Migration.PlaceSettlers | destiny/sociology/inhabitedplanet.py:173-182 | settlers popped from the end join their home or become offworld settlers, in that order; each settlement's pops gain exactly the settlers housed there; the governments' opinions are untouched |
| Migration.PlaceNext | destiny/sociology/inhabitedplanet.py:174-182 | one settler is housed exactly when it has a home, and only its home gains it |
| Migration.Join | destiny/sociology/inhabitedplanet.py:178 | the settler is appended to its home's pops |
| Migration.FindHome | destiny/sociology/inhabitedplanet.py:175-180 | the for-else search yields the first suiting settlement of the bucket, or none |
| Migration.UniformCapacity | destiny/sociology/inhabitedplanet.py:184 | ships of one capacity c carry c times their number |
| Migration.Equip | destiny/sociology/inhabitedplanet.py:184-188 | ships are bought only when the docked capacity falls short of the demand; afterwards the fleet carries the demand or the best design is unaffordable; new ships join the end of the docked ones |
| Migration.Shuffle | destiny/sociology/inhabitedplanet.py:189 | the shuffled fleet holds the same ships as often as before |
| Migration.SortByOrders | destiny/sociology/inhabitedplanet.py:208-210 | sorted puts the list in ascending key order and keeps every element as often as it was there |
| Migration.SortByStable | destiny/sociology/inhabitedplanet.py:208-210 | sorted is stable: elements of equal key keep their order |
| Migration.Reach | destiny/sociology/inhabitedplanet.py:194-198 | the neighbours walked before the break: a prefix all within range, stopped at the first one beyond it |
| Migration.ReachIs | destiny/sociology/inhabitedplanet.py:194-198 | the prefix a loop has walked when it breaks is Reach |
| Migration.Survey | destiny/sociology/inhabitedplanet.py:194-204 | the habitable planets of the stars in reach, nearest star first |
| Migration.Look | destiny/sociology/inhabitedplanet.py:202-204 | the habitable planets of one star, paired with its distance |
| Migration.MaxRange | destiny/sociology/inhabitedplanet.py:192 | max(ship.range) is the range of some ship and no ship's range exceeds it |
| Migration.Board | destiny/sociology/inhabitedplanet.py:233-236 | after the exemplar, colonists are popped from the end while any remain and the cargo is below capacity; the front of the queue stays |
| Migration.TakenLargestFirst | destiny/sociology/inhabitedplanet.py:228-236 | popping from the end of an ascending queue takes the largest keys first and leaves none larger |
| Migration.Launch | destiny/sociology/inhabitedplanet.py:217-238 | a docked ship that reaches the target leaves the fleet once; its cargo is the exemplar and the closest colonists up to capacity; the travel fails exactly when the ship cannot hold even the exemplar or its FTL speed is 0 |
| Migration.Fill | destiny/sociology/inhabitedplanet.py:225-236 | the exemplar plus the colonists closest to it by similarity, as many as capacity allows; together with those left they are all the colonists |
| Migration.Embark | destiny/sociology/inhabitedplanet.py:225-236 | the colonists popped from the similarity-sorted queue are the closest ones, closest first, and with the exemplar and those left form all the colonists |
| Migration.Closest | destiny/sociology/inhabitedplanet.py:228-236 | taking the largest Remoteness first is taking the most similar colonists first |
| Migration.VoyageStep | destiny/sociology/inhabitedplanet.py:223-238 | a departure that fits its ship keeps the books: every ship left or is docked, every mover boarded or waits |
| Migration.MaxRangeShrinks | destiny/sociology/inhabitedplanet.py:212-223 | removing a ship never lengthens the fleet's reach |
| Migration.Refocus | destiny/sociology/inhabitedplanet.py:212-213 | filtering the targets by the fleet's reach keeps every vacant site in reach |
| Migration.Colonise | destiny/sociology/inhabitedplanet.py:211-238 | each ship that leaves was docked, goes to a vacant site within its range and carries at most its capacity; each colonist boarded once or waits; the loop ends with no colonists, no ships, or no vacant site in reach |
| Migration.Sail | destiny/sociology/inhabitedplanet.py:212-238 | one turn either finds no target in reach and stops, or sends one ship, so the docked fleet shrinks |
| Migration.Stuck | destiny/sociology/inhabitedplanet.py:213-215 | with no target in the fleet's reach, no vacant site is |
| Migration.ColonisingStep | destiny/sociology/inhabitedplanet.py:211-238 | a colony ship leaving for a target in reach keeps the loop invariant |
| Migration.Retarget | destiny/sociology/inhabitedplanet.py:212-223 | after a ship leaves, the cut targets still hold every vacant site the remaining ships reach |
| Migration.QueuesOfIs | destiny/sociology/inhabitedplanet.py:260-262 | each colony's queue lists the settlers paired with it, in order |
| Migration.ProspectsOfIs | destiny/sociology/inhabitedplanet.py:263-265 | each settler's prospects list the colonies paired with it, in order |
| Migration.Demand | destiny/sociology/inhabitedplanet.py:249-268 | for each colony in reach, every settler one of its governments suits joins its queue and gains it as a prospect; a colony that gained anyone is settleable, appended once per visit |
| Migration.DemandStep | destiny/sociology/inhabitedplanet.py:252-268 | one more site adds exactly that site's pairs and settleable entry |
| Migration.Enlist | destiny/sociology/inhabitedplanet.py:255-266 | the settlers a colony's governments suit are paired with it in order; chosen iff there is one |
| Migration.EnlistNext | destiny/sociology/inhabitedplanet.py:256-266 | one settler is paired with the colony exactly when a government there suits it |
| Migration.WantsMember | destiny/sociology/inhabitedplanet.py:256-265 | every recorded pair joins a colony to a settler one of its governments suits |
| Migration.SurveyWelcomed | destiny/sociology/inhabitedplanet.py:249-268 | every settler on a colony's queue is suited by one of that colony's governments |
| Migration.WelcomedShrunk | destiny/sociology/inhabitedplanet.py:293-299 | queues that only lose entries stay welcomed |
| Migration.WithdrawnShrinks | destiny/sociology/inhabitedplanet.py:296-299 | withdrawing a boarded settler only shrinks the other candidates' queues and leaves the target's and all others untouched |
| Migration.Withdraw | destiny/sociology/inhabitedplanet.py:296-299 | the settler is removed from every prospect's queue but the target's; a queue not holding it is the list.remove ValueError |
| Migration.Load | destiny/sociology/inhabitedplanet.py:291-302 | settlers are popped from the end of the target's queue, each leaving the waiting list and the other queues; the loop stops with the queue empty or the ship full, never over capacity |
| Migration.Board1 | destiny/sociology/inhabitedplanet.py:292-301 | one settler boards: popped from the queue, removed from the waiting list (ValueError if absent) and from its other prospects |
| Migration.LoadStep | destiny/sociology/inhabitedplanet.py:292-301 | one settler boarding keeps the cargo loop invariant |
| Migration.Boards | destiny/sociology/inhabitedplanet.py:295-300 | the boarded settler's pop joins the cargo within capacity and it leaves the waiting list |
| Migration.Top | destiny/sociology/inhabitedplanet.py:275 | the last three entries, or all when there are fewer |
| Migration.Owing | destiny/sociology/inhabitedplanet.py:272 | exactly the colonies of the list with some settler still queued, and only those |
| Migration.Resorted | destiny/sociology/inhabitedplanet.py:271-274 | sorting the colonies still owed settlers keeps every such colony of the list and no other |
| Migration.ShrunkQueue | destiny/sociology/inhabitedplanet.py:291-299 | a queue that shrank is no longer than before |
| Migration.TrackedStep | destiny/sociology/inhabitedplanet.py:271-307 | a turn dropping only colonies owed nothing keeps the list tracking every colony still owed settlers |
| Migration.TopThree | destiny/sociology/inhabitedplanet.py:271-278 | the colony drawn from the top three of the demand-sorted list is wanted at least as much as any not among them |
| Migration.Dispatch | destiny/sociology/inhabitedplanet.py:270-307 | every ship that leaves was docked, stays within its range and capacity, and carries only pops the colony's governments suit; each settler boarded once or waits; the queues only shrank and no colony still owed settlers left the list; the loop stops only when the settlers or ships run out or the last turn stalled |
| Migration.Deliver | destiny/sociology/inhabitedplanet.py:271-307 | one turn keeps the invariant and only shrinks the queues, dropping only colonies owed nothing; it stalls, sending no ship, only when nothing is drawn or some colony drawn is beyond every docked ship, and otherwise one ship leaves for a drawn colony |
| Migration.Pick | destiny/sociology/inhabitedplanet.py:278-289 | the colony drawn is among the top three; the ship drawn reaches it; no ship is found only when none reaches it |
| Migration.Send | destiny/sociology/inhabitedplanet.py:289-304 | the ship leaves the docked list once and carries settlers off the colony's queue to that colony |
| Migration.DispatchingStep | destiny/sociology/inhabitedplanet.py:284-307 | a ship leaving with settlers from a colony's queue keeps the dispatch invariant |
| Migration.Greets | destiny/sociology/inhabitedplanet.py:282-304 | pops taken off a welcomed queue are welcome at that colony |
| Migration.LeaderOf | destiny/sociology/inhabitedplanet.py:324-329 | the first instigator the pop tolerates, none before it tolerated; past the end when there is none |
| Migration.FindLeader | destiny/sociology/inhabitedplanet.py:324-329 | the for-else loop finds LeaderOf |
| Migration.Rally | destiny/sociology/inhabitedplanet.py:321-329 | every non-instigator joins the group of the first instigator it tolerates, in order, or becomes a returner |
| Migration.GroupStep | destiny/sociology/inhabitedplanet.py:326 | a joiner adds one entry for its leader alone |
| Migration.FollowStep | destiny/sociology/inhabitedplanet.py:326 | a joiner lengthens its own leader's following and no other |
| Migration.Breakaway | destiny/sociology/inhabitedplanet.py:317-345 | with no followers everyone returns; otherwise the instigator with most followers founds a state with them, and the strays and the other instigators return |
| Migration.SendBack | destiny/sociology/inhabitedplanet.py:335-338 | the returners are the strays, then every instigator but the winner |
| Migration.Founding | destiny/sociology/inhabitedplanet.py:331-334 | the winner leads the most followers and its group is exactly their pops |
| Migration.Winning | destiny/sociology/inhabitedplanet.py:331-332 | the key max() picks over the group sizes leads the most followers and is followed by someone |
| Migration.BackersWeigh | destiny/sociology/inhabitedplanet.py:326-332 | an instigator's count is the number of its followers |
| Migration.Partition3 | destiny/sociology/inhabitedplanet.py:318-329 | three exclusive, covering tests split the settlers in three |
| Migration.LostFollowers | destiny/sociology/inhabitedplanet.py:318-338 | the strays and losing instigators go home, the winner and its followers found the state, and the followers of losing instigators are neither |
| Migration.ReturnHome | destiny/sociology/inhabitedplanet.py:311-350 | each settlement's pops gain exactly the returners from it, in order |
| Migration.GoHome | destiny/sociology/inhabitedplanet.py:312-350 | one returner rejoins its own settlement |
| Migration.ReturnersWithin | destiny/sociology/inhabitedplanet.py:318-338 | a breakaway's returners are among the settlers left over |
| Migration.FoundersWithin | destiny/sociology/inhabitedplanet.py:331-334 | a breakaway's founders are pops of the settlers left over |
| Migration.Unplaced | destiny/sociology/inhabitedplanet.py:309-350 | from Earth or with ten or fewer left, all return home; otherwise the breakaway decides; a new state holds exactly the founders and each settlement gains exactly its returners (the source raises a TypeError at :340 instead; see Left out) |
| Migration.Depart | destiny/sociology/inhabitedplanet.py:309-347 | the left-over settlers split into founders and returners as Departed states, drawn from those settlers |
| Migration.Establish | destiny/sociology/inhabitedplanet.py:340-350 | with founders a new state of exactly them is appended; then every returner rejoins its settlement (the source raises a TypeError at :340 first; see Left out) |
| Migration.Secede | destiny/sociology/inhabitedplanet.py:340-343 | Settlement.for_pops on the founders, without the undeclared founding_year keyword that raises a TypeError as written, appended to the planet's settlements |
| Migration.MigratePops | destiny/sociology/inhabitedplanet.py:157-356 | each unhappy pop is placed on the planet, shipped or left over, exactly once; ships leave within range and capacity; colony ships go to vacant planets and stop only when colonists or ships run out or none is in reach; settler ships go to welcoming colonies; the left-over pops found a state or return as Departed states |
| Migration.Sort | destiny/sociology/inhabitedplanet.py:166-182 | each unhappy pop ends up a colonist, placed in a suiting settlement of its opinion, or an offworld settler, exactly once |
| Migration.SortedOnce | destiny/sociology/inhabitedplanet.py:166-182 | Classify then PlaceSettlers put each unhappy pop in exactly one of the three lists |
| Migration.Conserved | destiny/sociology/inhabitedplanet.py:166-350 | the unhappy pops are exactly the placed, the shipped and the left-over ones |
| Migration.Voyages | destiny/sociology/inhabitedplanet.py:184-303 | shortfall purchase, shuffle, colony ships, then settler ships for offworld settlers plus unshipped colonists, keeping the books of the whole fleet; the colony ships stop only when colonists or ships run out or no vacant site is in reach |
| Migration.ShipLoops | destiny/sociology/inhabitedplanet.py:191-303 | the two loops on the shuffled fleet keep the books; colony ships stop only when colonists or ships run out or nothing is in reach; settler ships stop only when settlers or ships run out or the last turn stalled |
| Migration.VoyageJoin | destiny/sociology/inhabitedplanet.py:240-243 | the colony ships then the settler ships from those left docked keep the books of the whole fleet |
| Migration.ColonyShips | destiny/sociology/inhabitedplanet.py:191-238 | with ships and colonists at hand, the targets are the vacant surveyed planets sorted by distance, and colony ships go only to them, in reach; the loop stops only when colonists or ships run out or no target is in reach; otherwise nobody leaves |
| Migration.SettlerShips | destiny/sociology/inhabitedplanet.py:243-307 | with ships and settlers at hand, settler ships go only to colonies in reach that welcome their cargo, the queues only shrink, and the dispatch stops only when the settlers or ships run out or its last turn stalled; otherwise nobody leaves |
| Factions.SuffixPerHash | destiny/sociology/faction.py:7-40 | the suffix table has an entry for every opinion hash 0..31, with "league" for both 25 and 26 |
| Factions.CountryNounsInclude | destiny/sociology/faction.py:66-70 | every country's name is a noun option |
| Factions.NounsInclude | destiny/sociology/faction.py:62-70 | every member planet's name and every country's name is a noun option |
| Factions.CountryKindsInclude | destiny/sociology/faction.py:66-68 | one kind per country, the suffix of its government's opinion hash, in order |
| Factions.KindsInclude | destiny/sociology/faction.py:64-68 | every country of every member offers its kind |
| Factions.NoKinds | destiny/sociology/faction.py:68-73 | there are no kinds exactly when no member has a country, the case in which drawing the kind fails |
| Factions.Templates | destiny/sociology/faction.py:76-85 | the pattern list has three entries, because the missing commas join the literals |
| Factions.TemplatesNameFaction | destiny/sociology/faction.py:76-85 | every pattern contains both the noun and the kind |
| Factions.Faction.constructor | destiny/sociology/faction.py:87-91 | the members are a copy of the founding members, and the name is the one given |
| Factions.Faction.GenerateName | destiny/sociology/faction.py:61-85 | a pop without ancestry is the index error; no country means an empty kind choice; otherwise a pattern filled with a noun and a kind the members offer, a prefix and an adjective |
| Factions.Faction.Collect | destiny/sociology/faction.py:62-70 | the nouns (planet, then its countries and their pops' tags) and kinds of all members in order, or failure at an untagged pop |
| Factions.Faction.CollectNext | destiny/sociology/faction.py:64-70 | one more member extends the nouns and kinds by its own |
| Factions.Faction.Draw | destiny/sociology/faction.py:72-85 | the draw fails exactly when the nouns or the kinds are empty; otherwise the name is a pattern over drawn values |
| Factions.Faction.Gather | destiny/sociology/faction.py:65-70 | one planet offers its name, then each country's name and pop tags, and one kind per country |
| Factions.Faction.GatherNext | destiny/sociology/faction.py:66-70 | one more country extends the planet's nouns and kinds |
| Factions.Faction.PopTags | destiny/sociology/faction.py:69-70 | the primary ancestry tag of each pop, or failure at the first pop with none |
| Factions.Faction.Found | destiny/sociology/faction.py:87-91 | a fresh faction whose members are the founders and whose name is one of the patterns; it fails exactly when generate_name would |
| Mapping.GenerateSol | destiny/cartography/mapping.py:9-21 | Sol is a G2 star with eight planets, the first four solid and the rest gas giants, each orbit wider than the last |
| Mapping.ProperNamesMembers | destiny/cartography/mapping.py:42-44 | a proper name is exactly what follows "NAME " in one of the record's names |
| Mapping.Shortest | destiny/cartography/mapping.py:46 | min by length returns one of the names and none is shorter |
| Mapping.ShortestIsFirst | destiny/cartography/mapping.py:46 | on ties min keeps the first: every earlier name is strictly longer |
| Mapping.StarNameChoice | destiny/cartography/mapping.py:42-48 | without a "NAME " entry the record's own name is used; otherwise the shortest proper name, the first on ties |
| Mapping.LastFieldSuffix | destiny/cartography/mapping.py:54 | split(sep)[-1] is the part after the last separator, all of the string when there is none |
| Mapping.FirstFieldPrefix | destiny/cartography/mapping.py:63-65 | split(sep)[0] is the part before the first separator, all of the string when there is none |
| Mapping.SplitMany | destiny/cartography/mapping.py:53-54 | a string holding the separator splits into at least two fields |
| Mapping.SpectralClassLastSegment | destiny/cartography/mapping.py:52-54 | a class holding "/" is cut to the segment after its last "/"; the result holds no "/" |
| Mapping.SubclassPrefix | destiny/cartography/mapping.py:59-65 | a missing or empty subclass becomes "5", then is cut before its first "/" and then its first "-"; the result holds neither |
| Mapping.Normalise | destiny/cartography/mapping.py:37-73 | a record missing from either lookup is a KeyError; it is skipped exactly when its class is not O, B, A, F, G, K or M or its subclass does not parse; otherwise a star with the chosen name, class, subclass, position, luminosity and (default white) colour |
| Mapping.NormalisedClassified | destiny/cartography/mapping.py:52-72 | a record that is not skipped gives a star of a known class with a numeric subclass free of separators |
| Mapping.CatalogueShape | destiny/cartography/mapping.py:37-73 | the catalogue fails exactly when a record is missing from a lookup, and otherwise holds only classified stars |
| Mapping.CatalogueFails | destiny/cartography/mapping.py:38-50 | the KeyError arises exactly when some record is missing from one of the two lookups |
| Mapping.CatalogueClassified | destiny/cartography/mapping.py:37-73 | a catalogue that does not fail holds at most one star per record, each classified |
| Mapping.CatalogueStops | destiny/cartography/mapping.py:37-50 | the first missing lookup aborts the loop: the catalogue fails as that prefix did |
| Mapping.LoadStellarCatalogue | destiny/cartography/mapping.py:24-75 | Sol, then one star per record that is not skipped, in record order; a missing lookup is the KeyError |
| Mapping.CatalogueStartsWithSol | destiny/cartography/mapping.py:25 | the result starts with Sol and its eight planets, and every later star is classified |
| Serialisation.PlanetLettersDistinct | destiny/serialisation.py:67 | the letter table has 25 distinct letters |
| Serialisation.SerialisePlanet | destiny/serialisation.py:85-108 | a colony's planet takes the colony's name, another "<star>-<letter>" by its place (index 0 is "b"), failing from index 25 on; native life is present iff the life level is not none; the settlement record is present iff inhabited and holds its founding year, population by year and countries in order |
| Serialisation.PlanetNamesDistinct | destiny/serialisation.py:67-90 | two uninhabited planets of one star at different places get different names |
| Serialisation.SerialisePlanetsEach | destiny/serialisation.py:137 | the planets are serialised one by one, each with its own index, and the list fails iff one of them does |
| Serialisation.SerialisePlanetsFail | destiny/serialisation.py:137 | the list fails exactly when one planet does |
| Serialisation.SerialisePlanetsValues | destiny/serialisation.py:137 | a list that does not fail holds each planet's record at its place |
| Serialisation.SerialiseSystemPlanets | destiny/serialisation.py:119-138 | a system records its star's name and every planet in order, the i-th serialised with index i |
| Serialisation.SerialiseSystemsEach | destiny/serialisation.py:174 | the starmap's systems are the serialised stars in order, failing iff one does |
| Serialisation.FlattenMembers | destiny/serialisation.py:151-154 | a route occurs in the flattened transits iff it occurs in some year |
| Serialisation.TradeRoutesOf | destiny/serialisation.py:147-164 | every route's frequency list has one entry per year |
| Serialisation.SoFarStep | destiny/serialisation.py:153-154 | counting one transit adds one to that route in that year and changes no other count |
| Serialisation.TallyStep | destiny/serialisation.py:151-154 | the counting invariant survives one more transit, the route joining the order on first sight |
| Serialisation.TallyNextYear | destiny/serialisation.py:151-152 | a year counted to its end starts the next |
| Serialisation.CountTransits | destiny/serialisation.py:148-154 | the per-year totals are the years' lengths, and every route's count in every year is its number of transits then |
| Serialisation.TallyYear | destiny/serialisation.py:153-154 | the inner loop counts every transit of one year |
| Serialisation.RouteFrequencies | destiny/serialisation.py:161 | each year's frequency is the route's count over the year's total; a year without transits is the division by zero |
| Serialisation.SerialiseTradeRoutes | destiny/serialisation.py:147-164 | the loops compute TradeRoutesOf: one route per distinct (start, end) pair in first-transit order, with its shares |
| Serialisation.CountAllCovers | destiny/serialisation.py:154-161 | counting a year's transits against distinct keys covering them counts each transit once |
| Serialisation.SumOfShares | destiny/serialisation.py:161 | the shares add up to the counts covered over the year's total |
| Serialisation.SharesSumToOne | destiny/serialisation.py:151-162 | in every year with a transit the routes' shares add up to 1 |
| Serialisation.TradeRoutesShape | destiny/serialisation.py:147-162 | the routes are distinct, a pair has a route iff some transit joined it, and every share lies in [0,1] |
| Serialisation.SerialiseStarmap | destiny/serialisation.py:171-176 | every system, then the trade routes; a failing planet fails the whole, and so does a year without transits once some route exists |

## Left out

- Floating point: every `float` is an exact `real`, so rounding error is not modelled. Python's `round` is modelled as round-half-to-even on exact values.
- Random distributions: a random draw is a nondeterministic pick or a range-checked argument. The weights (`(1/d)**5` for colony targets, `population/distance` for trade destinations) and the retry loops that redraw a ship until one is in range are replaced by a pick among the ships that qualify.
- Star and planet physics (`cartography/star.py`, `cartography/planet.py`, `maths.py`): temperatures, gravity, orbital periods, habitability, life generation and distances are not modelled. A star's neighbours with their distances and its habitable planets are given fields. Planet generation in `load_stellar_catalogue` is a `generate` function argument.
- Shipyard.TravelTime: the sublight kinematics (`sqrt` and `acosh` in `starships.py:144-150,162-169`) are a given non-negative number of years, passed as an argument.
- I/O: file reading in `load_city_list` and `load_stellar_catalogue` is out; the lines and the parsed JSON records are arguments. The seeding loaders, the drivers, `print` calls, and the moved/emigrated/stayed counters of `migrate_pops`, which only feed a `print`, are also out.
- `uuid4` identities are abstract `Uuid` values. The pydantic models are plain datatypes.
- `InhabitedPlanet.process_year` (`inhabitedplanet.py:104-155`) is not part of this model. It calls `Settlement.process_year` with three arguments and unpacks four results, while `settlement.py` takes one argument and returns three. Each function is modelled against its own file.
- `Population.starve` (`pop.py:372-375`) is uncalled and is not part of this model.
- Settlements.Settlement.ForPops: `migrate_pops` calls it with a `founding_year` keyword (`inhabitedplanet.py:340`) that `for_pops` (`settlement.py:31`) does not declare. That call raises a `TypeError` as written. The model's ForPops takes no founding year, and Migration.Secede calls it without one.
- Migration.Secede: where `inhabitedplanet.py:340` raises a `TypeError` as written (the `founding_year` keyword above), the model founds the new state from the founders and appends it to the planet's settlements.
- Migration.Establish: as written, the `TypeError` at `inhabitedplanet.py:340` aborts `migrate_pops` before any state is founded and before any returner rejoins its settlement (`:348-350`). The model founds the state from the founders and then sends the returners home.
- Migration.Unplaced: on a planet other than Earth with more than ten settlers left over and at least one follower, the source raises that `TypeError`. The model instead founds a state of exactly the founders and returns the rest, through Migration.Establish.
- Serialisation.SerialisePlanet: `settlement.py` has no `founding_year`, `population_by_year`, `ancestries()`, `government_support()` or `uuid`, so a country's record (`Country.serialise`) is given as a value rather than computed from a settlement. Its planet also carries a `uuid` and an `inhabited` link that is empty for a planet never colonised. As written, `Planet` (planet.py:46-72) declares no `uuid`, and `inhabited` is only set when a colony is founded (inhabitedplanet.py:37), so serialisation.py:88 and :90 raise AttributeError for a planet that was never colonised; the model serialises such a planet as having no settlement.
- Serialisation.SerialiseStarmap: `Star` (star.py:9-33) and `Planet` (planet.py:46-72) declare no `uuid`, so serialisation.py:107 and :122 raise AttributeError as written; the model gives every star and planet an identifier, and treats a planet never colonised as uninhabited rather than failing at serialisation.py:90.
- Migration.Survey: a planet never colonised has no `inhabited` attribute as written (it is only set at inhabitedplanet.py:37), so the tests at inhabitedplanet.py:146, :203 and :253 raise AttributeError on such a planet; the model reads it as having no colony, which is what the tests evidently intend.
- Populations.Population.BirthsAndDeaths: requires a non-zero population instead of modelling the `ZeroDivisionError` that `pop.py:132` raises for an empty cohort. In the model no caller reaches it: Settlements.Settlement.ProcessYear requires every pop to have a positive population, which `life.py:24-38` ensures for the pops it returns each year.
- Life.ProcessBirthsAndDeaths: the new-generation pops that `life.py:21` appends to the caller's list are returned as `grown` instead. Aliasing of the caller's list is not captured. It does not state the parents' cohorts after they bequeath their descendents, nor the founded pops' ancestry, traits and generation. Life.Grown states the aged cohorts, the batches and the founded pops' totals.
- Text.ParseNat: accepts only bare decimal numerals. `int()` also accepts a sign, surrounding whitespace and underscores, which the ship names it reads never contain.
- Mapping.Normalise: the test that a subclass parses as a `float` is a simplified grammar: an optional sign, then digits with at most one `.` and at least one digit. `float()` also accepts surrounding whitespace, underscores, exponents, `inf` and `nan`, which are not recognised.
- Migration.Breakaway: states that the founding instigator leads the most followers. It does not state `max`'s tie-break (the first key in insertion order). Migration.Founding proves the model's choice is the first maximum of the tally.
- Migration.MigratePops: states each unhappy pop's fate and the new state. It does not restate, for every settlement, the list of pops that rejoined it. Migration.PlaceSettlers, Migration.ReturnHome and Migration.Establish state those lists phase by phase. It does not carry the settler ships' stop condition (settlers or ships ran out, or the last turn stalled) or the tie between the vacant sites and the survey. Migration.ShipLoops states the first and Migration.ColonyShips the second. Where the left-over settlers found a state, the source raises a `TypeError` at `inhabitedplanet.py:340` (see Migration.Establish); the model founds the state and sends the returners home, so MigratePops' new state and returners describe that model behaviour, not the source's abort. As written, `inhabitedplanet.py:184` sums the colony's own `planet.ships` before anything has assigned that list: it is first set by `process_year` at `:138`, after `migrate_pops` returns, and `build_ships` (`:90`) only appends to it. A colony's first `migrate_pops` therefore raises an AttributeError on a planet whose ships were never set; the model starts every planet with an empty list of docked ships.
- Migration.Demand: the source walks the neighbouring stars once for the settler ships. The model walks them first (Migration.Survey) and then surveys demand over the sites found. The result is the same.
- Settlements.Settlement.ProcessYear: its ghost `world` argument stands for every pop in the simulation. It names what the year's merging and promotion may modify, not which pops those are.
- Migration.PlaceSettlers: reads each government's opinion from a snapshot taken before the loop (`views`). It proves the loop changes only settlements' pops, so the snapshot stays exact.
- Migration.Voyages: does not carry the settler ships' stop condition or the tie between the vacant sites and the survey. Migration.ShipLoops and Migration.ColonyShips state them.
- Migration.Dispatch: states the queues it stops with as shrunk from the survey's and tracked by the list of colonies. It does not equate them with the settlers still waiting.
- Colonies.Starship.Colonise: `starships.py:251-253` builds the colony without the `founding_year` argument that `inhabitedplanet.py:33` requires, which raises a `TypeError` as written. The model founds the colony with an unconstrained founding year instead.
- Colonies.Starship.SettlePlanet: calls `pop.reset_wonderlust()` (`starships.py:258`), which no class defines, so it raises an `AttributeError` as written. The model treats the call as doing nothing.
- Colonies.Starship.OffloadToSettlement: the same undefined `reset_wonderlust()` call (`starships.py:278`) is treated as doing nothing.
- Colonies.Starship.Offload: `starships.py:227` reads `destination.inhabited`, which is set only when a colony is founded (`inhabitedplanet.py:37`), and `:234` appends to `destination.ships`, which is first assigned by a colony's `process_year` (`inhabitedplanet.py:138`). Offloading at a planet never colonised, or colonised in the current year, raises an AttributeError as written. The model starts every planet with no colony and no docked ships, so the offload goes through.
- Colonies.Starship.Land: the same read of `destination.inhabited` at `starships.py:227` raises an AttributeError on a planet never colonised. The model reads it as having no colony and founds one.
- Colonies.Planet.constructor: `planet.py:46-72` declares neither `inhabited` nor `ships`. The model starts them as no colony and no docked ships, which is what the colony code evidently expects; it does not model the AttributeErrors their absence raises (see Colonies.Starship.Offload and Migration.MigratePops).
- Governments.Government.ElectInnerCircle: does not state the pops' mergeable flags after the call. The election seats heirs and recruits no longer mergeable, as Governments.Government.ElectCouncil states for a single election.
- Governments.Government.PackCouncil: does not state the pops' mergeable flags after the call; a sampled inner circle keeps its flags and an elected one is Reseated as in ElectCouncil.
- Governments.Government.EstablishAutocratic: does not state the pops' mergeable flags after the call. Only the founding inside it (Governments.Government.FoundAutocratic) states them, as Refounded.
- Governments.Government.EstablishDictatorship: does not state the pops' mergeable flags after the call (the founding's dictator is no longer mergeable; the redrawn one keeps its flag).
- Governments.Government.EstablishAutocracy: does not state the pops' mergeable flags after the call (see Governments.Government.PackCouncil).
- Governments.Government.EstablishDemocratic: does not state the pops' mergeable flags after the call. Governments.Government.FoundDemocratic states them.
- Governments.Government.EstablishNewGovernment: does not state the pops' mergeable flags after the call, and for a dictatorship or autocracy states the new government as Installed from the inner circle rather than with its whole founding state.
- Governments.Government.Revolution: does not state the pops' mergeable flags after the call. A replacement is stated as fresh, formed and Installed; for a new democracy its founding state (founding year -1, the drawn term, the first election) is not stated.
- Governments.Government.Uprise: the same as Governments.Government.Revolution: no flags, and no founding state for a new democracy.
- Governments.Government.OverthrowCheck: the same as Governments.Government.Revolution.
- Governments.Government.Drift: does not state the pops' mergeable flags after the call, and states a new government through the drift plan, without a new democracy's founding state.
- Governments.Government.DriftCheck: the same as Governments.Government.Drift.
- Governments.Government.OverthrowUnlessCrashed: the same as Governments.Government.OverthrowCheck.
- Governments.Government.DriftUnlessCrashed: the same as Governments.Government.DriftCheck.
- Governments.Government.GovernAutocratic: does not state the pops' mergeable flags after the call. Governments.Government.ReconsiderAutocratic states them as Reseated; a replacement from the overthrow check is stated as Governments.Government.OverthrowCheck states it.
- Governments.Government.GovernDemocratic: does not state the pops' mergeable flags after the call. Governments.Government.ReconsiderDemocratic states them as Revoted; a replacement from the drift check is stated as Governments.Government.DriftCheck states it.
- Governments.Government.Govern: does not state the pops' mergeable flags after the call, nor a new democracy's founding state (see Governments.Government.GovernAutocratic and Governments.Government.GovernDemocratic).
- Settlements.Settlement.Establish: does not state the pops' mergeable flags after the call. Governments.Government.Create states them.
- Settlements.Settlement.ForPops: does not state the pops' mergeable flags after the call, nor the new government's founding state. Settlements.Settlement.Establish states the founding state as Inaugurated.
- Settlements.Settlement.Govern: does not state the pops' mergeable flags after the call, nor a new democracy's founding state, as for Governments.Government.Govern.
- Settlements.Settlement.RuleAndDisperse: the same as Settlements.Settlement.Govern.
- Settlements.Settlement.ProcessYear: does not state the pops' mergeable flags after the call beyond what its modifies clause allows, nor a new democracy's founding state.

## Behaviour kept as written

- `faction.py:76-85`: missing commas join adjacent literals, so the template list has three entries (Factions.Templates).
- `government.py:354`: `winner.mergable` is a typo, so elected representatives stay mergeable (Governments.Government.ElectRepresentatives modifies only the sitting council's flag and a lone pop's).
- `government.py:365,399`: the democracies' `infer_opinion` methods are never called; their parents' `infer_opinions` is modelled.
- `inhabitedplanet.py:306-307`: a colony that still has settlers queued is appended to the settleable list again, so it can appear twice (Migration.Deliver).
- `inhabitedplanet.py:324-338`: followers of an instigator that does not win are neither sent home nor settled (Migration.LostFollowers).
- `starships.py:101-113`: `travel_to` overwrites origin and destination before the capacity check raises (Colonies.Starship.TravelTo).
- `serialisation.py:161`: a year with no transits divides by zero as soon as any route exists (Serialisation.RouteFrequencies).
- `government.py:428-467`: with no loyal, unhappy or rebel pops, the violent branch fires (Politics.OverthrowNeedsLoyalty) and its draw from an empty list of kinds fails with an empty-choice fault.
