/** One simulated year of a settlement's populations (process_births_and_deaths):
    every pop ages a year; the pops that now have descendents are shuffled and
    taken, from the end of the shuffled queue, into greedy parent batches, and
    each batch whose descendents reach POP_TARGET_SIZE founds a new generation;
    finally the pops still alive are sorted into thriving pops, kept as they
    are, and small ones, which are merged. */
module Life {
  import opened Numeric
  import opened Politics
  import opened Populations
  import opened Generations

  // ---------------------------------------------------------------------------
  // Distinct pops and the shuffle.

  /** No population object appears twice. */
  ghost predicate Distinct(ps: seq<Population>)
  {
    forall i, j :: 0 <= i < j < |ps| ==> ps[i] != ps[j]
  }

  /** A shuffle of distinct pops holds each of them once. */
  lemma ShuffledDistinct(ps: seq<Population>, perm: seq<int>)
    requires IsPermutation(perm, |ps|) && Distinct(ps)
    ensures Distinct(Permuted(ps, perm))
    ensures forall i :: 0 <= i < |ps| ==> Permuted(ps, perm)[i] in ps
  {
  }

  /** The descendents of each pop, in order. */
  function DescendentCounts(ps: seq<Population>): (ds: seq<int>)
    reads ps
    ensures |ds| == |ps| && forall j :: 0 <= j < |ps| ==> ds[j] == ps[j].descendents
  {
    seq(|ps|, j requires 0 <= j < |ps| reads ps => ps[j].descendents)
  }

  /** [p for p in pops if p.descendents > 0] */
  function WithDescendents(ps: seq<Population>): (r: seq<Population>)
    reads ps
    ensures forall i :: 0 <= i < |r| ==> r[i] in ps && r[i].descendents > 0
    ensures forall j :: 0 <= j < |ps| && ps[j].descendents > 0 ==> ps[j] in r
    ensures Distinct(ps) ==> Distinct(r)
    decreases |ps|
  {
    if ps == [] then []
    else
      var init := ps[..|ps| - 1];
      assert ps == init + [ps[|ps| - 1]];
      var rest := WithDescendents(init);
      if ps[|ps| - 1].descendents > 0 then rest + [ps[|ps| - 1]] else rest
  }

  /** The positive descendent counts of a sequence of cohorts, in order. */
  function PositiveDescendents(cs: seq<Cohort>): seq<int>
  {
    if cs == [] then []
    else
      var rest := PositiveDescendents(cs[..|cs| - 1]);
      if cs[|cs| - 1].descendents > 0 then rest + [cs[|cs| - 1].descendents] else rest
  }

  lemma CountsSnoc(ps: seq<Population>, p: Population)
    ensures DescendentCounts(ps + [p]) == DescendentCounts(ps) + [p.descendents]
  {
  }

  /** Filtering the pops and then counting gives the positive counts of
      their cohorts. */
  lemma {:induction false} WithDescendentsCounts(ps: seq<Population>)
    ensures DescendentCounts(WithDescendents(ps)) == PositiveDescendents(Snapshots(ps))
    decreases |ps|
  {
    if ps != [] {
      var init, last := ps[..|ps| - 1], ps[|ps| - 1];
      WithDescendentsCounts(init);
      var cs := Snapshots(ps);
      assert cs[..|ps| - 1] == Snapshots(init);
      assert cs[|ps| - 1].descendents == last.descendents;
      var rest := WithDescendents(init);
      if last.descendents > 0 {
        calc {
          DescendentCounts(WithDescendents(ps));
          DescendentCounts(rest + [last]);
          { CountsSnoc(rest, last); }
          DescendentCounts(rest) + [last.descendents];
          PositiveDescendents(cs);
        }
      } else {
        assert WithDescendents(ps) == rest;
      }
    }
  }

  // ---------------------------------------------------------------------------
  // Greedy parent batches, on the descendent counts in the order they are
  // taken from the queue.

  /** The inner loop: counts are taken from the end of ds (the end of the
      queue) into batch while the batch sums to less than POP_TARGET_SIZE.
      The result is the batch and what is left. */
  function TakeBatch(batch: seq<int>, ds: seq<int>): (seq<int>, seq<int>)
    decreases |ds|
  {
    if Sum(batch) >= POP_TARGET_SIZE || ds == [] then (batch, ds)
    else TakeBatch(batch + [ds[|ds| - 1]], ds[..|ds| - 1])
  }

  /** Cutting the last count off ds leaves its prefixes alone and moves
      that count to the front of a reversed suffix. */
  lemma SuffixReversed(ds: seq<int>, m: nat)
    requires m < |ds|
    ensures ds[..|ds| - 1][..m] == ds[..m]
    ensures Reverse(ds[m..]) == [ds[|ds| - 1]] + Reverse(ds[..|ds| - 1][m..])
  {
    assert ds[m..][..|ds[m..]| - 1] == ds[..|ds| - 1][m..];
  }

  /** What is left is a prefix of ds and the batch gains the rest of ds, last
      count first, so no count is lost; the batch takes at least one count
      when it can. */
  lemma {:induction false} TakeBatchShape(batch: seq<int>, ds: seq<int>)
    ensures var r := TakeBatch(batch, ds);
      && |r.1| <= |ds| && r.1 == ds[..|r.1|]
      && r.0 == batch + Reverse(ds[|r.1|..])
      && (Sum(batch) < POP_TARGET_SIZE && ds != [] ==> |r.1| < |ds|)
    decreases |ds|
  {
    var r := TakeBatch(batch, ds);
    if Sum(batch) < POP_TARGET_SIZE && ds != [] {
      var last := ds[|ds| - 1];
      var init := ds[..|ds| - 1];
      TakeBatchShape(batch + [last], init);
      SuffixReversed(ds, |r.1|);
    } else {
      assert ds[|ds|..] == [] && ds[..|ds|] == ds;
      assert r.0 == batch + [];
    }
  }

  /** The batch and what is left hold the same total as before; the batch
      stops early only once it reaches POP_TARGET_SIZE, and its last count
      was taken while it was below. */
  lemma {:induction false} TakeBatchStops(batch: seq<int>, ds: seq<int>)
    ensures var r := TakeBatch(batch, ds);
      && Sum(r.0) + Sum(r.1) == Sum(batch) + Sum(ds)
      && (r.1 != [] ==> Sum(r.0) >= POP_TARGET_SIZE)
      && (|r.0| > |batch| ==> Sum(r.0[..|r.0| - 1]) < POP_TARGET_SIZE)
    decreases |ds|
  {
    if Sum(batch) < POP_TARGET_SIZE && ds != [] {
      var next := batch + [ds[|ds| - 1]];
      assert next[..|batch|] == batch;
      TakeBatchStops(next, ds[..|ds| - 1]);
      TakeBatchGrows(next, ds[..|ds| - 1]);
      var r := TakeBatch(next, ds[..|ds| - 1]);
      if |r.0| == |next| {
        assert r.0 == next;
        assert r.0[..|r.0| - 1] == batch;
      }
    }
  }

  /** The batch only grows, keeping what it held. */
  lemma {:induction false} TakeBatchGrows(batch: seq<int>, ds: seq<int>)
    ensures var r := TakeBatch(batch, ds); |r.0| >= |batch| && r.0[..|batch|] == batch
    decreases |ds|
  {
    if Sum(batch) < POP_TARGET_SIZE && ds != [] {
      var next := batch + [ds[|ds| - 1]];
      TakeBatchGrows(next, ds[..|ds| - 1]);
      assert next[..|batch|] == batch;
    }
  }

  lemma TakeBatchShrinks(ds: seq<int>)
    requires ds != []
    ensures |TakeBatch([], ds).1| < |ds|
  {
    TakeBatchShape([], ds);
    assert Sum([]) == 0;
  }

  /** The outer loop: the batches the counts ds fall into, in order. */
  function Batches(ds: seq<int>): seq<seq<int>>
    decreases |ds|
  {
    if ds == [] then []
    else
      var r := TakeBatch([], ds);
      TakeBatchShrinks(ds);
      [r.0] + Batches(r.1)
  }

  function Concat(bs: seq<seq<int>>): seq<int>
  {
    if bs == [] then [] else bs[0] + Concat(bs[1..])
  }

  /** How many batches reach POP_TARGET_SIZE, that is, found a generation. */
  function Promoted(bs: seq<seq<int>>): nat
  {
    if bs == [] then 0
    else (if Sum(bs[0]) >= POP_TARGET_SIZE then 1 else 0) + Promoted(bs[1..])
  }

  /** The descendents that move into new generations. */
  function PromotedTotal(bs: seq<seq<int>>): int
  {
    if bs == [] then 0
    else (if Sum(bs[0]) >= POP_TARGET_SIZE then Sum(bs[0]) else 0) + PromotedTotal(bs[1..])
  }

  lemma {:induction false} PromotedAppend(bs: seq<seq<int>>, b: seq<int>)
    ensures Promoted(bs + [b]) == Promoted(bs) + (if Sum(b) >= POP_TARGET_SIZE then 1 else 0)
    ensures PromotedTotal(bs + [b])
      == PromotedTotal(bs) + (if Sum(b) >= POP_TARGET_SIZE then Sum(b) else 0)
    decreases |bs|
  {
    if bs == [] {
      assert bs + [b] == [b];
    } else {
      assert (bs + [b])[1..] == bs[1..] + [b];
      PromotedAppend(bs[1..], b);
    }
  }

  /** The batches split the counts without gaps or overlaps, in the order
      they are taken from the end of the queue. */
  lemma {:induction false} BatchesPartition(ds: seq<int>)
    ensures Concat(Batches(ds)) == Reverse(ds)
    decreases |ds|
  {
    if ds != [] {
      var r := TakeBatch([], ds);
      TakeBatchShape([], ds);
      BatchesPartition(r.1);
      assert Batches(ds) == [r.0] + Batches(r.1);
      assert Concat(Batches(ds)) == r.0 + Concat(Batches(r.1));
      ReverseSplit(ds, |r.1|);
    }
  }

  /** Every batch holds at least one count and stops as soon as it reaches
      POP_TARGET_SIZE; only the last batch may fall short of it. */
  lemma {:induction false} BatchesGreedy(ds: seq<int>)
    ensures forall b :: 0 <= b < |Batches(ds)| ==>
              |Batches(ds)[b]| > 0 && Sum(Batches(ds)[b][..|Batches(ds)[b]| - 1]) < POP_TARGET_SIZE
    ensures forall b :: 0 <= b < |Batches(ds)| - 1 ==> Sum(Batches(ds)[b]) >= POP_TARGET_SIZE
    decreases |ds|
  {
    if ds != [] {
      var r := TakeBatch([], ds);
      TakeBatchShape([], ds);
      TakeBatchStops([], ds);
      assert Sum([]) == 0;
      BatchesGreedy(r.1);
      var bs := Batches(ds);
      assert bs == [r.0] + Batches(r.1);
      forall b | 1 <= b < |bs|
        ensures |bs[b]| > 0 && Sum(bs[b][..|bs[b]| - 1]) < POP_TARGET_SIZE
        ensures b < |bs| - 1 ==> Sum(bs[b]) >= POP_TARGET_SIZE
      {
        assert bs[b] == Batches(r.1)[b - 1];
      }
      if r.1 == [] {
        assert Batches(r.1) == [];
      }
    }
  }

  lemma {:induction false} ReverseSplit<T>(xs: seq<T>, m: nat)
    requires m <= |xs|
    ensures Reverse(xs) == Reverse(xs[m..]) + Reverse(xs[..m])
    decreases |xs|
  {
    if m < |xs| {
      var init := xs[..|xs| - 1];
      ReverseSplit(init, m);
      assert xs[m..][..|xs[m..]| - 1] == init[m..];
      assert init[..m] == xs[..m];
    } else {
      assert xs[m..] == [] && xs[..m] == xs;
    }
  }

  /** All but fewer than POP_TARGET_SIZE of the descendents found new
      generations, and every batch except possibly the last one founds one. */
  lemma {:induction false} BatchesLoss(ds: seq<int>)
    requires forall i :: 0 <= i < |ds| ==> ds[i] >= 0
    ensures Sum(ds) - POP_TARGET_SIZE < PromotedTotal(Batches(ds)) <= Sum(ds)
    ensures Promoted(Batches(ds)) + 1 >= |Batches(ds)|
    decreases |ds|
  {
    if ds != [] {
      var r := TakeBatch([], ds);
      TakeBatchShape([], ds);
      TakeBatchStops([], ds);
      assert Sum([]) == 0;
      SumNonNegative(ds);
      SumNonNegative(r.1);
      BatchesLoss(r.1);
      if r.1 == [] {
        assert Batches(r.1) == [];
      }
    }
  }

  // ---------------------------------------------------------------------------
  // The year of each pop.

  /** The draws one pop's year takes: rng.randint(10, 80) births and
      rng.randint(1, 10) accidental deaths per thousand, and the two
      rng.uniform(-0.1, 0.1) old-age draws of births_and_deaths. */
  datatype YearDraw = YearDraw(birthRate: int, accidentRate: int, startingDraw: real, descendentDraw: real)

  predicate InRange(d: YearDraw)
  {
    10 <= d.birthRate <= 80 && 1 <= d.accidentRate <= 10
    && -0.1 <= d.startingDraw <= 0.1 && -0.1 <= d.descendentDraw <= 0.1
  }

  function Aged(c: Cohort, d: YearDraw): Cohort
    requires c.starting + c.descendents != 0
  {
    AgeOneYear(c, d.birthRate, d.accidentRate, d.startingDraw, d.descendentDraw)
  }

  /** for pop in pops: pop.births_and_deaths(...); each pop stays valid and
      only its cohort changes. */
  method AgeAll(pops: seq<Population>) returns (draws: seq<YearDraw>)
    requires Distinct(pops)
    requires forall j :: 0 <= j < |pops| ==> pops[j].Valid() && pops[j].Population() > 0
    modifies pops
    ensures |draws| == |pops| && forall j :: 0 <= j < |pops| ==> InRange(draws[j])
    ensures forall j :: 0 <= j < |pops| ==>
              old(pops[j].Snapshot()).starting + old(pops[j].Snapshot()).descendents > 0
              && Parent(pops[j], Aged(old(pops[j].Snapshot()), draws[j]),
                     old(Standing(pops[j])), old(pops[j].descendentPops))
  {
    ghost var before := Snapshots(pops);
    ghost var standings := seq(|pops|, j requires 0 <= j < |pops| reads pops => Standing(pops[j]));
    ghost var links := seq(|pops|, j requires 0 <= j < |pops| reads pops => pops[j].descendentPops);
    draws := [];
    for i := 0 to |pops|
      invariant |draws| == i && forall j :: 0 <= j < i ==> InRange(draws[j])
      invariant forall j :: 0 <= j < i ==> Parent(pops[j], Aged(before[j], draws[j]), standings[j], links[j])
      invariant forall j :: i <= j < |pops| ==> Parent(pops[j], before[j], standings[j], links[j])
    {
      var d := AgeOne(pops[i]);
      draws := draws + [d];
    }
  }

  /** pop.births_and_deaths(rng.randint(10, 80), rng.randint(1, 10)). */
  method AgeOne(p: Population) returns (d: YearDraw)
    requires p.Valid() && p.Population() > 0
    modifies p
    ensures InRange(d)
    ensures Parent(p, Aged(old(p.Snapshot()), d), old(Standing(p)), old(p.descendentPops))
  {
    assert InRange(YearDraw(10, 1, 0.0, 0.0));
    d :| InRange(d);
    assert InRange(d);
    AgeOneYearShape(p.Snapshot(), d.birthRate, d.accidentRate, d.startingDraw, d.descendentDraw);
    var _ := p.BirthsAndDeaths(d.birthRate, d.accidentRate, d.startingDraw, d.descendentDraw);
  }

  // ---------------------------------------------------------------------------
  // Founding the new generations.

  /** Population.form_next_generation(parent_pops) with its random draws
      picked here; the new pop's founders are the parents' descendents. */
  method Promote(parents: seq<Population>) returns (newPop: Population)
    requires |parents| > 0 && Distinct(parents)
    requires forall j :: 0 <= j < |parents| ==> parents[j].Valid() && parents[j].descendents > 0
    modifies parents
    ensures fresh(newPop) && newPop.Valid()
    ensures newPop.startingPopulation == old(SumDescendents(parents))
    ensures forall j :: 0 <= j < |parents| ==> parents[j].Valid()
  {
    DescendentsOfSnapshots(parents);
    SumsOfValid(parents[1..]);
    ghost var still := seq(8, _ => 0.0);
    assert |still| == 8 && forall k :: 0 <= k < 8 ==> -0.125 <= still[k] <= 0.125;
    var draws :| |draws| == 8 && forall k :: 0 <= k < 8 ==> -0.125 <= draws[k] <= 0.125;
    var sizeDraw :| -1000 <= sizeDraw <= 1000;
    newPop := FormNextGeneration(parents, draws, sizeDraw);
  }

  /** The inner loop: pops are taken from the end of the queue into the
      parent batch while the batch's descendents sum to less than
      POP_TARGET_SIZE. The counts taken are the next greedy batch. */
  method TakeParents(queue: seq<Population>, ghost ds: seq<int>)
    returns (parents: seq<Population>, rest: seq<Population>, ghost taken: seq<int>)
    requires queue != [] && |ds| == |queue|
    requires forall j :: 0 <= j < |queue| ==> queue[j].descendents == ds[j]
    ensures |rest| < |queue| && rest == queue[..|rest|]
    ensures |parents| == |queue| - |rest|
    ensures forall i :: 0 <= i < |parents| ==> parents[i] == queue[|queue| - 1 - i]
    ensures TakeBatch([], ds) == (taken, ds[..|rest|])
    ensures SumDescendents(parents) == Sum(taken)
  {
    taken := [];
    var k := |queue|;
    parents := [];
    assert Sum([]) == 0;
    assert ds[..k] == ds;
    while SumDescendents(parents) < POP_TARGET_SIZE && k > 0
      invariant 0 <= k <= |queue| && |parents| == |queue| - k
      invariant forall i :: 0 <= i < |parents| ==> parents[i] == queue[|queue| - 1 - i]
      invariant TakeBatch(taken, ds[..k]) == TakeBatch([], ds)
      invariant SumDescendents(parents) == Sum(taken)
      decreases k
    {
      var p := queue[k - 1];
      assert ds[..k][..k - 1] == ds[..k - 1];
      assert (taken + [p.descendents])[..|taken|] == taken;
      SumsAppend(parents, [p]);
      assert SumDescendents([p]) == p.descendents + SumDescendents([]);
      parents := parents + [p];
      taken := taken + [p.descendents];
      k := k - 1;
    }
    rest := queue[..k];
  }

  /** The batching loop over the shuffled queue: batch after batch is taken
      from its end, and each batch whose descendents reach POP_TARGET_SIZE
      founds a new generation. The pops founded are as many as the promoted
      batches, and their founders are those batches' descendents. */
  method FoundGenerations(queue: seq<Population>) returns (founded: seq<Population>, ghost batches: seq<seq<int>>)
    requires Distinct(queue)
    requires forall j :: 0 <= j < |queue| ==> queue[j].Valid() && queue[j].descendents > 0
    modifies queue
    ensures batches == Batches(old(DescendentCounts(queue)))
    ensures |founded| == Promoted(batches) && SumStarting(founded) == PromotedTotal(batches)
    ensures forall i :: 0 <= i < |founded| ==> fresh(founded[i]) && founded[i].Valid()
    ensures forall j :: 0 <= j < |queue| ==> queue[j].Valid()
  {
    ghost var ds := DescendentCounts(queue);
    ghost var starts: seq<int> := [];
    founded, batches := [], [];
    var k := |queue|;
    assert ds[..k] == ds;
    assert [] + Batches(ds) == Batches(ds);
    assert BatchLog(ds, k, batches, starts);
    while k > 0
      invariant 0 <= k <= |queue|
      invariant forall j :: 0 <= j < k ==> queue[j].descendents == ds[j] > 0
      invariant BatchLog(ds, k, batches, starts)
      invariant Founders(founded, starts) && forall i :: 0 <= i < |founded| ==> fresh(founded[i])
      invariant forall i, j :: 0 <= i < |founded| && 0 <= j < |queue| ==> founded[i] != queue[j]
      invariant forall j :: 0 <= j < |queue| ==> queue[j].Valid()
      decreases k
    {
      var next, newPops;
      ghost var taken, newStarts;
      next, newPops, taken, newStarts := FoundNext(queue, k, ds, founded, starts);
      BatchLogStep(ds, k, next, batches, starts, taken, newStarts);
      batches := batches + [taken];
      founded := founded + newPops;
      starts := starts + newStarts;
      k := next;
    }
    assert ds[..0] == [];
    assert batches + [] == batches;
    FoundersSum(founded, starts);
  }

  /** The batches taken so far, the starting populations of the pops they
      founded, and the counts ds[..k] still in the queue. */
  ghost predicate BatchLog(ds: seq<int>, k: int, batches: seq<seq<int>>, starts: seq<int>)
  {
    0 <= k <= |ds| && batches + Batches(ds[..k]) == Batches(ds)
    && |starts| == Promoted(batches) && Sum(starts) == PromotedTotal(batches)
  }

  lemma BatchLogStep(ds: seq<int>, k: int, next: int, batches: seq<seq<int>>, starts: seq<int>,
                     taken: seq<int>, newStarts: seq<int>)
    requires BatchLog(ds, k, batches, starts) && 0 <= next < k
    requires Batches(ds[..k]) == [taken] + Batches(ds[..next])
    requires newStarts == (if Sum(taken) >= POP_TARGET_SIZE then [Sum(taken)] else [])
    ensures BatchLog(ds, next, batches + [taken], starts + newStarts)
  {
    PromotedAppend(batches, taken);
    SumAppend(starts, newStarts);
    AppendAssociates(batches, [taken], Batches(ds[..next]));
  }

  /** The pops founded so far: valid, with the given starting populations. */
  ghost predicate Founders(ps: seq<Population>, starts: seq<int>)
    reads ps
  {
    |ps| == |starts| && forall i :: 0 <= i < |ps| ==> ps[i].Valid() && ps[i].startingPopulation == starts[i]
  }

  lemma {:induction false} FoundersSum(ps: seq<Population>, starts: seq<int>)
    requires Founders(ps, starts)
    ensures SumStarting(ps) == Sum(starts)
    decreases |ps|
  {
    if ps != [] {
      var n := |ps| - 1;
      FoundersSum(ps[..n], starts[..n]);
      SumsAppend(ps[..n], [ps[n]]);
      assert ps == ps[..n] + [ps[n]];
      assert SumStarting([ps[n]]) == ps[n].startingPopulation + SumStarting([]);
    }
  }

  /** One turn of the batching loop, on the first k pops of the queue: the
      next batch is taken from their end and, if it reaches POP_TARGET_SIZE,
      founds one new pop. */
  method FoundNext(queue: seq<Population>, k: nat, ghost ds: seq<int>,
                   ghost founded: seq<Population>, ghost foundedStarts: seq<int>)
    returns (next: nat, newPops: seq<Population>, ghost taken: seq<int>, ghost starts: seq<int>)
    requires 0 < k <= |queue| == |ds| && Distinct(queue)
    requires forall j :: 0 <= j < k ==> queue[j].descendents == ds[j] > 0
    requires forall j :: 0 <= j < |queue| ==> queue[j].Valid()
    requires Founders(founded, foundedStarts)
    requires forall i, j :: 0 <= i < |founded| && 0 <= j < |queue| ==> founded[i] != queue[j]
    modifies queue
    ensures next < k
    ensures Batches(ds[..k]) == [taken] + Batches(ds[..next])
    ensures forall j :: 0 <= j < next ==> queue[j].descendents == ds[j]
    ensures forall j :: 0 <= j < |queue| ==> queue[j].Valid()
    ensures starts == (if Sum(taken) >= POP_TARGET_SIZE then [Sum(taken)] else [])
    ensures Founders(newPops, starts) && forall i :: 0 <= i < |newPops| ==> fresh(newPops[i])
    ensures Founders(founded + newPops, foundedStarts + starts)
  {
    var parents, rest;
    parents, rest, taken := TakeParents(queue[..k], ds[..k]);
    next := |rest|;
    assert ds[..k][..next] == ds[..next];
    newPops, starts := PromoteIfLarge(parents, taken, founded, foundedStarts);
  }

  /** The batch's parents found a new pop when their descendents reach
      POP_TARGET_SIZE; otherwise the batch is dropped. */
  method PromoteIfLarge(parents: seq<Population>, ghost taken: seq<int>,
                        ghost founded: seq<Population>, ghost foundedStarts: seq<int>)
    returns (newPops: seq<Population>, ghost starts: seq<int>)
    requires |parents| > 0 && Distinct(parents)
    requires forall j :: 0 <= j < |parents| ==> parents[j].Valid() && parents[j].descendents > 0
    requires SumDescendents(parents) == Sum(taken)
    requires Founders(founded, foundedStarts)
    requires forall i, j :: 0 <= i < |founded| && 0 <= j < |parents| ==> founded[i] != parents[j]
    modifies parents
    ensures forall j :: 0 <= j < |parents| ==> parents[j].Valid()
    ensures starts == (if Sum(taken) >= POP_TARGET_SIZE then [Sum(taken)] else [])
    ensures Founders(newPops, starts) && forall i :: 0 <= i < |newPops| ==> fresh(newPops[i])
    ensures Founders(founded + newPops, foundedStarts + starts)
  {
    if SumDescendents(parents) >= POP_TARGET_SIZE {
      var newPop := Promote(parents);
      newPops, starts := [newPop], [Sum(taken)];
    } else {
      newPops, starts := [], [];
    }
    assert Founders(founded, foundedStarts);
  }

  // ---------------------------------------------------------------------------
  // Sorting the survivors.

  /** pop.starting_population < POP_TARGET_SIZE / 20, with true division. */
  predicate Small(p: Population)
    reads p`startingPopulation
  {
    (p.startingPopulation as real) < (POP_TARGET_SIZE as real) / 20.0
  }

  /** The living pops (population > 0) that are small, or that are not, in
      order. */
  function Living(ps: seq<Population>, small: bool): (r: seq<Population>)
    reads ps`startingPopulation, ps`descendents
    ensures forall i :: 0 <= i < |r| ==> r[i] in ps && r[i].Population() > 0 && Small(r[i]) == small
    ensures forall j :: 0 <= j < |ps| && ps[j].Population() > 0 && Small(ps[j]) == small ==> ps[j] in r
    decreases |ps|
  {
    if ps == [] then []
    else
      var init := ps[..|ps| - 1];
      var p := ps[|ps| - 1];
      assert ps == init + [p];
      if p.Population() > 0 && Small(p) == small then Living(init, small) + [p] else Living(init, small)
  }

  /** The classification loop: living pops go to the small list or the kept
      list. Its middle branch, for pops with no starting population, cannot
      be reached: a pop that is not small has a positive starting
      population. */
  method Classify(ps: seq<Population>) returns (kept: seq<Population>, few: seq<Population>)
    ensures kept == Living(ps, false) && few == Living(ps, true)
  {
    kept, few := [], [];
    for i := 0 to |ps|
      invariant kept == Living(ps[..i], false) && few == Living(ps[..i], true)
    {
      assert ps[..i + 1][..i] == ps[..i];
      var p := ps[i];
      if p.Population() > 0 {
        if (p.startingPopulation as real) < (POP_TARGET_SIZE as real) / 20.0 {
          few := few + [p];
        } else if p.startingPopulation <= 0 {
          assert false;
        } else {
          kept := kept + [p];
        }
      }
    }
    assert ps[..|ps|] == ps;
  }

  // ---------------------------------------------------------------------------
  // The year.

  /** process_births_and_deaths. Every pop ages a year with its own draws;
      the pops with descendents, shuffled by perm, are batched greedily
      from the end of the shuffled queue, and each batch reaching
      POP_TARGET_SIZE founds a new pop, appended to pops (grown). The result
      keeps the living pops that are not small, in order, followed by the
      small ones merged. */
  method ProcessBirthsAndDeaths(pops: seq<Population>)
    returns (grown: seq<Population>, newPops: seq<Population>,
             ghost draws: seq<YearDraw>, ghost aged: seq<Cohort>, perm: seq<int>,
             ghost batches: seq<seq<int>>)
    requires Distinct(pops)
    requires forall j :: 0 <= j < |pops| ==> pops[j].Valid() && pops[j].Population() > 0
    modifies pops
    ensures Grown(pops, grown, draws, aged, perm, batches)
    ensures Survivors(grown, newPops)
  {
    grown, draws, aged, perm, batches := Grow(pops);
    newPops := SortSurvivors(grown);
  }

  /** process_births_and_deaths as a settlement or a ship sees it: the pops
      it ends with, and small and tail recording the small pops and what
      merging them gave, as the year leaves them. */
  method Survive(pops: seq<Population>)
    returns (ghost grown: seq<Population>, newPops: seq<Population>, ghost small: seq<Entry>, ghost tail: seq<Entry>)
    requires Distinct(pops)
    requires forall j :: 0 <= j < |pops| ==> pops[j].Valid() && pops[j].Population() > 0
    modifies pops
    ensures |grown| >= |pops| && grown[..|pops|] == pops
    ensures Survivors(grown, newPops) && Recorded(grown, newPops, small, tail)
    ensures small == Entries(Living(grown, true))
    ensures tail == Entries(newPops[|Living(grown, false)|..])
  {
    var perm;
    ghost var draws, aged, batches;
    grown, newPops, draws, aged, perm, batches := ProcessBirthsAndDeaths(pops);
    small, tail := Entries(Living(grown, true)), Entries(newPops[|Living(grown, false)|..]);
    TailRecorded(grown, newPops);
  }

  /** What the first two stages of the year leave: every pop aged a year
      with its own draws; the aged pops with descendents, shuffled by perm,
      batched greedily; and one fresh pop per batch reaching
      POP_TARGET_SIZE, appended to the pops, holding the promoted totals. */
  twostate predicate Grown(pops: seq<Population>, new grown: seq<Population>, draws: seq<YearDraw>,
                           aged: seq<Cohort>, perm: seq<int>, batches: seq<seq<int>>)
    reads grown
  {
    && |draws| == |pops| && |aged| == |pops|
    && (forall j :: 0 <= j < |pops| ==>
          InRange(draws[j])
          && old(pops[j].Snapshot()).starting + old(pops[j].Snapshot()).descendents > 0
          && aged[j] == Aged(old(pops[j].Snapshot()), draws[j]))
    && IsPermutation(perm, |PositiveDescendents(aged)|)
    && batches == Batches(Permuted(PositiveDescendents(aged), perm))
    && |grown| == |pops| + Promoted(batches) && grown[..|pops|] == pops
    && (forall i :: |pops| <= i < |grown| ==> fresh(grown[i]))
    && SumStarting(grown[|pops|..]) == PromotedTotal(batches)
    && forall i :: 0 <= i < |grown| ==> grown[i].Valid()
  }

  /** The first two stages of the year: ageing and founding. */
  method Grow(pops: seq<Population>)
    returns (grown: seq<Population>, ghost draws: seq<YearDraw>, ghost aged: seq<Cohort>, perm: seq<int>,
             ghost batches: seq<seq<int>>)
    requires Distinct(pops)
    requires forall j :: 0 <= j < |pops| ==> pops[j].Valid() && pops[j].Population() > 0
    modifies pops
    ensures Grown(pops, grown, draws, aged, perm, batches)
  {
    draws := AgeAll(pops);
    aged := Snapshots(pops);
    var founded;
    founded, perm, batches := ShuffleAndFound(pops);
    grown := pops + founded;
    assert grown[|pops|..] == founded;
  }

  /** pops_with_descendents, rng.sample's shuffle of it and the batching
      loop, on the aged pops. */
  method ShuffleAndFound(pops: seq<Population>)
    returns (founded: seq<Population>, perm: seq<int>, ghost batches: seq<seq<int>>)
    requires Distinct(pops)
    requires forall j :: 0 <= j < |pops| ==> pops[j].Valid()
    modifies pops
    ensures IsPermutation(perm, |PositiveDescendents(old(Snapshots(pops)))|)
    ensures batches == Batches(Permuted(PositiveDescendents(old(Snapshots(pops))), perm))
    ensures |founded| == Promoted(batches) && SumStarting(founded) == PromotedTotal(batches)
    ensures forall i :: 0 <= i < |founded| ==> fresh(founded[i]) && founded[i].Valid()
    ensures forall j :: 0 <= j < |pops| ==> pops[j].Valid()
  {
    var withDescendents := WithDescendents(pops);
    IdentityPermutation(|withDescendents|);
    perm :| IsPermutation(perm, |withDescendents|);
    var shuffled := Permuted(withDescendents, perm);
    ShuffledCounts(pops, perm);
    ShuffledDistinct(withDescendents, perm);
    founded, batches := FoundGenerations(shuffled);
    forall j | 0 <= j < |pops|
      ensures pops[j].Valid()
    {
    }
  }


  /** The counts of the shuffled pops are the shuffled positive counts. */
  lemma ShuffledCounts(ps: seq<Population>, perm: seq<int>)
    requires IsPermutation(perm, |WithDescendents(ps)|)
    ensures |PositiveDescendents(Snapshots(ps))| == |WithDescendents(ps)|
    ensures DescendentCounts(Permuted(WithDescendents(ps), perm))
            == Permuted(PositiveDescendents(Snapshots(ps)), perm)
  {
    WithDescendentsCounts(ps);
  }

  /** What the year returns, given the pops it ends with: the living pops
      that are not small, in order, then what merge_small_pops makes of the
      small ones (SurvivingCohorts and MergedTail). */
  ghost predicate Survivors(grown: seq<Population>, newPops: seq<Population>)
    reads grown, newPops
  {
    && SurvivingCohorts(grown, newPops)
    && MergedTail(Entries(Living(grown, true)), Entries(newPops[|Living(grown, false)|..]))
  }

  /** The head counts of the year's result: the living pops that are not
      small, in order, then pops that are either small living pops or new
      merged ones, holding exactly the small pops' starting population; none
      of them is empty. */
  ghost predicate SurvivingCohorts(grown: seq<Population>, newPops: seq<Population>)
    reads grown`startingPopulation, grown`descendents, grown`happiness, grown`children
    reads newPops`startingPopulation, newPops`descendents, newPops`happiness, newPops`children
  {
    var kept := Living(grown, false);
    && |newPops| >= |kept| && newPops[..|kept|] == kept
    && (forall i :: |kept| <= i < |newPops| ==> newPops[i] in Living(grown, true) || newPops[i] !in grown)
    && SumStarting(newPops[|kept|..]) == SumStarting(Living(grown, true))
    && (forall i :: 0 <= i < |newPops| ==> newPops[i].Valid())
    && forall i :: 0 <= i < |newPops| ==> newPops[i].Population() > 0
  }

  /** The pops after the kept ones (tail) are, one by one, what the steps of
      merge_small_pops' plan on the small pops emit: the small pop itself
      when it passes through, or a fresh mergeable pop holding its group's
      merged cohort and mean traits. */
  ghost predicate MergedTail(small: seq<Entry>, tail: seq<Entry>)
  {
    EntriesTagged(small) && EntriesRealise(tail, MergePlan(small))
  }

  /** The year's survivors, with the merging of the small pops recorded as
      the year left it: small lists the small pops, tail the pops after the
      kept ones, and tail is what merge_small_pops' plan on small emits. */
  ghost predicate Recorded(grown: seq<Population>, newPops: seq<Population>, small: seq<Entry>, tail: seq<Entry>)
    reads grown`startingPopulation, grown`descendents, grown`happiness, grown`children
    reads newPops`startingPopulation, newPops`descendents, newPops`happiness, newPops`children
  {
    && SurvivingCohorts(grown, newPops)
    && MergedTail(small, tail) && PopsOf(small) == Living(grown, true)
    && |newPops| >= |Living(grown, false)| && PopsOf(tail) == newPops[|Living(grown, false)|..]
  }

  /** The entries Survivors speaks of list the small pops and the pops
      after the kept ones. */
  lemma TailRecorded(grown: seq<Population>, newPops: seq<Population>)
    requires Survivors(grown, newPops)
    ensures |newPops| >= |Living(grown, false)|
    ensures PopsOf(Entries(Living(grown, true))) == Living(grown, true)
    ensures PopsOf(Entries(newPops[|Living(grown, false)|..])) == newPops[|Living(grown, false)|..]
  {
    EntriesDescribe(Living(grown, true));
    DescribedPops(Entries(Living(grown, true)), Living(grown, true));
    EntriesDescribe(newPops[|Living(grown, false)|..]);
    DescribedPops(Entries(newPops[|Living(grown, false)|..]), newPops[|Living(grown, false)|..]);
  }

  /** The kept pops followed by what merging the small ones gives are
      survivors of the year. */
  lemma MergedSurvivors(grown: seq<Population>, kept: seq<Population>, few: seq<Population>, merged: seq<Population>)
    requires kept == Living(grown, false) && few == Living(grown, true)
    requires forall i :: 0 <= i < |grown| ==> grown[i].Valid()
    requires forall i :: 0 <= i < |merged| ==> merged[i].Valid()
    requires forall i :: 0 <= i < |merged| ==> merged[i] in few || merged[i] !in grown
    requires SumStarting(merged) == SumStarting(few)
    requires forall i :: 0 <= i < |merged| ==> merged[i].Population() > 0
    requires EntriesTagged(Entries(few)) && Realises(merged, MergePlan(Entries(few)))
    ensures Survivors(grown, kept + merged)
  {
    var newPops := kept + merged;
    assert newPops[|kept|..] == merged;
    RealisedEntries(merged, MergePlan(Entries(few)));
    MergedCohorts(grown, kept, few, merged);
  }

  /** The head counts of the kept pops followed by the merged ones are those
      of survivors of the year. */
  lemma MergedCohorts(grown: seq<Population>, kept: seq<Population>, few: seq<Population>, merged: seq<Population>)
    requires kept == Living(grown, false) && few == Living(grown, true)
    requires forall i :: 0 <= i < |grown| ==> grown[i].Valid()
    requires forall i :: 0 <= i < |merged| ==> merged[i].Valid()
    requires forall i :: 0 <= i < |merged| ==> merged[i] in few || merged[i] !in grown
    requires SumStarting(merged) == SumStarting(few)
    requires forall i :: 0 <= i < |merged| ==> merged[i].Population() > 0
    ensures SurvivingCohorts(grown, kept + merged)
  {
    var newPops := kept + merged;
    assert newPops[..|kept|] == kept;
    assert newPops[|kept|..] == merged;
    forall i | |kept| <= i < |newPops|
      ensures newPops[i] in Living(grown, true) || newPops[i] !in grown
      ensures newPops[i].Valid() && newPops[i].Population() > 0
    {
      assert newPops[i] == merged[i - |kept|];
    }
    forall i | 0 <= i < |kept|
      ensures newPops[i].Valid() && newPops[i].Population() > 0
    {
      assert newPops[i] == kept[i] && kept[i] in grown;
    }
  }

  /** The last stage of the year: the classification loop, then
      merge_small_pops on the small pops if there are any. */
  method SortSurvivors(grown: seq<Population>) returns (newPops: seq<Population>)
    requires forall i :: 0 <= i < |grown| ==> grown[i].Valid()
    ensures Survivors(grown, newPops)
  {
    var kept, few := Classify(grown);
    var merged := MergeFew(few, grown);
    assert forall i :: 0 <= i < |merged| ==> merged[i] in few || merged[i] !in grown;
    MergedSurvivors(grown, kept, few, merged);
    newPops := kept + merged;
  }

  /** merge_small_pops on the small pops, when there are any: the result is
      what its merge plan on them emits, and holds exactly their founders, in
      pops of their own or new ones, none of them empty. */
  method MergeFew(few: seq<Population>, ghost grown: seq<Population>) returns (merged: seq<Population>)
    requires forall i :: 0 <= i < |few| ==> few[i].Valid() && few[i].Population() > 0
    ensures Living(grown, false) == old(Living(grown, false)) && Living(grown, true) == old(Living(grown, true))
    ensures forall i :: 0 <= i < |merged| ==> merged[i].Valid() && merged[i].Population() > 0
    ensures forall i :: 0 <= i < |merged| ==> merged[i] in few || fresh(merged[i])
    ensures SumStarting(merged) == SumStarting(few)
    ensures EntriesTagged(Entries(few)) && Realises(merged, MergePlan(Entries(few)))
  {
    merged := [];
    if few != [] {
      merged := MergeSmallPops(few);
    }
    ValidTagged(few);
    EntriesDescribe(few);
    DescribedTagged(Entries(few), few);
  }
}
