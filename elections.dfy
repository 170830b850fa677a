/** The ballot of a representative democracy's election: who may stand, how
    each voter ranks the candidates, and how the votes are counted into the
    council that wins. */
module Elections {
  import opened Numeric
  import opened Politics
  import opened Populations

  // ---------------------------------------------------------------------------
  // Standing and voting

  /** The pops whose political engagement is above 0.5: the pool candidates
      for a representative council are drawn from. */
  function Engaged(ps: seq<Population>): (r: seq<Population>)
    ensures |r| <= |ps|
    ensures forall i :: 0 <= i < |r| ==> r[i] in ps && r[i].PoliticalEngagement() > 0.5
    ensures forall i :: 0 <= i < |ps| && ps[i].PoliticalEngagement() > 0.5 ==> ps[i] in r
  {
    if ps == [] then []
    else
      var last := ps[|ps| - 1];
      assert forall i :: 0 <= i < |ps| - 1 ==> ps[i] == ps[..|ps| - 1][i];
      Engaged(ps[..|ps| - 1]) + (if last.PoliticalEngagement() > 0.5 then [last] else [])
  }

  /** The pool candidates are drawn from: the engaged pops, or every pop when
      none is engaged. */
  function CandidatePool(ps: seq<Population>): (r: seq<Population>)
    ensures r == [] <==> ps == []
    ensures forall i :: 0 <= i < |r| ==> r[i] in ps
  {
    if Engaged(ps) != [] then Engaged(ps) else ps
  }

  /** The candidates of an election: rng.sample of the pool, three per seat
      or the whole pool when it is smaller. */
  method Nominate(pops: seq<Population>, size: nat) returns (candidates: seq<Population>)
    ensures |candidates| == Min(|CandidatePool(pops)|, 3 * size)
    ensures IsSample(candidates, CandidatePool(pops))
    ensures forall i :: 0 <= i < |candidates| ==> candidates[i] in pops
  {
    var pool := CandidatePool(pops);
    candidates := Sample(pool, Min(|pool|, 3 * size));
  }

  /** A pop votes when it is not standing and its political engagement
      reaches the voting threshold. */
  predicate IsVoter(p: Population, candidates: seq<Population>, threshold: real)
  {
    p !in candidates && p.PoliticalEngagement() >= threshold
  }

  // ---------------------------------------------------------------------------
  // Ranking: sorted(choices, key=...), a stable sort

  /** Items in nondecreasing order of their keys. */
  predicate SortedBy<T>(r: seq<T>, key: T -> real)
  {
    forall i, j :: 0 <= i < j < |r| ==> key(r[i]) <= key(r[j])
  }

  /** Places x after every item whose key is at most x's, so that items with
      equal keys keep their order (InsertBySorted: a sorted list stays
      sorted). */
  function InsertBy<T>(x: T, r: seq<T>, key: T -> real): (s: seq<T>)
    ensures |s| == |r| + 1
    ensures multiset(s) == multiset(r) + multiset{x}
    ensures forall k :: 0 <= k < |s| ==> s[k] == x || s[k] in r
  {
    if r == [] then [x]
    else
      var last := r[|r| - 1];
      if key(last) <= key(x) then r + [x]
      else
        var front := r[..|r| - 1];
        assert r == front + [last];
        InsertBy(x, front, key) + [last]
  }

  /** Inserting into a sorted list keeps it sorted. */
  lemma {:induction false} InsertBySorted<T>(x: T, r: seq<T>, key: T -> real)
    requires SortedBy(r, key)
    ensures SortedBy(InsertBy(x, r, key), key)
    decreases |r|
  {
    if r != [] {
      var last := r[|r| - 1];
      if key(x) < key(last) {
        var front := r[..|r| - 1];
        assert r == front + [last];
        InsertBySorted(x, front, key);
        var t := InsertBy(x, front, key);
        forall k | 0 <= k < |t| ensures key(t[k]) <= key(last) {
          if t[k] != x {
            var m :| 0 <= m < |front| && front[m] == t[k];
            assert r[m] == front[m];
          }
        }
        SortedSnoc(t, last, key);
      } else {
        SortedSnoc(r, x, key);
      }
    }
  }

  /** An item whose key is at least every key of a sorted list may follow
      it. */
  lemma SortedSnoc<T>(t: seq<T>, y: T, key: T -> real)
    requires SortedBy(t, key)
    requires forall k :: 0 <= k < |t| ==> key(t[k]) <= key(y)
    ensures SortedBy(t + [y], key)
  {
  }

  /** The stable insertion sort by key (SortBySorted: its result is
      sorted). */
  function SortBy<T>(xs: seq<T>, key: T -> real): (r: seq<T>)
    ensures |r| == |xs|
    ensures multiset(r) == multiset(xs)
  {
    if xs == [] then []
    else
      var front := xs[..|xs| - 1];
      assert xs == front + [xs[|xs| - 1]];
      InsertBy(xs[|xs| - 1], SortBy(front, key), key)
  }

  /** The stable sort leaves its items in nondecreasing order of their
      keys. */
  lemma {:induction false} SortBySorted<T>(xs: seq<T>, key: T -> real)
    ensures SortedBy(SortBy(xs, key), key)
    decreases |xs|
  {
    if xs != [] {
      var front := xs[..|xs| - 1];
      SortBySorted(front, key);
      InsertBySorted(xs[|xs| - 1], SortBy(front, key), key);
    }
  }

  /** Inserting x after every item whose key is at most its own keeps the
      items of each key in their order, with x last among those of its own
      key. */
  lemma {:induction false} InsertByStable<T>(x: T, r: seq<T>, key: T -> real, c: real)
    requires SortedBy(r, key)
    ensures Filter(InsertBy(x, r, key), OfKey(key, c))
              == Filter(r, OfKey(key, c)) + (if key(x) == c then [x] else [])
    decreases |r|
  {
    if r != [] {
      var last := r[|r| - 1];
      var front := r[..|r| - 1];
      assert r == front + [last];
      if key(last) <= key(x) {
        assert InsertBy(x, r, key) == r + [x];
        FilterSnoc(r, x, OfKey(key, c));
      } else {
        assert SortedBy(front, key);
        InsertByStable(x, front, key, c);
        InsertBeforeLast(x, front, last, key, c);
      }
    }
  }

  /** The step of InsertByStable where x goes before the last item, whose
      key is larger. */
  lemma InsertBeforeLast<T>(x: T, front: seq<T>, last: T, key: T -> real, c: real)
    requires key(x) < key(last)
    requires Filter(InsertBy(x, front, key), OfKey(key, c))
               == Filter(front, OfKey(key, c)) + (if key(x) == c then [x] else [])
    ensures Filter(InsertBy(x, front + [last], key), OfKey(key, c))
              == Filter(front + [last], OfKey(key, c)) + (if key(x) == c then [x] else [])
  {
    var keep := OfKey(key, c);
    var r := front + [last];
    var t := InsertBy(x, front, key);
    InsertByBeforeLast(x, front, last, key);
    FilterSnoc(t, last, keep);
    FilterSnoc(front, last, keep);
    var xs, ls := if key(x) == c then [x] else [], if key(last) == c then [last] else [];
    assert xs == [] || ls == [];
    SwapEmpty(Filter(t, keep), Filter(front, keep), xs, ls);
  }

  /** Appending two lists, one of them empty, in either order. */
  lemma SwapEmpty<T>(a: seq<T>, b: seq<T>, xs: seq<T>, ls: seq<T>)
    requires a == b + xs && (xs == [] || ls == [])
    ensures a + ls == b + ls + xs
  {
    if xs == [] {
      assert a == b;
    } else {
      assert ls == [];
    }
  }

  /** An item with a smaller key than the last goes in before it. */
  lemma InsertByBeforeLast<T>(x: T, front: seq<T>, last: T, key: T -> real)
    requires key(x) < key(last)
    ensures InsertBy(x, front + [last], key) == InsertBy(x, front, key) + [last]
  {
    var r := front + [last];
    assert r[..|r| - 1] == front;
  }

  /** Filtering a list with one more item at its end. */
  lemma FilterSnoc<T>(r: seq<T>, y: T, keep: T -> bool)
    ensures Filter(r + [y], keep) == Filter(r, keep) + (if keep(y) then [y] else [])
  {
    FilterAppend(r, [y], keep);
    assert Filter([y], keep) == (if keep(y) then [y] else []) + Filter([y][1..], keep);
  }

  /** The sort is stable: the items of any one key come out in the order
      they went in. */
  lemma {:induction false} SortByStable<T>(xs: seq<T>, key: T -> real, c: real)
    ensures Filter(SortBy(xs, key), OfKey(key, c)) == Filter(xs, OfKey(key, c))
    decreases |xs|
  {
    if xs != [] {
      var front := xs[..|xs| - 1];
      var last := xs[|xs| - 1];
      assert xs == front + [last];
      SortByStable(front, key, c);
      SortBySorted(front, key);
      InsertByStable(last, SortBy(front, key), key, c);
      FilterAppend(front, [last], OfKey(key, c));
    }
  }

  /** Candidates in order of their distance from the voter, closest first. */
  ghost predicate RankedFor(r: seq<Population>, voter: Population)
  {
    forall i, j :: 0 <= i < j < |r| ==> r[i].SimilarityTo(voter) <= r[j].SimilarityTo(voter)
  }

  /** sorted(choices, key=lambda pop: pop.similarity_to(voter)): the choices
      reordered by distance from the voter, ties in their order (RankRanked:
      closest first). */
  function Rank(choices: seq<Population>, voter: Population): (r: seq<Population>)
    ensures |r| == |choices|
    ensures multiset(r) == multiset(choices)
  {
    SortBy(choices, DistanceFrom(voter))
  }

  /** The key Rank sorts by: a candidate's distance from the voter. */
  function DistanceFrom(voter: Population): Population -> real
  {
    (p: Population) => p.SimilarityTo(voter)
  }

  /** The ranked choices run from the closest to the voter to the
      farthest. */
  lemma RankRanked(choices: seq<Population>, voter: Population)
    ensures RankedFor(Rank(choices, voter), voter)
  {
    SortBySorted(choices, DistanceFrom(voter));
  }

  /** The ranking is stable: the candidates at any one distance d from the
      voter come out in the order they were offered. */
  lemma RankStable(choices: seq<Population>, voter: Population, d: real)
    ensures Filter(Rank(choices, voter), OfKey(DistanceFrom(voter), d)) == Filter(choices, OfKey(DistanceFrom(voter), d))
  {
    SortByStable(choices, DistanceFrom(voter), d);
  }

  // ---------------------------------------------------------------------------
  // Ballots

  /** The candidates sharing opinion hash h, in order (candidates_by_opinion). */
  function Kindred(candidates: seq<Population>, h: nat): (r: seq<Population>)
    ensures |r| <= |candidates|
    ensures forall i :: 0 <= i < |r| ==> r[i] in candidates && r[i].OpinionHash() == h
    ensures forall i :: 0 <= i < |candidates| && candidates[i].OpinionHash() == h ==> candidates[i] in r
  {
    if candidates == [] then []
    else
      var last := candidates[|candidates| - 1];
      assert forall i :: 0 <= i < |candidates| - 1 ==> candidates[i] == candidates[..|candidates| - 1][i];
      Kindred(candidates[..|candidates| - 1], h) + (if last.OpinionHash() == h then [last] else [])
  }

  /** Whom a voter considers: the candidates of its own opinion hash, or every
      candidate when fewer than size of them stand. */
  function Choices(candidates: seq<Population>, size: nat, voter: Population): (r: seq<Population>)
    ensures forall i :: 0 <= i < |r| ==> r[i] in candidates
    ensures |Kindred(candidates, voter.OpinionHash())| >= size ==> r == Kindred(candidates, voter.OpinionHash())
    ensures |Kindred(candidates, voter.OpinionHash())| < size ==> r == candidates
  {
    var own := Kindred(candidates, voter.OpinionHash());
    if |own| < size then candidates else own
  }

  /** A voter's ballot: the size candidates it considers closest to its own
      opinion, closest first. */
  function Ballot(candidates: seq<Population>, size: nat, voter: Population): (b: seq<Population>)
    ensures |b| == Min(size, |Choices(candidates, size, voter)|)
    ensures forall i :: 0 <= i < |b| ==> b[i] in candidates
    ensures |Kindred(candidates, voter.OpinionHash())| >= size ==>
      forall i :: 0 <= i < |b| ==> b[i].OpinionHash() == voter.OpinionHash()
  {
    var r := Rank(Choices(candidates, size, voter), voter);
    var b := r[..Min(size, |r|)];
    forall i | 0 <= i < |b| ensures b[i] in Choices(candidates, size, voter) {
      assert b[i] in multiset(r);
    }
    b
  }

  /** A ballot runs from the candidate closest to the voter to the
      farthest. */
  lemma BallotRanked(candidates: seq<Population>, size: nat, voter: Population)
    ensures RankedFor(Ballot(candidates, size, voter), voter)
  {
    RankRanked(Choices(candidates, size, voter), voter);
  }

  /** Nobody the voter considers but leaves off the ballot is closer to it
      than anyone on the ballot. */
  lemma BallotClosest(candidates: seq<Population>, size: nat, voter: Population)
    ensures var b := Ballot(candidates, size, voter);
      forall c :: c in Choices(candidates, size, voter) && c !in b ==>
        forall i :: 0 <= i < |b| ==> b[i].SimilarityTo(voter) <= c.SimilarityTo(voter)
  {
    var choices := Choices(candidates, size, voter);
    var r := Rank(choices, voter);
    RankRanked(choices, voter);
    var b := Ballot(candidates, size, voter);
    assert b == r[..Min(size, |r|)];
    forall c | c in choices && c !in b
      ensures forall i :: 0 <= i < |b| ==> b[i].SimilarityTo(voter) <= c.SimilarityTo(voter)
    {
      assert c in multiset(r);
      var k :| 0 <= k < |r| && r[k] == c;
      assert k >= |b|;
    }
  }

  // ---------------------------------------------------------------------------
  // Counting

  /** One vote for every candidate on a ballot, in ballot order. */
  function VotesOf(ballot: seq<Population>): (e: seq<(Population, int)>)
    ensures |e| == |ballot|
    ensures forall i :: 0 <= i < |e| ==> e[i] == (ballot[i], 1)
  {
    seq(|ballot|, i requires 0 <= i < |ballot| => (ballot[i], 1))
  }

  /** The voters among the pops, in order (the generator of voters). */
  function Voters(pops: seq<Population>, candidates: seq<Population>, threshold: real): (r: seq<Population>)
    ensures |r| <= |pops|
    ensures forall i :: 0 <= i < |r| ==> r[i] in pops && IsVoter(r[i], candidates, threshold)
    ensures forall i :: 0 <= i < |pops| && IsVoter(pops[i], candidates, threshold) ==> pops[i] in r
  {
    if pops == [] then []
    else
      var last := pops[|pops| - 1];
      assert forall i :: 0 <= i < |pops| - 1 ==> pops[i] == pops[..|pops| - 1][i];
      Voters(pops[..|pops| - 1], candidates, threshold) + (if IsVoter(last, candidates, threshold) then [last] else [])
  }

  /** Every vote the voters cast, voter by voter: the increments the
      election's Counter receives. */
  function VotesCast(voters: seq<Population>, candidates: seq<Population>, size: nat)
    : (e: seq<(Population, int)>)
    ensures forall i :: 0 <= i < |e| ==> e[i].0 in candidates && e[i].1 == 1
  {
    if voters == [] then []
    else
      VotesCast(voters[..|voters| - 1], candidates, size)
      + VotesOf(Ballot(candidates, size, voters[|voters| - 1]))
  }

  /** Each voter casts at most size votes, one per candidate on its ballot. */
  lemma {:induction false} VotesBound(voters: seq<Population>, candidates: seq<Population>, size: nat)
    ensures |VotesCast(voters, candidates, size)| <= |voters| * size
    decreases |voters|
  {
    if voters != [] {
      var n := |voters| - 1;
      VotesBound(voters[..n], candidates, size);
      var b := Ballot(candidates, size, voters[n]);
      assert |VotesCast(voters, candidates, size)| == |VotesCast(voters[..n], candidates, size)| + |b|;
      MultiplySuccessor(n, size);
    }
  }

  lemma MultiplySuccessor(n: nat, m: nat)
    ensures (n + 1) * m == n * m + m
  {
  }

  /** votes.most_common(size): the winners, most votes first. */
  function Winners(votes: seq<(Population, int)>, size: nat): (w: seq<Population>)
    ensures |w| == Min(size, |Tally(votes)|)
  {
    Keys(MostCommon(Tally(votes), size))
  }

  /** Every winner is a candidate that received at least one vote. */
  lemma WinnersVotedFor(votes: seq<(Population, int)>, candidates: seq<Population>, size: nat)
    requires forall i :: 0 <= i < |votes| ==> votes[i].0 in candidates && votes[i].1 == 1
    ensures var w := Winners(votes, size);
      forall i :: 0 <= i < |w| ==> w[i] in candidates && WeightOf(votes, w[i]) >= 1
  {
    var w := Winners(votes, size);
    forall i | 0 <= i < |w| ensures w[i] in candidates && WeightOf(votes, w[i]) >= 1 {
      WinnerVotedFor(votes, size, i);
    }
  }

  lemma WinnerVotedFor(votes: seq<(Population, int)>, size: nat, i: nat)
    requires forall i :: 0 <= i < |votes| ==> votes[i].1 == 1
    requires i < |Winners(votes, size)|
    ensures exists j :: 0 <= j < |votes| && votes[j].0 == Winners(votes, size)[i]
    ensures WeightOf(votes, Winners(votes, size)[i]) >= 1
  {
    var c := Tally(votes);
    var r := MostCommon(c, size);
    MostCommonFrom(c, size);
    assert r[i] in c;
    var k :| 0 <= k < |c| && c[k] == r[i];
    assert c[k].0 in Keys(votes);
    var j :| 0 <= j < |votes| && votes[j].0 == c[k].0;
    WeightPositive(votes, j);
  }

  /** No candidate left out of the winners has more votes than any winner. */
  lemma WinnersLead(votes: seq<(Population, int)>, size: nat)
    ensures var w := Winners(votes, size);
      forall i, j :: 0 <= i < |w| && 0 <= j < |votes| && votes[j].0 !in w ==>
        WeightOf(votes, w[i]) >= WeightOf(votes, votes[j].0)
  {
    var w := Winners(votes, size);
    forall i, j | 0 <= i < |w| && 0 <= j < |votes| && votes[j].0 !in w
      ensures WeightOf(votes, w[i]) >= WeightOf(votes, votes[j].0)
    {
      WinnerLeads(votes, size, i, j);
    }
  }

  lemma WinnerLeads(votes: seq<(Population, int)>, size: nat, i: nat, j: nat)
    requires i < |Winners(votes, size)| && j < |votes| && votes[j].0 !in Winners(votes, size)
    ensures WeightOf(votes, Winners(votes, size)[i]) >= WeightOf(votes, votes[j].0)
  {
    var c := Tally(votes);
    var r := MostCommon(c, size);
    var w := Winners(votes, size);
    MostCommonFrom(c, size);
    assert votes[j].0 in Keys(c);
    var k :| 0 <= k < |c| && c[k].0 == votes[j].0;
    assert r[i] in c;
    var k' :| 0 <= k' < |c| && c[k'] == r[i];
    assert c[k] !in r[..i];
    MostCommonLargest(c, size);
    assert r[i].1 >= c[k].1;
  }

  /** There are winners exactly when seats are to be filled and someone
      voted. */
  lemma WinnersEmpty(votes: seq<(Population, int)>, size: nat)
    ensures Winners(votes, size) == [] <==> size == 0 || votes == []
  {
    if votes != [] {
      assert votes[0].0 in Keys(Tally(votes));
    }
  }

  /** A candidate with one vote among votes that all weigh one has weight at
      least one. */
  lemma {:induction false} WeightPositive(votes: seq<(Population, int)>, j: nat)
    requires j < |votes|
    requires forall i :: 0 <= i < |votes| ==> votes[i].1 == 1
    ensures WeightOf(votes, votes[j].0) >= 1
    decreases |votes|
  {
    var front := votes[..|votes| - 1];
    WeightNonNegative(front, votes[j].0);
    if j < |votes| - 1 {
      assert front[j] == votes[j];
      WeightPositive(front, j);
    }
  }

  lemma {:induction false} WeightNonNegative(votes: seq<(Population, int)>, k: Population)
    requires forall i :: 0 <= i < |votes| ==> votes[i].1 == 1
    ensures WeightOf(votes, k) >= 0
    decreases |votes|
  {
    if votes != [] {
      WeightNonNegative(votes[..|votes| - 1], k);
    }
  }

  /** The council an election among the pops seats, with candidates
      nominated and size seats: the winners of the vote; when nobody won, a
      sample of size candidates, unless fewer than size stand (then
      rng.sample raises, tooFew, and nobody is seated). */
  ghost predicate Elected(council: seq<Population>, pops: seq<Population>, candidates: seq<Population>,
                          size: nat, threshold: real, tooFew: bool)
  {
    var winners := Winners(VotesCast(Voters(pops, candidates, threshold), candidates, size), size);
    && |candidates| == Min(|CandidatePool(pops)|, 3 * size)
    && IsSample(candidates, CandidatePool(pops))
    && (tooFew <==> winners == [] && size > |candidates|)
    && (winners != [] ==> council == winners)
    && (tooFew ==> council == [])
    && (winners == [] && size <= |candidates| ==> |council| == size && IsSample(council, candidates))
  }

  // ---------------------------------------------------------------------------
  // The voting loop

  /** The voting loop of elect_council_members: every pop that votes ranks
      the candidates it considers and gives one vote to each of the first
      size; the result is every vote cast, in order (the Counter's
      increments). */
  method CastVotes(pops: seq<Population>, candidates: seq<Population>, size: nat, threshold: real)
    returns (cast: seq<(Population, int)>)
    ensures cast == VotesCast(Voters(pops, candidates, threshold), candidates, size)
  {
    cast := [];
    for i := 0 to |pops|
      invariant cast == VotesCast(Voters(pops[..i], candidates, threshold), candidates, size)
    {
      var voter := pops[i];
      VoterStep(pops, candidates, size, threshold, i);
      if voter !in candidates && voter.PoliticalEngagement() >= threshold {
        var ballot := Ballot(candidates, size, voter);
        cast := cast + VotesOf(ballot);
      }
    }
    assert pops[..|pops|] == pops;
  }

  /** One more pop adds its ballot's votes when it votes, and nothing else. */
  lemma VoterStep(pops: seq<Population>, candidates: seq<Population>, size: nat, threshold: real, i: nat)
    requires i < |pops|
    ensures VotesCast(Voters(pops[..i + 1], candidates, threshold), candidates, size)
      == VotesCast(Voters(pops[..i], candidates, threshold), candidates, size)
         + (if IsVoter(pops[i], candidates, threshold) then VotesOf(Ballot(candidates, size, pops[i])) else [])
  {
    var p := pops[i];
    assert pops[..i + 1][..i] == pops[..i];
    assert pops[..i + 1][i] == p;
    var vs := Voters(pops[..i], candidates, threshold);
    if IsVoter(p, candidates, threshold) {
      assert Voters(pops[..i + 1], candidates, threshold) == vs + [p];
      assert (vs + [p])[..|vs|] == vs;
    } else {
      assert Voters(pops[..i + 1], candidates, threshold) == vs;
    }
  }
}
