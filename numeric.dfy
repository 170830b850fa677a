/** Small numeric and collection helpers shared by the whole model: Python's
    rounding, clamping, flooring of exact rationals, and the counting idioms
    (collections.Counter, most_common, max with a key) the simulation relies on. */
module Numeric {

  datatype Option<T> = None | Some(value: T)

  /** The run-time failures the simulation can hit; each is a Python exception
      that would abort the whole run. */
  datatype Fault =
    | EmptyChoice          // rng.choice on an empty list (IndexError)
    | SampleTooLarge       // rng.sample asked for more items than exist (ValueError)
    | MaxOfEmpty           // max() over an empty collection (ValueError)
    | IndexOutOfRange      // a list index past the end (IndexError)
    | CargoOverCapacity    // Starship.travel_to with too much cargo (ValueError)
    | MalformedName        // a ship name whose numeric suffix does not parse (ValueError)
    | DivisionByZero       // ZeroDivisionError
    | TooFewFields         // unpacking a split line into more names than it has fields (ValueError)
    | NoneOperand          // arithmetic on None (TypeError)
    | MissingKey           // a dictionary lookup of an absent key (KeyError)
    | NotInList            // list.remove of an element the list does not hold (ValueError)

  /** A value, or the fault that aborted its computation. */
  datatype Result<T> = Ok(value: T) | Err(fault: Fault)

  /** A trait value: a real in [0, 1]. */
  type Unit = r: real | 0.0 <= r <= 1.0

  type Positive = n: int | n > 0 witness 1

  function Min(a: int, b: int): int { if a < b then a else b }

  function Max(a: int, b: int): int { if a < b then b else a }

  function Abs(x: real): (r: real)
    ensures r >= 0.0 && (r == x || r == -x)
  {
    if x < 0.0 then -x else x
  }

  /** max(lo, min(hi, x)) */
  function Clamp(x: real, lo: real, hi: real): (r: real)
    requires lo <= hi
    ensures lo <= r <= hi
    ensures lo <= x <= hi ==> r == x
    ensures x < lo ==> r == lo
    ensures x > hi ==> r == hi
  {
    if x > hi then hi else if x < lo then lo else x
  }

  function ClampInt(x: int, lo: int, hi: int): (r: int)
    requires lo <= hi
    ensures lo <= r <= hi
    ensures lo <= x <= hi ==> r == x
  {
    if x > hi then hi else if x < lo then lo else x
  }

  /** math.floor on an exact real */
  function Floor(x: real): (n: int)
    ensures n as real <= x < n as real + 1.0
  {
    x.Floor
  }

  /** math.ceil on an exact real */
  function Ceil(x: real): (n: int)
    ensures x <= n as real < x + 1.0
  {
    -((-x).Floor)
  }

  /** Python's built-in round(): to the nearest integer, halves to the even neighbour. */
  function RoundHalfEven(x: real): (n: int)
    ensures x - 0.5 <= n as real <= x + 0.5
    ensures (n as real - x == 0.5 || x - n as real == 0.5) ==> n % 2 == 0
  {
    var f := x.Floor;
    var frac := x - f as real;
    if frac < 0.5 then f
    else if frac > 0.5 then f + 1
    else if f % 2 == 0 then f
    else f + 1
  }

  /** On a trait value, round() gives 1 exactly when the value is above one half
      (one half itself rounds to the even 0). */
  lemma RoundUnit(x: Unit)
    ensures RoundHalfEven(x) == if x > 0.5 then 1 else 0
  {
  }

  /** Rounding a fraction t of a non-negative integer e stays within [0, e]. */
  lemma RoundFractionBounds(t: Unit, e: int)
    requires e >= 0
    ensures 0 <= RoundHalfEven(t * e as real) <= e
  {
    var x := t * e as real;
    assert 0.0 <= x <= e as real;
  }

  // ---------------------------------------------------------------------------
  // Steps of real arithmetic the solver does not take on its own

  lemma MulNonNegative(a: real, b: real)
    requires a >= 0.0 && b >= 0.0
    ensures a * b >= 0.0
  {
  }

  lemma MulPositive(a: real, b: real)
    requires a > 0.0 && b > 0.0
    ensures a * b > 0.0
  {
  }

  lemma MulMonotone(a: real, b: real, c: real)
    requires a <= b && c >= 0.0
    ensures a * c <= b * c
  {
    MulNonNegative(b - a, c);
  }

  lemma MulStrict(a: real, b: real, c: real)
    requires a < b && c > 0.0
    ensures a * c < b * c
  {
    MulPositive(b - a, c);
  }

  lemma DivAtLeast(w: real, t: real, r: real)
    requires t > 0.0 && w >= r * t
    ensures w / t >= r
  {
    var q := w / t;
    assert q * t == w;
    if q < r {
      MulStrict(q, r, t);
    }
  }

  lemma DivAtMost(w: real, t: real, r: real)
    requires t > 0.0 && w <= r * t
    ensures w / t <= r
  {
    var q := w / t;
    assert q * t == w;
    if q > r {
      MulStrict(r, q, t);
    }
  }

  function Sum(xs: seq<int>): int
  {
    if xs == [] then 0 else Sum(xs[..|xs| - 1]) + xs[|xs| - 1]
  }

  /** Concatenation associates. */
  lemma AppendAssociates<T>(a: seq<T>, b: seq<T>, c: seq<T>)
    ensures (a + b) + c == a + (b + c)
  {
  }

  lemma {:induction false} SumAppend(xs: seq<int>, ys: seq<int>)
    ensures Sum(xs + ys) == Sum(xs) + Sum(ys)
    decreases |ys|
  {
    if ys == [] {
      assert xs + ys == xs;
    } else {
      var last := |ys| - 1;
      assert (xs + ys)[..|xs + ys| - 1] == xs + ys[..last];
      SumAppend(xs, ys[..last]);
    }
  }

  lemma {:induction false} SumNonNegative(xs: seq<int>)
    requires forall i :: 0 <= i < |xs| ==> xs[i] >= 0
    ensures Sum(xs) >= 0
    decreases |xs|
  {
    if xs != [] {
      SumNonNegative(xs[..|xs| - 1]);
    }
  }

  function SumReal(xs: seq<real>): real
  {
    if xs == [] then 0.0 else SumReal(xs[..|xs| - 1]) + xs[|xs| - 1]
  }

  /** The arithmetic mean of values in [lo, hi] lies in [lo, hi]. */
  lemma {:induction false} SumRealBounds(xs: seq<real>, lo: real, hi: real)
    requires forall i :: 0 <= i < |xs| ==> lo <= xs[i] <= hi
    ensures |xs| as real * lo <= SumReal(xs) <= |xs| as real * hi
    decreases |xs|
  {
    if xs != [] {
      SumRealBounds(xs[..|xs| - 1], lo, hi);
    }
  }

  function Mean(xs: seq<real>): (m: real)
    requires |xs| > 0
  {
    SumReal(xs) / |xs| as real
  }

  lemma MeanBounds(xs: seq<real>, lo: real, hi: real)
    requires |xs| > 0
    requires forall i :: 0 <= i < |xs| ==> lo <= xs[i] <= hi
    ensures lo <= Mean(xs) <= hi
  {
    SumRealBounds(xs, lo, hi);
    var n := |xs| as real;
    assert n * lo <= SumReal(xs) <= n * hi;
    assert (n * lo) / n == lo;
    assert (n * hi) / n == hi;
  }

  /** Every element of xs appears in the result exactly once, in the order of
      first appearance. */
  function Dedup<T(==)>(xs: seq<T>): (r: seq<T>)
    ensures forall i :: 0 <= i < |xs| ==> xs[i] in r
    ensures forall i :: 0 <= i < |r| ==> r[i] in xs
    ensures forall i, j :: 0 <= i < j < |r| ==> r[i] != r[j]
    ensures |r| <= |xs|
  {
    if xs == [] then []
    else
      var prefix := Dedup(xs[..|xs| - 1]);
      var last := xs[|xs| - 1];
      assert forall i :: 0 <= i < |xs| - 1 ==> xs[i] == xs[..|xs| - 1][i];
      if last in prefix then prefix else prefix + [last]
  }

  /** Appending one element extends the deduplicated list by it unless it
      was already there. */
  lemma DedupSnoc<T>(xs: seq<T>, x: T)
    ensures Dedup(xs + [x]) == if x in Dedup(xs) then Dedup(xs) else Dedup(xs) + [x]
  {
    assert (xs + [x])[..|xs|] == xs;
  }

  lemma SnocSlice<T>(a: seq<T>, b: seq<T>, j: nat)
    requires j < |b|
    ensures a + b[..j + 1] == (a + b[..j]) + [b[j]]
  {
    assert b[..j + 1] == b[..j] + [b[j]];
  }

  /** The elements of xs that keep accepts, in order. */
  function Filter<T>(xs: seq<T>, keep: T -> bool): (r: seq<T>)
    ensures |r| <= |xs|
    ensures forall i :: 0 <= i < |r| ==> keep(r[i]) && r[i] in xs
  {
    if xs == [] then []
    else
      assert xs == [xs[0]] + xs[1..];
      (if keep(xs[0]) then [xs[0]] else []) + Filter(xs[1..], keep)
  }

  /** The elements of xs that keep refuses, in order. */
  function Reject<T>(xs: seq<T>, keep: T -> bool): (r: seq<T>)
    ensures |r| <= |xs|
    ensures forall i :: 0 <= i < |r| ==> !keep(r[i]) && r[i] in xs
  {
    if xs == [] then []
    else
      assert xs == [xs[0]] + xs[1..];
      (if keep(xs[0]) then [] else [xs[0]]) + Reject(xs[1..], keep)
  }

  /** Filter and Reject split xs between them: each element goes to exactly
      one side. */
  lemma {:induction false} FilterRejectSplit<T>(xs: seq<T>, keep: T -> bool)
    ensures multiset(Filter(xs, keep)) + multiset(Reject(xs, keep)) == multiset(xs)
    decreases |xs|
  {
    if xs != [] {
      var x, tail := xs[0], xs[1..];
      FilterRejectSplit(tail, keep);
      assert xs == [x] + tail;
      var f, r := Filter(tail, keep), Reject(tail, keep);
      if keep(x) {
        assert Filter(xs, keep) == [x] + f && Reject(xs, keep) == r;
        assert multiset([x] + f) == multiset([x]) + multiset(f);
      } else {
        assert Filter(xs, keep) == f && Reject(xs, keep) == [x] + r;
        assert multiset([x] + r) == multiset([x]) + multiset(r);
      }
      assert multiset(xs) == multiset([x]) + multiset(tail);
    }
  }

  lemma {:induction false} FilterMember<T>(xs: seq<T>, keep: T -> bool, x: T)
    requires x in xs && keep(x)
    ensures x in Filter(xs, keep)
    decreases |xs|
  {
    if xs[0] != x {
      FilterMember(xs[1..], keep, x);
    }
  }

  lemma {:induction false} RejectMember<T>(xs: seq<T>, keep: T -> bool, x: T)
    requires x in xs && !keep(x)
    ensures x in Reject(xs, keep)
    decreases |xs|
  {
    if xs[0] != x {
      RejectMember(xs[1..], keep, x);
    }
  }

  /** Rejecting first can only shorten what a second filter keeps. */
  lemma {:induction false} FilterOfReject<T>(xs: seq<T>, drop: T -> bool, keep: T -> bool)
    ensures |Filter(Reject(xs, drop), keep)| <= |Filter(xs, keep)|
    decreases |xs|
  {
    if xs != [] {
      FilterOfReject(xs[1..], drop, keep);
      var head := if drop(xs[0]) then [] else [xs[0]];
      assert Reject(xs, drop) == head + Reject(xs[1..], drop);
      FilterAppend(head, Reject(xs[1..], drop), keep);
    }
  }

  /** An element that keep accepts alone is still accepted alone once the
      elements drop refuses are kept apart. */
  lemma LoneAfterReject<T>(xs: seq<T>, drop: T -> bool, keep: T -> bool, x: T)
    requires x in xs && Filter(xs, keep) == [x] && !drop(x)
    ensures Filter(Reject(xs, drop), keep) == [x]
  {
    var f := Filter(Reject(xs, drop), keep);
    assert Filter(xs, keep)[0] == x;
    RejectMember(xs, drop, x);
    FilterMember(Reject(xs, drop), keep, x);
    FilterOfReject(xs, drop, keep);
    assert |Filter(xs, keep)| == 1;
    var i :| 0 <= i < |f| && f[i] == x;
    assert |f| == 1 && i == 0;
    assert f == [f[0]];
  }

  /** The test for elements of key c; Filter with it gives the elements of
      that key, in order. */
  function OfKey<T>(key: T -> real, c: real): T -> bool
  {
    (x: T) => key(x) == c
  }

  lemma {:induction false} FilterAppend<T>(a: seq<T>, b: seq<T>, keep: T -> bool)
    ensures Filter(a + b, keep) == Filter(a, keep) + Filter(b, keep)
    decreases |a|
  {
    if a == [] {
      assert a + b == b;
    } else {
      var ab := a + b;
      assert ab[0] == a[0] && ab[1..] == a[1..] + b;
      FilterAppend(a[1..], b, keep);
      var head := if keep(a[0]) then [a[0]] else [];
      assert Filter(ab, keep) == head + Filter(a[1..] + b, keep);
      assert Filter(a, keep) == head + Filter(a[1..], keep);
    }
  }

  lemma {:induction false} RejectAppend<T>(a: seq<T>, b: seq<T>, keep: T -> bool)
    ensures Reject(a + b, keep) == Reject(a, keep) + Reject(b, keep)
    decreases |a|
  {
    if a != [] {
      var ab := a + b;
      assert ab[0] == a[0] && ab[1..] == a[1..] + b;
      RejectAppend(a[1..], b, keep);
      var head := if keep(a[0]) then [] else [a[0]];
      calc {
        Reject(ab, keep);
        head + Reject(a[1..] + b, keep);
        head + (Reject(a[1..], keep) + Reject(b, keep));
        (head + Reject(a[1..], keep)) + Reject(b, keep);
      }
    } else {
      assert a + b == b;
    }
  }

  /** Python's list.remove applied to the first accepted element: the
      accepted elements lose their head and the refused ones are untouched. */
  lemma {:induction false} RemoveFirstAccepted<T>(xs: seq<T>, keep: T -> bool)
    requires Filter(xs, keep) != []
    ensures Filter(xs, keep)[0] in xs
    ensures Filter(RemoveFirst(xs, Filter(xs, keep)[0]), keep) == Filter(xs, keep)[1..]
    ensures Reject(RemoveFirst(xs, Filter(xs, keep)[0]), keep) == Reject(xs, keep)
    decreases |xs|
  {
    var x := Filter(xs, keep)[0];
    if keep(xs[0]) {
      assert x == xs[0];
    } else {
      assert Filter(xs, keep) == Filter(xs[1..], keep);
      RemoveFirstAccepted(xs[1..], keep);
      assert x != xs[0];
      assert RemoveFirst(xs, x) == [xs[0]] + RemoveFirst(xs[1..], x);
      assert RemoveFirst(xs, x)[1..] == RemoveFirst(xs[1..], x);
    }
  }

  /** With nothing accepted, the refused elements are the whole sequence. */
  lemma {:induction false} NothingAccepted<T>(xs: seq<T>, keep: T -> bool)
    requires Filter(xs, keep) == []
    ensures Reject(xs, keep) == xs
    decreases |xs|
  {
    if xs != [] {
      assert !keep(xs[0]);
      NothingAccepted(xs[1..], keep);
      assert xs == [xs[0]] + xs[1..];
    }
  }

  /** perm lists each index below n exactly once: the order rng.sample(xs,
      len(xs)) draws; its first k entries are the positions rng.sample(xs, k)
      picks. */
  predicate IsPermutation(perm: seq<int>, n: int)
  {
    |perm| == n
    && (forall i :: 0 <= i < n ==> 0 <= perm[i] < n)
    && forall i, j :: 0 <= i < j < n ==> perm[i] != perm[j]
  }

  function Permuted<T>(xs: seq<T>, perm: seq<int>): (r: seq<T>)
    requires IsPermutation(perm, |xs|)
    ensures |r| == |xs| && forall i :: 0 <= i < |xs| ==> r[i] == xs[perm[i]]
  {
    seq(|xs|, i requires 0 <= i < |xs| => xs[perm[i]])
  }

  lemma IdentityPermutation(n: nat)
    ensures IsPermutation(seq(n, i => i), n)
  {
  }

  /** r holds the elements of xs at the distinct positions pos, in order. */
  ghost predicate SampledAt<T>(r: seq<T>, xs: seq<T>, pos: seq<int>)
  {
    |pos| == |r|
    && (forall i :: 0 <= i < |r| ==> 0 <= pos[i] < |xs| && r[i] == xs[pos[i]])
    && forall i, j :: 0 <= i < j < |r| ==> pos[i] != pos[j]
  }

  /** r is a possible result of rng.sample(xs, |r|). */
  ghost predicate IsSample<T>(r: seq<T>, xs: seq<T>)
  {
    exists pos :: SampledAt(r, xs, pos)
  }

  /** rng.sample(xs, k) for k <= |xs|: k elements of xs drawn at distinct
      positions, which positions being left open. */
  method Sample<T>(xs: seq<T>, k: nat) returns (r: seq<T>)
    requires k <= |xs|
    ensures |r| == k && IsSample(r, xs)
    ensures forall i :: 0 <= i < k ==> r[i] in xs
  {
    IdentityPermutation(|xs|);
    var perm :| IsPermutation(perm, |xs|);
    r := Permuted(xs, perm)[..k];
    assert SampledAt(r, xs, perm[..k]);
  }

  function Count<T(==)>(xs: seq<T>, x: T): nat
  {
    if xs == [] then 0
    else Count(xs[..|xs| - 1], x) + (if xs[|xs| - 1] == x then 1 else 0)
  }

  /** Removes the first occurrence of x (Python's list.remove). */
  function RemoveFirst<T(==)>(xs: seq<T>, x: T): (r: seq<T>)
    requires x in xs
    ensures |r| == |xs| - 1
    ensures multiset(r) == multiset(xs) - multiset{x}
  {
    assert xs == [xs[0]] + xs[1..];
    if xs[0] == x then xs[1..]
    else
      [xs[0]] + RemoveFirst(xs[1..], x)
  }

  function Reverse<T>(xs: seq<T>): (r: seq<T>)
    ensures |r| == |xs|
    ensures forall i :: 0 <= i < |xs| ==> r[i] == xs[|xs| - 1 - i]
  {
    if xs == [] then [] else [xs[|xs| - 1]] + Reverse(xs[..|xs| - 1])
  }

  // ---------------------------------------------------------------------------
  // collections.Counter: a tally keeps its keys in order of first appearance.

  /** Sum of the weights recorded for key k. */
  function WeightOf<K(==)>(entries: seq<(K, int)>, k: K): int
  {
    if entries == [] then 0
    else
      WeightOf(entries[..|entries| - 1], k)
      + (if entries[|entries| - 1].0 == k then entries[|entries| - 1].1 else 0)
  }

  function Keys<K>(c: seq<(K, int)>): (ks: seq<K>)
    ensures |ks| == |c|
    ensures forall i :: 0 <= i < |c| ==> ks[i] == c[i].0
  {
    seq(|c|, i requires 0 <= i < |c| => c[i].0)
  }

  /** The Counter obtained by adding every (key, weight) entry in turn: one
      entry per distinct key, in order of first appearance, holding the key's
      total weight. */
  function Tally<K(==)>(entries: seq<(K, int)>): (c: seq<(K, int)>)
    ensures forall i, j :: 0 <= i < j < |c| ==> c[i].0 != c[j].0
    ensures forall i :: 0 <= i < |entries| ==> entries[i].0 in Keys(c)
    ensures forall i :: 0 <= i < |c| ==> c[i].0 in Keys(entries)
    ensures forall i :: 0 <= i < |c| ==> c[i].1 == WeightOf(entries, c[i].0)
  {
    var d := Dedup(Keys(entries));
    var c := seq(|d|, i requires 0 <= i < |d| => (d[i], WeightOf(entries, d[i])));
    assert Keys(c) == d;
    c
  }

  /** Index of the first entry with the largest count: what Python's max(...,
      key=...) and Counter.most_common(1) pick. */
  function FirstMaxIndex<K>(c: seq<(K, int)>): (i: nat)
    requires |c| > 0
    ensures i < |c|
    ensures forall j :: 0 <= j < |c| ==> c[j].1 <= c[i].1
    ensures forall j :: 0 <= j < i ==> c[j].1 < c[i].1
  {
    if |c| == 1 then 0
    else
      var k := FirstMaxIndex(c[1..]);
      if c[0].1 >= c[k + 1].1 then 0 else k + 1
  }

  /** Counter.most_common(n): the n entries with the largest counts, largest
      first, ties in the counter's own order (repeatedly taking the first
      maximum). */
  function MostCommon<K>(c: seq<(K, int)>, n: nat): (r: seq<(K, int)>)
    ensures |r| == Min(n, |c|)
    ensures n > 0 && |c| > 0 ==> r[0] == c[FirstMaxIndex(c)]
    decreases n
  {
    if n == 0 || |c| == 0 then []
    else
      var i := FirstMaxIndex(c);
      [c[i]] + MostCommon(c[..i] + c[i + 1..], n - 1)
  }

  /** most_common(n) takes entries of the counter, each at most once. */
  lemma {:induction false} MostCommonDraws<K>(c: seq<(K, int)>, n: nat)
    ensures multiset(MostCommon(c, n)) <= multiset(c)
    decreases n
  {
    if n > 0 && |c| > 0 {
      var i := FirstMaxIndex(c);
      var rest := c[..i] + c[i + 1..];
      assert c == c[..i] + [c[i]] + c[i + 1..];
      MostCommonDraws(rest, n - 1);
      assert MostCommon(c, n) == [c[i]] + MostCommon(rest, n - 1);
    }
  }

  /** Every entry of c that r leaves out before position i weighs no more
      than r[i]. */
  ghost predicate OutweighsOmitted<K>(r: seq<(K, int)>, c: seq<(K, int)>)
  {
    forall i, j :: 0 <= i < |r| && 0 <= j < |c| ==> r[i].1 >= c[j].1 || c[j] in r[..i]
  }

  /** An entry most_common(n) leaves out before position i weighs no more
      than the entry it takes at i. */
  lemma {:induction false} MostCommonLargest<K>(c: seq<(K, int)>, n: nat)
    ensures OutweighsOmitted(MostCommon(c, n), c)
    decreases n
  {
    if n > 0 && |c| > 0 {
      var i := FirstMaxIndex(c);
      var rest := c[..i] + c[i + 1..];
      var tail := MostCommon(rest, n - 1);
      MostCommonLargest(rest, n - 1);
      RemovedEntry(c, i, rest, tail, [c[i]] + tail);
    }
  }

  /** Every entry most_common(n) takes is an entry of the counter. */
  lemma MostCommonFrom<K>(c: seq<(K, int)>, n: nat)
    ensures forall i :: 0 <= i < |MostCommon(c, n)| ==> MostCommon(c, n)[i] in c
  {
    var r := MostCommon(c, n);
    MostCommonDraws(c, n);
    forall i | 0 <= i < |r| ensures r[i] in c {
      assert r[i] in multiset(r);
    }
  }

  lemma RemovedEntry<K>(c: seq<(K, int)>, i: nat, rest: seq<(K, int)>, tail: seq<(K, int)>, r: seq<(K, int)>)
    requires i < |c| && rest == c[..i] + c[i + 1..] && r == [c[i]] + tail
    requires forall j :: 0 <= j < |c| ==> c[j].1 <= c[i].1
    requires OutweighsOmitted(tail, rest)
    ensures OutweighsOmitted(r, c)
  {
    assert c == c[..i] + [c[i]] + c[i + 1..];
    assert forall x :: x in c ==> x == c[i] || x in rest;
    forall k, j | 0 <= k < |r| && 0 <= j < |c| && r[k].1 < c[j].1
      ensures c[j] in r[..k]
    {
      assert k > 0;
      assert r[..k] == [c[i]] + tail[..k - 1];
      if c[j] != c[i] {
        assert c[j] in rest;
        var j' :| 0 <= j' < |rest| && rest[j'] == c[j];
        assert r[k] == tail[k - 1];
        assert c[j] in tail[..k - 1];
      }
    }
  }

  /** The counts never increase along r. */
  ghost predicate Descending<K>(r: seq<(K, int)>)
  {
    forall i, j :: 0 <= i < j < |r| ==> r[i].1 >= r[j].1
  }

  /** most_common(n) lists its entries largest count first. */
  lemma {:induction false} MostCommonDescending<K>(c: seq<(K, int)>, n: nat)
    ensures Descending(MostCommon(c, n))
    decreases n
  {
    if n > 0 && |c| > 0 {
      var m := FirstMaxIndex(c);
      var rest := c[..m] + c[m + 1..];
      MostCommonDescending(rest, n - 1);
      MostCommonFrom(rest, n - 1);
      DescendingAfterFirst(c, m, rest, MostCommon(rest, n - 1));
    }
  }

  /** The largest entry c[m] in front of a descending list of other entries
      of c gives a descending list. */
  lemma DescendingAfterFirst<K>(c: seq<(K, int)>, m: nat, rest: seq<(K, int)>, tail: seq<(K, int)>)
    requires m < |c| && rest == c[..m] + c[m + 1..]
    requires forall k :: 0 <= k < |c| ==> c[k].1 <= c[m].1
    requires forall k :: 0 <= k < |tail| ==> tail[k] in rest
    requires Descending(tail)
    ensures Descending([c[m]] + tail)
  {
    var r := [c[m]] + tail;
    forall j | 0 < j < |r| ensures r[0].1 >= r[j].1 {
      assert r[j] == tail[j - 1];
      var q :| 0 <= q < |rest| && rest[q] == r[j];
      assert rest[q] == if q < m then c[q] else c[q + 1];
    }
    forall i, j | 0 < i < j < |r| ensures r[i].1 >= r[j].1 {
      assert r[i] == tail[i - 1] && r[j] == tail[j - 1];
    }
  }

  /** No two entries of the counter are alike (a Counter's keys are distinct). */
  ghost predicate DistinctEntries<K>(c: seq<(K, int)>)
  {
    forall p, q :: 0 <= p < q < |c| ==> c[p] != c[q]
  }

  /** Entries of r with equal counts appear in r in the order they first
      appear in c. */
  ghost predicate TiesInOrder<K>(r: seq<(K, int)>, c: seq<(K, int)>)
  {
    forall i, j :: 0 <= i < j < |r| && r[i].1 == r[j].1 ==>
      r[i] in c && r[j] in c && FirstIndex(c, r[i]) < FirstIndex(c, r[j])
  }

  /** Among entries of equal count most_common(n) keeps the counter's own
      order: the one listed first in the counter is taken first. */
  lemma {:induction false} MostCommonTiesInOrder<K>(c: seq<(K, int)>, n: nat)
    requires DistinctEntries(c)
    ensures TiesInOrder(MostCommon(c, n), c)
    decreases n
  {
    if n > 0 && |c| > 0 {
      var m := FirstMaxIndex(c);
      var rest := c[..m] + c[m + 1..];
      var tail := MostCommon(rest, n - 1);
      assert DistinctEntries(rest) by {
        forall p, q | 0 <= p < q < |rest| ensures rest[p] != rest[q] {
          assert rest[p] == if p < m then c[p] else c[p + 1];
          assert rest[q] == if q < m then c[q] else c[q + 1];
        }
      }
      MostCommonTiesInOrder(rest, n - 1);
      MostCommonFrom(rest, n - 1);
      TiesAfterFirst(c, m, rest, tail);
    }
  }

  /** Putting the first maximum c[m] in front of the ordered most_common of
      the other entries keeps ties in the counter's order. */
  lemma TiesAfterFirst<K>(c: seq<(K, int)>, m: nat, rest: seq<(K, int)>, tail: seq<(K, int)>)
    requires DistinctEntries(c) && m < |c| && rest == c[..m] + c[m + 1..]
    requires forall k :: 0 <= k < m ==> c[k].1 < c[m].1
    requires forall k :: 0 <= k < |tail| ==> tail[k] in rest
    requires TiesInOrder(tail, rest)
    ensures TiesInOrder([c[m]] + tail, c)
  {
    var r := [c[m]] + tail;
    FirstIndexAt(c, c[m], m);
    forall i, j | 0 <= i < j < |r| && r[i].1 == r[j].1
      ensures r[i] in c && r[j] in c && FirstIndex(c, r[i]) < FirstIndex(c, r[j])
    {
      assert r[j] == tail[j - 1];
      LiftedIndex(c, m, rest, r[j]);
      if i > 0 {
        assert r[i] == tail[i - 1];
        LiftedIndex(c, m, rest, r[i]);
      }
    }
  }

  /** Counter.most_common(n) on a tallied Counter: counts descending, equal
      counts in the order the keys were first added. */
  lemma CounterMostCommonOrder<K>(entries: seq<(K, int)>, n: nat)
    ensures Descending(MostCommon(Tally(entries), n))
    ensures TiesInOrder(MostCommon(Tally(entries), n), Tally(entries))
  {
    var c := Tally(entries);
    assert DistinctEntries(c) by {
      forall p, q | 0 <= p < q < |c| ensures c[p] != c[q] {
        assert c[p].0 != c[q].0;
      }
    }
    MostCommonDescending(c, n);
    MostCommonTiesInOrder(c, n);
  }

  /** Removing the entry at m from distinct entries shifts the later
      positions down by one and keeps the earlier ones. */
  lemma LiftedIndex<K>(c: seq<(K, int)>, m: nat, rest: seq<(K, int)>, x: (K, int))
    requires DistinctEntries(c) && m < |c| && rest == c[..m] + c[m + 1..] && x in rest
    ensures x in c && x != c[m]
    ensures FirstIndex(c, x) == if FirstIndex(rest, x) < m then FirstIndex(rest, x) else FirstIndex(rest, x) + 1
  {
    var q := FirstIndex(rest, x);
    var k := if q < m then q else q + 1;
    assert c[k] == rest[q];
    FirstIndexAt(c, x, k);
  }

  // ---------------------------------------------------------------------------
  // First occurrences: the order a Counter keeps its keys in.

  /** The position of the first occurrence of x in xs. */
  function FirstIndex<T(==)>(xs: seq<T>, x: T): (i: nat)
    requires x in xs
    ensures i < |xs| && xs[i] == x
    ensures forall j :: 0 <= j < i ==> xs[j] != x
  {
    if xs[0] == x then 0 else 1 + FirstIndex(xs[1..], x)
  }

  lemma FirstIndexAt<T>(xs: seq<T>, x: T, k: nat)
    requires k < |xs| && xs[k] == x
    requires forall j :: 0 <= j < k ==> xs[j] != x
    ensures FirstIndex(xs, x) == k
  {
  }

  /** An element of a prefix first occurs where it first occurs in the prefix. */
  lemma PrefixIndex<T>(xs: seq<T>, n: nat, y: T)
    requires n <= |xs| && y in xs[..n]
    ensures FirstIndex(xs, y) == FirstIndex(xs[..n], y) < n
  {
    FirstIndexAt(xs, y, FirstIndex(xs[..n], y));
  }

  /** Dedup lists the distinct elements in order of first occurrence. */
  lemma {:induction false} DedupOrder<T>(xs: seq<T>)
    ensures forall i, j :: 0 <= i < j < |Dedup(xs)| ==>
              FirstIndex(xs, Dedup(xs)[i]) < FirstIndex(xs, Dedup(xs)[j])
    decreases |xs|
  {
    if xs != [] {
      var n := |xs| - 1;
      var prefix := xs[..n];
      var last := xs[n];
      DedupOrder(prefix);
      var d := Dedup(xs);
      var p := Dedup(prefix);
      assert d == if last in p then p else p + [last];
      if last !in p {
        assert last !in prefix;
        FirstIndexAt(xs, last, n);
      }
      forall i, j | 0 <= i < j < |d|
        ensures FirstIndex(xs, d[i]) < FirstIndex(xs, d[j])
      {
        assert d[i] == p[i] && p[i] in prefix;
        PrefixIndex(xs, n, p[i]);
        if j < |p| {
          assert d[j] == p[j] && p[j] in prefix;
          PrefixIndex(xs, n, p[j]);
        }
      }
    }
  }

  /** The key Counter.most_common(1) names weighs at least as much as every
      key, and a key of the same weight first appears no earlier. */
  lemma TallyLeader<K>(entries: seq<(K, int)>)
    requires |entries| > 0
    ensures |Tally(entries)| > 0
    ensures var c := Tally(entries); var top := c[FirstMaxIndex(c)].0;
      && top in Keys(entries)
      && forall k :: k in Keys(entries) ==>
           WeightOf(entries, k) <= WeightOf(entries, top)
           && (WeightOf(entries, k) == WeightOf(entries, top) ==>
                 FirstIndex(Keys(entries), top) <= FirstIndex(Keys(entries), k))
  {
    var c := Tally(entries);
    var ks := Keys(entries);
    assert entries[0].0 in ks;
    var i := FirstMaxIndex(c);
    var top := c[i].0;
    DedupOrder(ks);
    assert Keys(c) == Dedup(ks);
    forall k | k in ks
      ensures WeightOf(entries, k) <= WeightOf(entries, top)
      ensures WeightOf(entries, k) == WeightOf(entries, top) ==> FirstIndex(ks, top) <= FirstIndex(ks, k)
    {
      var j :| 0 <= j < |c| && c[j].0 == k;
      if j < i {
        assert c[j].1 < c[i].1;
      } else if j > i {
        assert Dedup(ks)[i] == top && Dedup(ks)[j] == k;
      }
    }
  }

  // ---------------------------------------------------------------------------
  // Splitting a sequence in two by a flag per element

  /** The elements of xs whose flag is b, in order. */
  function Side<T>(xs: seq<T>, flags: seq<bool>, b: bool): (r: seq<T>)
    requires |xs| == |flags|
    ensures |r| <= |xs|
    decreases |xs|
  {
    if xs == [] then []
    else
      var n := |xs| - 1;
      Side(xs[..n], flags[..n], b) + (if flags[n] == b then [xs[n]] else [])
  }

  /** Every element lands on exactly one side. */
  lemma {:induction false} SidesCover<T>(xs: seq<T>, flags: seq<bool>)
    requires |xs| == |flags|
    ensures multiset(Side(xs, flags, true)) + multiset(Side(xs, flags, false)) == multiset(xs)
    decreases |xs|
  {
    if xs != [] {
      var n := |xs| - 1;
      SidesCover(xs[..n], flags[..n]);
      assert xs == xs[..n] + [xs[n]];
      assert multiset(xs) == multiset(xs[..n]) + multiset{xs[n]};
    }
  }

  /** An element is on side b exactly when its flag is b. */
  lemma {:induction false} SideMembers<T>(xs: seq<T>, flags: seq<bool>, b: bool)
    requires |xs| == |flags|
    ensures forall i :: 0 <= i < |xs| && flags[i] == b ==> xs[i] in Side(xs, flags, b)
    ensures forall x :: x in Side(xs, flags, b) ==>
              exists i :: 0 <= i < |xs| && xs[i] == x && flags[i] == b
    decreases |xs|
  {
    if xs != [] {
      var n := |xs| - 1;
      var init := Side(xs[..n], flags[..n], b);
      SideMembers(xs[..n], flags[..n], b);
      forall x | x in Side(xs, flags, b)
        ensures exists i :: 0 <= i < |xs| && xs[i] == x && flags[i] == b
      {
        if x in init {
          var i :| 0 <= i < n && xs[..n][i] == x && flags[..n][i] == b;
          assert xs[i] == x && flags[i] == b;
        } else {
          assert x == xs[n];
        }
      }
      forall i | 0 <= i < |xs| && flags[i] == b
        ensures xs[i] in Side(xs, flags, b)
      {
        if i < n {
          assert xs[..n][i] == xs[i] && flags[..n][i] == flags[i];
          assert xs[i] in init;
        }
      }
    }
  }
}
