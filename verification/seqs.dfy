/**
 * The list pipelines the handlers are built from: `filter`, `slice(0, n)`,
 * summing, frequency counts over an object used as a dictionary, and a
 * stable sort by a descending integer key (stability is `SortDescStable`).
 */
module Seqs {

  /* ---------------------------------------------------------------- filter */

  /** `s.filter(p)`. */
  function Filter<T>(s: seq<T>, p: T -> bool): (r: seq<T>)
    ensures |r| <= |s|
    ensures forall i :: 0 <= i < |r| ==> p(r[i])
  {
    if s == [] then []
    else if p(s[0]) then [s[0]] + Filter(s[1..], p)
    else Filter(s[1..], p)
  }

  /** One step of a filter: the head is kept when `p` holds of it. */
  lemma FilterCons<T>(s: seq<T>, p: T -> bool)
    requires s != []
    ensures Filter(s, p) == (if p(s[0]) then [s[0]] else []) + Filter(s[1..], p)
  {
  }

  /** One step of a filter from the end: the last element is kept when `p` holds of it. */
  lemma FilterSnoc<T>(s: seq<T>, p: T -> bool)
    requires s != []
    ensures Filter(s, p) == Filter(s[..|s| - 1], p) + (if p(s[|s| - 1]) then [s[|s| - 1]] else [])
  {
    var init, last := s[..|s| - 1], s[|s| - 1];
    assert s == init + [last];
    FilterAppend(init, [last], p);
    assert Filter([last], p) == (if p(last) then [last] else []) by {
      FilterCons([last], p);
      assert [last][1..] == [];
    }
  }

  /** Filtering keeps the original order: it distributes over concatenation. */
  lemma {:induction false} FilterAppend<T>(a: seq<T>, b: seq<T>, p: T -> bool)
    ensures Filter(a + b, p) == Filter(a, p) + Filter(b, p)
    decreases |a|
  {
    if a == [] {
      assert a + b == b;
    } else {
      assert (a + b)[1..] == a[1..] + b;
      FilterAppend(a[1..], b, p);
    }
  }

  /** Filtering only removes: every value is kept exactly as often as it occurs, when `p` holds of it. */
  lemma {:induction false} FilterMultiset<T>(s: seq<T>, p: T -> bool)
    ensures forall x :: multiset(Filter(s, p))[x] == if p(x) then multiset(s)[x] else 0
    decreases |s|
  {
    if s != [] {
      FilterMultiset(s[1..], p);
      assert s == [s[0]] + s[1..];
    }
  }

  /** What a filter keeps comes from its input and satisfies `p`. */
  lemma FilteredFrom<T>(s: seq<T>, p: T -> bool)
    ensures multiset(Filter(s, p)) <= multiset(s)
    ensures forall x :: x in multiset(Filter(s, p)) ==> p(x)
  {
    FilterMultiset(s, p);
  }

  /** Two filters in a row keep exactly what one filter on the conjunction keeps. */
  lemma {:induction false} FilterFusion<T>(s: seq<T>, p: T -> bool, q: T -> bool)
    ensures Filter(Filter(s, p), q) == Filter(s, x => p(x) && q(x))
    decreases |s|
  {
    if s != [] {
      FilterFusion(s[1..], p, q);
    }
  }

  /** Two filters in a row keep what one filter on any conjunction of the two keeps. */
  lemma FilterThen<T>(s: seq<T>, p: T -> bool, q: T -> bool, pq: T -> bool)
    requires forall i :: 0 <= i < |s| ==> pq(s[i]) == (p(s[i]) && q(s[i]))
    ensures Filter(Filter(s, p), q) == Filter(s, pq)
  {
    FilterFusion(s, p, q);
    FilterCongruent(s, x => p(x) && q(x), pq);
  }

  /** A filter that rejects nothing returns its input. */
  lemma {:induction false} FilterKeepsAll<T>(s: seq<T>, p: T -> bool)
    requires forall i :: 0 <= i < |s| ==> p(s[i])
    ensures Filter(s, p) == s
    decreases |s|
  {
    if s != [] {
      FilterKeepsAll(s[1..], p);
    }
  }

  /** Filters with the same verdict on every element agree. */
  lemma {:induction false} FilterCongruent<T>(s: seq<T>, p: T -> bool, q: T -> bool)
    requires forall i :: 0 <= i < |s| ==> p(s[i]) == q(s[i])
    ensures Filter(s, p) == Filter(s, q)
    decreases |s|
  {
    if s != [] {
      FilterCongruent(s[1..], p, q);
    }
  }

  /** `if (c) s = s.filter(p)`: a skipped filter is one that would have kept everything. */
  lemma GuardedFilter<T>(s: seq<T>, c: bool, p: T -> bool)
    requires !c ==> forall i :: 0 <= i < |s| ==> p(s[i])
    ensures (if c then Filter(s, p) else s) == Filter(s, p)
  {
    if !c {
      FilterKeepsAll(s, p);
    }
  }

  /** Two filters that never both keep an element keep no more than the whole between them. */
  lemma {:induction false} FilterDisjoint<T>(s: seq<T>, p: T -> bool, q: T -> bool)
    requires forall i :: 0 <= i < |s| ==> !(p(s[i]) && q(s[i]))
    ensures |Filter(s, p)| + |Filter(s, q)| <= |s|
    decreases |s|
  {
    if s != [] {
      FilterDisjoint(s[1..], p, q);
    }
  }

  /** `s.slice(0, n)` / `.limit(n)`. */
  function Take<T>(s: seq<T>, n: nat): (r: seq<T>)
    ensures |r| == if |s| < n then |s| else n
    ensures r == s[..|r|]
  {
    if |s| <= n then s else s[..n]
  }

  /** A prefix holds no more of anything than the whole. */
  lemma TakeMultiset<T>(s: seq<T>, n: nat)
    ensures multiset(Take(s, n)) <= multiset(s)
  {
    var r := Take(s, n);
    assert s == r + s[|r|..];
  }

  /**
   * `s.findIndex(p)`, with `|s|` standing for "not found": the position of
   * the first element satisfying `p`.
   */
  function FirstIndex<T>(s: seq<T>, p: T -> bool): (r: nat)
    ensures r <= |s|
    ensures r < |s| ==> p(s[r])
    ensures forall i :: 0 <= i < r ==> !p(s[i])
  {
    if s == [] then 0
    else if p(s[0]) then 0
    else 1 + FirstIndex(s[1..], p)
  }

  /** `s.indexOf(x)`, with `|s|` standing for "absent": the position of the first `x`. */
  function Position<T(==)>(s: seq<T>, x: T): (p: nat)
    ensures p <= |s| && (p < |s| <==> x in s)
    ensures p < |s| ==> s[p] == x
    ensures forall i :: 0 <= i < p ==> s[i] != x
  {
    FirstIndex(s, y => y == x)
  }

  /** Appending leaves the first position of every value already present. */
  lemma PositionSnoc<T>(s: seq<T>, x: T, y: T)
    ensures y in s ==> Position(s + [x], y) == Position(s, y)
    ensures y !in s && y == x ==> Position(s + [x], y) == |s|
  {
    var p, q := Position(s, y), Position(s + [x], y);
    if y in s {
      assert (s + [x])[p] == y;
      assert q < |s| && s[q] == (s + [x])[q];
    }
  }

  /** `s.reduce((acc, x) => acc + f(x), 0)`. */
  function Sum<T>(s: seq<T>, f: T -> int): int {
    if s == [] then 0 else f(s[0]) + Sum(s[1..], f)
  }

  lemma {:induction false} SumNonNegative<T>(s: seq<T>, f: T -> int)
    requires forall i :: 0 <= i < |s| ==> f(s[i]) >= 0
    ensures Sum(s, f) >= 0
    decreases |s|
  {
    if s != [] {
      SumNonNegative(s[1..], f);
    }
  }

  /** Replacing one element changes a sum by the difference of the two values. */
  lemma {:induction false} SumUpdate<T>(s: seq<T>, k: nat, x: T, f: T -> int)
    requires k < |s|
    ensures Sum(s[k := x], f) == Sum(s, f) - f(s[k]) + f(x)
    decreases |s|
  {
    if k > 0 {
      assert s[k := x][1..] == s[1..][k - 1 := x];
      SumUpdate(s[1..], k - 1, x, f);
    } else {
      assert s[k := x][1..] == s[1..];
    }
  }

  /** Appending an element adds its value to a sum. */
  lemma {:induction false} SumSnoc<T>(s: seq<T>, x: T, f: T -> int)
    ensures Sum(s + [x], f) == Sum(s, f) + f(x)
    decreases |s|
  {
    if s == [] {
      assert (s + [x])[1..] == [];
    } else {
      assert (s + [x])[1..] == s[1..] + [x];
      SumSnoc(s[1..], x, f);
    }
  }

  /** Replacing an element by one with the same verdict keeps the length of a filter. */
  lemma {:induction false} FilterLengthUpdate<T>(s: seq<T>, k: nat, x: T, p: T -> bool)
    requires k < |s| && p(x) == p(s[k])
    ensures |Filter(s[k := x], p)| == |Filter(s, p)|
    decreases |s|
  {
    if k > 0 {
      assert s[k := x][1..] == s[1..][k - 1 := x];
      FilterLengthUpdate(s[1..], k - 1, x, p);
    } else {
      assert s[k := x][1..] == s[1..];
    }
  }

  /* --------------------------------------------------------------- tallies */

  /** One `{ key, count }` pair of a frequency table. */
  datatype Entry<K> = Entry(key: K, count: nat)

  function Keys<K>(t: seq<Entry<K>>): (r: seq<K>)
    ensures |r| == |t|
  {
    seq(|t|, i requires 0 <= i < |t| => t[i].key)
  }

  predicate DistinctKeys<K(==)>(t: seq<Entry<K>>) {
    forall i, j :: 0 <= i < j < |t| ==> t[i].key != t[j].key
  }

  function SumCounts<K>(t: seq<Entry<K>>): nat {
    if t == [] then 0 else t[0].count + SumCounts(t[1..])
  }

  /** `counts[k] = (counts[k] || 0) + 1`: bump an existing key or append a new one with count 1. */
  function Bump<K(==)>(t: seq<Entry<K>>, k: K): seq<Entry<K>> {
    if t == [] then [Entry(k, 1)]
    else if t[0].key == k then [Entry(k, t[0].count + 1)] + t[1..]
    else [t[0]] + Bump(t[1..], k)
  }

  /** Bumping leaves the keys alone, or appends `k` when it is new. */
  lemma {:induction false} BumpKeys<K>(t: seq<Entry<K>>, k: K)
    ensures Keys(Bump(t, k)) == if k in Keys(t) then Keys(t) else Keys(t) + [k]
    decreases |t|
  {
    if t != [] && t[0].key != k {
      BumpKeys(t[1..], k);
      assert Keys(t) == [t[0].key] + Keys(t[1..]);
      assert Keys(Bump(t, k)) == [t[0].key] + Keys(Bump(t[1..], k));
    } else if t != [] {
      assert Keys(t)[0] == k;
      assert Keys(Bump(t, k)) == Keys(t);
    }
  }

  /** Bumping adds one to the count of `k` and to no other. */
  lemma {:induction false} BumpCounts<K>(t: seq<Entry<K>>, k: K)
    requires DistinctKeys(t)
    ensures |Bump(t, k)| >= |t|
    ensures forall i :: 0 <= i < |t| ==> Bump(t, k)[i].count == t[i].count + (if t[i].key == k then 1 else 0)
    ensures k !in Keys(t) ==> |Bump(t, k)| == |t| + 1 && Bump(t, k)[|t|] == Entry(k, 1)
    ensures SumCounts(Bump(t, k)) == SumCounts(t) + 1
    decreases |t|
  {
    if t != [] {
      var r := Bump(t, k);
      if t[0].key == k {
        assert r[1..] == t[1..];
        assert Keys(t)[0] == k;
      } else {
        BumpCounts(t[1..], k);
        assert Keys(t) == [t[0].key] + Keys(t[1..]);
        assert r[1..] == Bump(t[1..], k);
      }
    }
  }

  lemma BumpDistinct<K>(t: seq<Entry<K>>, k: K)
    requires DistinctKeys(t)
    ensures DistinctKeys(Bump(t, k))
  {
    BumpKeys(t, k);
    var r := Bump(t, k);
    forall i, j | 0 <= i < j < |r| ensures r[i].key != r[j].key {
      assert Keys(r)[i] == r[i].key && Keys(r)[j] == r[j].key;
    }
  }

  /**
   * A frequency table over `ks`: one entry per distinct key, in order of
   * first occurrence, each holding the number of occurrences of its key.
   */
  function Tally<K(==)>(ks: seq<K>): (t: seq<Entry<K>>)
    ensures DistinctKeys(t)
    ensures forall i :: 0 <= i < |t| ==> t[i].key in ks
    ensures forall i :: 0 <= i < |ks| ==> ks[i] in Keys(t)
    ensures forall i :: 0 <= i < |t| ==> t[i].count == multiset(ks)[t[i].key]
    ensures SumCounts(t) == |ks|
    ensures forall i, j :: 0 <= i < j < |t| ==> Position(ks, t[i].key) < Position(ks, t[j].key)
    decreases |ks|
  {
    if ks == [] then []
    else
      var init := ks[..|ks| - 1];
      var last := ks[|ks| - 1];
      assert ks == init + [last];
      var t0 := Tally(init);
      var t := Bump(t0, last);
      BumpKeys(t0, last);
      BumpCounts(t0, last);
      BumpDistinct(t0, last);
      TallyStep(init, last, t0, t);
      TallyOrderStep(init, last, t0, t);
      t
  }

  /** Bumping keeps the keys in order of first occurrence. */
  lemma TallyOrderStep<K>(init: seq<K>, last: K, t0: seq<Entry<K>>, t: seq<Entry<K>>)
    requires forall i :: 0 <= i < |t0| ==> t0[i].key in init
    requires forall i :: 0 <= i < |init| ==> init[i] in Keys(t0)
    requires forall i, j :: 0 <= i < j < |t0| ==> Position(init, t0[i].key) < Position(init, t0[j].key)
    requires Keys(t) == if last in Keys(t0) then Keys(t0) else Keys(t0) + [last]
    ensures forall i, j :: 0 <= i < j < |t| ==> Position(init + [last], t[i].key) < Position(init + [last], t[j].key)
  {
    var ks := init + [last];
    forall i | 0 <= i < |t|
      ensures i < |t0| ==> t[i].key == t0[i].key && Position(ks, t[i].key) == Position(init, t[i].key) < |init|
      ensures i >= |t0| ==> Position(ks, t[i].key) == |init|
    {
      assert Keys(t)[i] == t[i].key;
      if i < |t0| {
        assert Keys(t0)[i] == t0[i].key;
        PositionSnoc(init, last, t[i].key);
      } else {
        assert last !in init by {
          forall m | 0 <= m < |init| ensures init[m] != last {
            assert init[m] in Keys(t0);
          }
        }
        PositionSnoc(init, last, last);
      }
    }
  }

  lemma TallyStep<K>(init: seq<K>, last: K, t0: seq<Entry<K>>, t: seq<Entry<K>>)
    requires forall i :: 0 <= i < |t0| ==> t0[i].key in init
    requires forall i :: 0 <= i < |init| ==> init[i] in Keys(t0)
    requires forall i :: 0 <= i < |t0| ==> t0[i].count == multiset(init)[t0[i].key]
    requires Keys(t) == if last in Keys(t0) then Keys(t0) else Keys(t0) + [last]
    requires forall i :: 0 <= i < |t0| ==> t[i].count == t0[i].count + (if t0[i].key == last then 1 else 0)
    requires last !in Keys(t0) ==> t[|t0|] == Entry(last, 1)
    ensures forall i :: 0 <= i < |t| ==> t[i].key in init + [last]
    ensures forall i :: 0 <= i < |init + [last]| ==> (init + [last])[i] in Keys(t)
    ensures forall i :: 0 <= i < |t| ==> t[i].count == multiset(init + [last])[t[i].key]
  {
    var ks := init + [last];
    forall i | 0 <= i < |t| ensures t[i].key in ks && t[i].count == multiset(ks)[t[i].key] {
      assert Keys(t)[i] == t[i].key;
      if i < |t0| {
        assert Keys(t0)[i] == t0[i].key;
      } else {
        assert last !in Keys(t0);
        forall m | 0 <= m < |init| ensures init[m] != last {
          assert init[m] in Keys(t0);
        }
        assert last !in init;
      }
    }
    forall i | 0 <= i < |ks| ensures ks[i] in Keys(t) {
      if i < |init| {
        assert ks[i] == init[i];
      }
    }
  }

  /** Every count in a tally is at least one. */
  lemma TallyCountsPositive<K>(ks: seq<K>)
    ensures forall i :: 0 <= i < |Tally(ks)| ==> Tally(ks)[i].count >= 1
  {
    var t := Tally(ks);
    forall i | 0 <= i < |t| ensures t[i].count >= 1 {
      assert t[i].key in multiset(ks);
    }
  }

  /* --------------------------------------------------------------- sorting */

  /** Non-increasing in `key`. */
  predicate SortedDesc<T>(s: seq<T>, key: T -> int) {
    forall i, j :: 0 <= i < j < |s| ==> key(s[i]) >= key(s[j])
  }

  /** Inserts `x` before the first element whose key is not larger than its own. */
  function InsertDesc<T>(x: T, s: seq<T>, key: T -> int): (r: seq<T>)
    requires SortedDesc(s, key)
    ensures SortedDesc(r, key)
    ensures multiset(r) == multiset(s) + multiset{x}
    ensures |r| == |s| + 1
    decreases |s|
  {
    if s == [] || key(x) >= key(s[0]) then
      ConsSorted(x, s, key);
      [x] + s
    else
      var tail := InsertDesc(x, s[1..], key);
      HeadDominates(s, x, tail, key);
      ConsSorted(s[0], tail, key);
      assert multiset(s) == multiset{s[0]} + multiset(s[1..]) by {
        assert s == [s[0]] + s[1..];
      }
      [s[0]] + tail
  }

  /** A head no smaller than anything in a sorted tail extends it to a sorted sequence. */
  lemma ConsSorted<T>(h: T, t: seq<T>, key: T -> int)
    requires SortedDesc(t, key)
    requires t == [] || key(h) >= key(t[0])
    ensures SortedDesc([h] + t, key)
  {
    var r := [h] + t;
    forall i, j | 0 <= i < j < |r| ensures key(r[i]) >= key(r[j]) {
      if i == 0 {
        assert r[j] == t[j - 1];
        if j > 1 { assert key(t[0]) >= key(t[j - 1]); }
      } else {
        assert r[i] == t[i - 1] && r[j] == t[j - 1];
      }
    }
  }

  /** The head of a sorted `s` bounds every element of `s[1..]` plus a smaller `x`. */
  lemma HeadDominates<T>(s: seq<T>, x: T, tail: seq<T>, key: T -> int)
    requires s != [] && SortedDesc(s, key) && key(x) < key(s[0])
    requires multiset(tail) == multiset(s[1..]) + multiset{x}
    ensures forall j :: 0 <= j < |tail| ==> key(s[0]) >= key(tail[j])
  {
    forall j | 0 <= j < |tail| ensures key(s[0]) >= key(tail[j]) {
      var y := tail[j];
      assert y in multiset(tail);
      if y != x {
        assert y in multiset(s[1..]);
        var m :| 0 <= m < |s| - 1 && s[1..][m] == y;
        assert s[m + 1] == y;
      }
    }
  }

  /**
   * `s.sort((a, b) => key(b) - key(a))`: a sort into non-increasing key
   * order. It is stable, as the engine's sort is: `SortDescStable`.
   */
  function SortDesc<T>(s: seq<T>, key: T -> int): (r: seq<T>)
    ensures SortedDesc(r, key)
    ensures multiset(r) == multiset(s)
    ensures |r| == |s|
  {
    if s == [] then [] else
      assert s == [s[0]] + s[1..];
      InsertDesc(s[0], SortDesc(s[1..], key), key)
  }

  /** `rank` increases along `s`. */
  predicate Increasing<T>(s: seq<T>, rank: T -> int) {
    forall i, j :: 0 <= i < j < |s| ==> rank(s[i]) < rank(s[j])
  }

  /** Among elements with equal keys, `rank` increases along `s`. */
  predicate TiesOrdered<T>(s: seq<T>, key: T -> int, rank: T -> int) {
    forall i, j :: 0 <= i < j < |s| && key(s[i]) == key(s[j]) ==> rank(s[i]) < rank(s[j])
  }

  /**
   * The sort is stable: numbering the input by any increasing `rank`,
   * elements with equal keys come out in increasing rank, as they went in.
   */
  lemma {:induction false} SortDescStable<T>(s: seq<T>, key: T -> int, rank: T -> int)
    requires Increasing(s, rank)
    ensures TiesOrdered(SortDesc(s, key), key, rank)
  {
    if s != [] {
      SortDescStable(s[1..], key, rank);
      var rest := SortDesc(s[1..], key);
      forall y | y in rest ensures rank(s[0]) < rank(y) {
        assert y in multiset(s[1..]);
        var m :| 0 <= m < |s| - 1 && s[1..][m] == y;
        assert s[m + 1] == y;
      }
      InsertStable(s[0], rest, key, rank);
    }
  }

  /** Inserting an element ranked below all others keeps ties in rank order. */
  lemma {:induction false} InsertStable<T>(x: T, s: seq<T>, key: T -> int, rank: T -> int)
    requires SortedDesc(s, key) && TiesOrdered(s, key, rank)
    requires forall y :: y in s ==> rank(x) < rank(y)
    ensures TiesOrdered(InsertDesc(x, s, key), key, rank)
    decreases |s|
  {
    if s == [] || key(x) >= key(s[0]) {
      var r := [x] + s;
      forall i, j | 0 <= i < j < |r| && key(r[i]) == key(r[j]) ensures rank(r[i]) < rank(r[j]) {
        assert r[j] == s[j - 1];
        if i > 0 {
          assert r[i] == s[i - 1];
        }
      }
    } else {
      var tail := InsertDesc(x, s[1..], key);
      assert forall i :: 0 <= i < |s| - 1 ==> s[1..][i] == s[i + 1];
      InsertStable(x, s[1..], key, rank);
      HeadPrecedesTies(x, s, tail, key, rank);
      var r := [s[0]] + tail;
      forall i, j | 0 <= i < j < |r| && key(r[i]) == key(r[j]) ensures rank(r[i]) < rank(r[j]) {
        assert r[j] == tail[j - 1];
        if i > 0 {
          assert r[i] == tail[i - 1];
        }
      }
    }
  }

  /** The head of `s` precedes every element tied with it in `s[1..]` plus a lower-keyed `x`. */
  lemma HeadPrecedesTies<T>(x: T, s: seq<T>, tail: seq<T>, key: T -> int, rank: T -> int)
    requires s != [] && TiesOrdered(s, key, rank) && key(x) < key(s[0])
    requires multiset(tail) == multiset(s[1..]) + multiset{x}
    ensures forall j :: 0 <= j < |tail| && key(tail[j]) == key(s[0]) ==> rank(s[0]) < rank(tail[j])
  {
    forall j | 0 <= j < |tail| && key(tail[j]) == key(s[0]) ensures rank(s[0]) < rank(tail[j]) {
      assert tail[j] in multiset(tail);
      assert tail[j] in multiset(s[1..]);
      var m :| 0 <= m < |s| - 1 && s[1..][m] == tail[j];
      assert s[m + 1] == tail[j];
    }
  }

  /** A prefix of a sorted sequence is sorted. */
  lemma TakeSorted<T>(s: seq<T>, n: nat, key: T -> int)
    requires SortedDesc(s, key)
    ensures SortedDesc(Take(s, n), key)
  {
  }

  /**
   * `find(p).sort({ key: -1 }).limit(n)`: at most `n` elements satisfying
   * `p`, taken from `s`, in non-increasing key order.
   */
  function Top<T>(s: seq<T>, p: T -> bool, key: T -> int, n: nat): (r: seq<T>)
    ensures |r| <= n
    ensures forall i :: 0 <= i < |r| ==> p(r[i])
    ensures SortedDesc(r, key)
    ensures multiset(r) <= multiset(s)
  {
    var kept := Filter(s, p);
    var sorted := SortDesc(kept, key);
    var r := Take(sorted, n);
    TakeSorted(sorted, n, key);
    TakeMultiset(sorted, n);
    FilteredFrom(s, p);
    forall i | 0 <= i < |r| ensures p(r[i]) {
      assert r[i] in multiset(kept);
    }
    r
  }

  /* ---------------------------------------------------------------- ranking */

  function EntryCount<K>(e: Entry<K>): int { e.count }

  /**
   * A frequency table ordered by count, largest first, and among equal
   * counts by first occurrence: one entry per distinct key, each with its
   * number of occurrences, summing to the number of keys.
   */
  function Rank<K(==)>(ks: seq<K>): (r: seq<Entry<K>>)
    ensures SortedDesc(r, EntryCount)
    ensures DistinctKeys(r)
    ensures forall i :: 0 <= i < |r| ==> r[i].count == multiset(ks)[r[i].key] && r[i].count >= 1
    ensures forall i :: 0 <= i < |ks| ==> ks[i] in Keys(r)
    ensures SumCounts(r) == |ks|
    ensures forall i, j :: 0 <= i < j < |r| && r[i].count == r[j].count ==>
      Position(ks, r[i].key) < Position(ks, r[j].key)
  {
    var t := Tally(ks);
    TallyCountsPositive(ks);
    var r := SortDesc(t, EntryCount);
    SortDescStable(t, EntryCount, (e: Entry<K>) => Position(ks, e.key));
    PermutationKeepsEntries(t, r);
    PermutationKeepsDistinct(t, r);
    SumCountsPermutation(t, r);
    RankCovers(ks, t, r);
    r
  }

  /**
   * The first `n` entries of a ranking: the `n` most frequent keys, most
   * frequent first; of keys tied at the cut, the ones seen first are kept.
   */
  function TopRanked<K(==)>(ks: seq<K>, n: nat): (r: seq<Entry<K>>)
    ensures |r| == if |Rank(ks)| < n then |Rank(ks)| else n
    ensures forall i :: 0 <= i < |r| ==> r[i] == Rank(ks)[i]
    ensures SortedDesc(r, EntryCount) && DistinctKeys(r)
    ensures forall i :: 0 <= i < |r| ==> r[i].count == multiset(ks)[r[i].key] && r[i].count >= 1
    ensures forall x :: x in ks ==>
      (x in Keys(r) || forall i :: 0 <= i < |r| ==> r[i].count >= multiset(ks)[x])
    ensures forall x :: x in ks && x !in Keys(r) ==> forall i :: 0 <= i < |r| ==>
      r[i].count > multiset(ks)[x] || Position(ks, r[i].key) < Position(ks, x)
    ensures |r| == n || forall i :: 0 <= i < |ks| ==> ks[i] in Keys(r)
  {
    RankingPrefix(ks, Rank(ks), n);
    Take(Rank(ks), n)
  }

  /** The facts `TopRanked` states, for the first `n` entries of any ranking with `Rank`'s properties. */
  lemma RankingPrefix<K>(ks: seq<K>, ranked: seq<Entry<K>>, n: nat)
    requires SortedDesc(ranked, EntryCount) && DistinctKeys(ranked)
    requires forall i :: 0 <= i < |ranked| ==> ranked[i].count == multiset(ks)[ranked[i].key] && ranked[i].count >= 1
    requires forall i, j :: 0 <= i < j < |ranked| && ranked[i].count == ranked[j].count ==>
      Position(ks, ranked[i].key) < Position(ks, ranked[j].key)
    requires forall i :: 0 <= i < |ks| ==> ks[i] in Keys(ranked)
    ensures var r := Take(ranked, n);
      && SortedDesc(r, EntryCount) && DistinctKeys(r)
      && (forall i :: 0 <= i < |r| ==> r[i].count == multiset(ks)[r[i].key] && r[i].count >= 1)
      && (forall x :: x in ks ==>
           (x in Keys(r) || forall i :: 0 <= i < |r| ==> r[i].count >= multiset(ks)[x]))
      && (forall x :: x in ks && x !in Keys(r) ==> forall i :: 0 <= i < |r| ==>
           r[i].count > multiset(ks)[x] || Position(ks, r[i].key) < Position(ks, x))
      && (|r| == n || forall i :: 0 <= i < |ks| ==> ks[i] in Keys(r))
  {
    var r := Take(ranked, n);
    TakeSorted(ranked, n, EntryCount);
    assert forall i :: 0 <= i < |r| ==> r[i] == ranked[i];
    OmittedAreRare(ks, ranked, r);
    assert |r| != n ==> r == ranked;
  }

  /**
   * A key cut from a sorted ranking occurs no more often than any key kept,
   * and, when the ranking breaks ties by first occurrence, less often than
   * any kept key seen after it.
   */
  lemma OmittedAreRare<K>(ks: seq<K>, ranked: seq<Entry<K>>, top: seq<Entry<K>>)
    requires SortedDesc(ranked, EntryCount)
    requires forall i :: 0 <= i < |ranked| ==> ranked[i].count == multiset(ks)[ranked[i].key]
    requires forall i, j :: 0 <= i < j < |ranked| && ranked[i].count == ranked[j].count ==>
      Position(ks, ranked[i].key) < Position(ks, ranked[j].key)
    requires forall i :: 0 <= i < |ks| ==> ks[i] in Keys(ranked)
    requires |top| <= |ranked| && top == ranked[..|top|]
    ensures forall x :: x in ks ==>
      (x in Keys(top) || forall i :: 0 <= i < |top| ==> top[i].count >= multiset(ks)[x])
    ensures forall x :: x in ks && x !in Keys(top) ==> forall i :: 0 <= i < |top| ==>
      top[i].count > multiset(ks)[x] || Position(ks, top[i].key) < Position(ks, x)
  {
    forall x | x in ks && x !in Keys(top)
      ensures forall i :: 0 <= i < |top| ==> top[i].count >= multiset(ks)[x]
      ensures forall i :: 0 <= i < |top| ==>
        top[i].count > multiset(ks)[x] || Position(ks, top[i].key) < Position(ks, x)
    {
      var m :| 0 <= m < |ks| && ks[m] == x;
      var j :| 0 <= j < |ranked| && Keys(ranked)[j] == x;
      assert forall i :: 0 <= i < |top| ==> Keys(top)[i] == Keys(ranked)[i];
      assert |top| <= j;
      forall i | 0 <= i < |top|
        ensures top[i].count >= multiset(ks)[x]
        ensures top[i].count > multiset(ks)[x] || Position(ks, top[i].key) < Position(ks, x)
      {
        assert EntryCount(ranked[i]) >= EntryCount(ranked[j]);
        assert ranked[j].key == x;
      }
    }
  }

  lemma RankCovers<K>(ks: seq<K>, t: seq<Entry<K>>, r: seq<Entry<K>>)
    requires forall i :: 0 <= i < |ks| ==> ks[i] in Keys(t)
    requires multiset(r) == multiset(t)
    ensures forall i :: 0 <= i < |ks| ==> ks[i] in Keys(r)
  {
    PermutationKeepsEntries(r, t);
    forall i | 0 <= i < |ks| ensures ks[i] in Keys(r) {
      var m :| 0 <= m < |t| && Keys(t)[m] == ks[i];
      assert t[m] in r;
      var j :| 0 <= j < |r| && r[j] == t[m];
      assert Keys(r)[j] == ks[i];
    }
  }

  lemma PermutationKeepsEntries<T>(a: seq<T>, b: seq<T>)
    requires multiset(a) == multiset(b)
    ensures forall i :: 0 <= i < |b| ==> b[i] in a
  {
    forall i | 0 <= i < |b| ensures b[i] in a {
      assert b[i] in multiset(b);
    }
  }

  lemma PermutationKeepsDistinct<K>(t: seq<Entry<K>>, r: seq<Entry<K>>)
    requires DistinctKeys(t) && multiset(r) == multiset(t)
    ensures DistinctKeys(r)
  {
    PermutationKeepsEntries(t, r);
    forall i, j | 0 <= i < j < |r| ensures r[i].key != r[j].key {
      var m :| 0 <= m < |t| && t[m] == r[i];
      var n :| 0 <= n < |t| && t[n] == r[j];
      if m == n {
        TwoPositions(r, i, j);
        SingleOccurrence(t, m);
        assert false;
      }
    }
  }

  /** A value at two positions occurs at least twice. */
  lemma TwoPositions<T>(s: seq<T>, i: nat, j: nat)
    requires i < j < |s| && s[i] == s[j]
    ensures multiset(s)[s[i]] >= 2
  {
    assert s == s[..i] + [s[i]] + s[i + 1..j] + [s[j]] + s[j + 1..];
  }

  /** In a table with distinct keys an entry occurs once. */
  lemma SingleOccurrence<K>(t: seq<Entry<K>>, m: nat)
    requires DistinctKeys(t) && m < |t|
    ensures multiset(t)[t[m]] == 1
  {
    var before := t[..m];
    var after := t[m + 1..];
    assert t == before + [t[m]] + after;
    assert forall i :: 0 <= i < |before| ==> before[i] != t[m];
    assert forall i :: 0 <= i < |after| ==> after[i] == t[m + 1 + i];
  }

  lemma {:induction false} SumCountsSplit<K>(a: seq<Entry<K>>, b: seq<Entry<K>>)
    ensures SumCounts(a + b) == SumCounts(a) + SumCounts(b)
    decreases |a|
  {
    if a == [] {
      assert a + b == b;
    } else {
      SumCountsSplit(a[1..], b);
      assert (a + b)[0] == a[0];
      assert (a + b)[1..] == a[1..] + b;
    }
  }

  /** Taking one entry out of a table takes its count off the total. */
  lemma SumCountsRemove<K>(b: seq<Entry<K>>, m: nat)
    requires m < |b|
    ensures SumCounts(b) == b[m].count + SumCounts(b[..m] + b[m + 1..])
  {
    assert b == b[..m] + ([b[m]] + b[m + 1..]);
    SumCountsSplit(b[..m], [b[m]] + b[m + 1..]);
    SumCountsSplit(b[..m], b[m + 1..]);
    assert ([b[m]] + b[m + 1..])[0] == b[m];
    assert ([b[m]] + b[m + 1..])[1..] == b[m + 1..];
  }

  /** Removing the same element from two permutations of each other leaves permutations. */
  lemma MultisetRemove<T>(a: seq<T>, b: seq<T>, m: nat)
    requires a != [] && m < |b| && b[m] == a[0] && multiset(a) == multiset(b)
    ensures multiset(a[1..]) == multiset(b[..m] + b[m + 1..])
  {
    assert b == b[..m] + [b[m]] + b[m + 1..];
    assert a == [a[0]] + a[1..];
    assert multiset(b) == multiset(b[..m]) + multiset([b[m]]) + multiset(b[m + 1..]);
    assert multiset(a) == multiset([a[0]]) + multiset(a[1..]);
    assert multiset(b[..m] + b[m + 1..]) == multiset(b[..m]) + multiset(b[m + 1..]);
    calc {
      multiset(a[1..]);
      multiset(a) - multiset([a[0]]);
      multiset(b) - multiset([b[m]]);
      multiset(b[..m]) + multiset(b[m + 1..]);
    }
  }

  /** The total count depends only on the entries, not on their order. */
  lemma {:induction false} SumCountsPermutation<K>(a: seq<Entry<K>>, b: seq<Entry<K>>)
    requires multiset(a) == multiset(b)
    ensures SumCounts(a) == SumCounts(b)
    decreases |a|
  {
    if a == [] {
      assert |b| == |multiset(b)|;
    } else {
      assert a[0] in multiset(b);
      var m :| 0 <= m < |b| && b[m] == a[0];
      MultisetRemove(a, b, m);
      SumCountsPermutation(a[1..], b[..m] + b[m + 1..]);
      SumCountsRemove(b, m);
    }
  }
}
