/** Counting and ranking over sequences, as the components do with
    `xs.reduce((acc, x) => { acc[x] = (acc[x] || 0) + 1; return acc; }, {})`,
    `Object.entries(...)`, `.sort(([, a], [, b]) => b - a)` and `new Set(xs).size`.

    A JavaScript object used as a counter keeps its keys in insertion order, so
    a tally is modelled as a sequence of (key, count) pairs with distinct keys. */
module Tally {

  // ---------------------------------------------------------------------------
  // Keys, distinctness, first occurrences
  // ---------------------------------------------------------------------------

  function Keys<K(==,!new)>(t: seq<(K, nat)>): (ks: seq<K>)
    ensures |ks| == |t|
    ensures forall i :: 0 <= i < |t| ==> ks[i] == t[i].0
  {
    seq(|t|, i requires 0 <= i < |t| => t[i].0)
  }

  predicate Distinct<K(==,!new)>(ks: seq<K>) {
    forall i, j :: 0 <= i < j < |ks| ==> ks[i] != ks[j]
  }

  /** Position of the first occurrence of `k` in `xs`, or `|xs|` when absent. */
  function FirstIndex<K(==,!new)>(xs: seq<K>, k: K): (i: nat)
    ensures i <= |xs|
    ensures i < |xs| <==> k in xs
    ensures i < |xs| ==> xs[i] == k
    ensures forall j :: 0 <= j < i ==> xs[j] != k
  {
    if xs == [] then 0
    else if xs[0] == k then 0
    else 1 + FirstIndex(xs[1..], k)
  }

  /** Extending a sequence does not move the first occurrence of a key it
      already held. */
  lemma {:induction false} FirstIndexExtend<K(!new)>(xs: seq<K>, x: K, k: K)
    requires k in xs
    ensures FirstIndex(xs + [x], k) == FirstIndex(xs, k)
  {
    var i := FirstIndex(xs, k);
    var s := xs + [x];
    assert s[i] == k;
    assert forall j :: 0 <= j < i ==> s[j] == xs[j];
  }

  /** A sequence without repetitions has as many elements as its set. */
  lemma {:induction false} DistinctCardinality<K(!new)>(ks: seq<K>)
    requires Distinct(ks)
    ensures |set k | k in ks| == |ks|
  {
    if ks != [] {
      var last := ks[|ks| - 1];
      var init := ks[..|ks| - 1];
      DistinctCardinality(init);
      assert (set k | k in ks) == (set k | k in init) + {last};
      assert last !in init;
    }
  }

  /** A sequence has at least as many elements as its set. */
  lemma {:induction false} CardinalityBound<K(!new)>(xs: seq<K>)
    ensures |set x | x in xs| <= |xs|
    ensures |set x | x in xs| == 0 <==> xs == []
  {
    if xs != [] {
      var init := xs[..|xs| - 1];
      CardinalityBound(init);
      assert (set x | x in xs) == (set x | x in init) + {xs[|xs| - 1]};
    }
  }

  // ---------------------------------------------------------------------------
  // The tally
  // ---------------------------------------------------------------------------

  /** `acc[k] = (acc[k] || 0) + 1`: raise the count of `k`, or append `k` with
      count 1 when it is new. */
  function Bump<K(==,!new)>(t: seq<(K, nat)>, k: K): (r: seq<(K, nat)>)
    requires Distinct(Keys(t))
    ensures |r| == (if k in Keys(t) then |t| else |t| + 1)
    ensures forall i :: 0 <= i < |t| ==> r[i] == (t[i].0, t[i].1 + if t[i].0 == k then 1 else 0)
    ensures k !in Keys(t) ==> r[|t|] == (k, 1)
  {
    var ks := Keys(t);
    if k in ks then
      var j := FirstIndex(ks, k);
      t[j := (k, t[j].1 + 1)]
    else
      t + [(k, 1)]
  }

  /** `t` is the counter object for `xs`: its keys are distinct, each key's
      count is its (positive) number of occurrences in `xs`, and the keys are
      exactly the values occurring in `xs`. */
  ghost predicate IsTallyOf<K(!new)>(t: seq<(K, nat)>, xs: seq<K>) {
    && Distinct(Keys(t))
    && (forall i :: 0 <= i < |t| ==> t[i].1 == multiset(xs)[t[i].0] && t[i].1 > 0)
    && (forall k :: k in Keys(t) <==> k in xs)
  }

  /** One step of the fold keeps the tally exact. */
  lemma {:induction false} BumpStep<K(!new)>(t: seq<(K, nat)>, xs: seq<K>, x: K)
    requires IsTallyOf(t, xs)
    ensures IsTallyOf(Bump(t, x), xs + [x])
  {
    var r := Bump(t, x);
    var ys := xs + [x];
    assert multiset(ys) == multiset(xs) + multiset{x};
    if x in Keys(t) {
      assert Keys(r) == Keys(t);
    } else {
      assert Keys(r) == Keys(t) + [x];
      assert multiset(xs)[x] == 0;
    }
    forall k | k in ys
      ensures k in Keys(r)
    {
      if k != x {
        assert k in xs;
      }
    }
  }

  /** The counter object built by folding over `xs` from left to right. */
  function TallyOf<K(==,!new)>(xs: seq<K>): (t: seq<(K, nat)>)
    ensures IsTallyOf(t, xs)
  {
    if xs == [] then []
    else
      var init := xs[..|xs| - 1];
      var x := xs[|xs| - 1];
      assert xs == init + [x];
      BumpStep(TallyOf(init), init, x);
      Bump(TallyOf(init), x)
  }

  function SumCounts<K(==,!new)>(t: seq<(K, nat)>): nat {
    if t == [] then 0 else t[0].1 + SumCounts(t[1..])
  }

  lemma {:induction false} SumCountsBump<K(!new)>(t: seq<(K, nat)>, k: K)
    requires Distinct(Keys(t))
    ensures SumCounts(Bump(t, k)) == SumCounts(t) + 1
  {
    var r := Bump(t, k);
    if t != [] {
      assert Keys(t[1..]) == Keys(t)[1..];
      if t[0].0 == k {
        assert r[1..] == t[1..];
      } else {
        SumCountsBump(t[1..], k);
        assert r[1..] == Bump(t[1..], k);
      }
    }
  }

  /** The counts of a tally add up to the length of the tallied sequence. */
  lemma {:induction false} TallySum<K(!new)>(xs: seq<K>)
    ensures SumCounts(TallyOf(xs)) == |xs|
  {
    if xs != [] {
      TallySum(xs[..|xs| - 1]);
      SumCountsBump(TallyOf(xs[..|xs| - 1]), xs[|xs| - 1]);
    }
  }

  /** A tally has one entry per distinct value: `Object.keys(acc).length`
      equals `new Set(xs).size`. */
  lemma {:induction false} TallySize<K(!new)>(xs: seq<K>)
    ensures |TallyOf(xs)| == |set x | x in xs|
  {
    var t := TallyOf(xs);
    DistinctCardinality(Keys(t));
    assert (set k | k in Keys(t)) == (set x | x in xs);
  }

  /** The keys of `t` come in the order of their first occurrence in `xs`. */
  ghost predicate FirstOccurrenceOrdered<K(!new)>(t: seq<(K, nat)>, xs: seq<K>) {
    forall i, j :: 0 <= i < j < |t| ==> FirstIndex(xs, t[i].0) < FirstIndex(xs, t[j].0)
  }

  lemma {:induction false} BumpKeepsFirstOccurrenceOrder<K(!new)>(t: seq<(K, nat)>, xs: seq<K>, x: K)
    requires Distinct(Keys(t)) && (forall k :: k in Keys(t) <==> k in xs)
    requires FirstOccurrenceOrdered(t, xs)
    ensures FirstOccurrenceOrdered(Bump(t, x), xs + [x])
  {
    var r := Bump(t, x);
    var ys := xs + [x];
    var old_first := seq(|t|, i requires 0 <= i < |t| => FirstIndex(xs, t[i].0));
    forall i | 0 <= i < |t|
      ensures r[i].0 == t[i].0 && FirstIndex(ys, r[i].0) == old_first[i] < |xs|
    {
      assert Keys(t)[i] == t[i].0;
      FirstIndexExtend(xs, x, t[i].0);
    }
    if x !in Keys(t) {
      assert x !in xs;
      assert FirstIndex(ys, r[|t|].0) == |xs|;
    }
    forall i, j | 0 <= i < j < |r|
      ensures FirstIndex(ys, r[i].0) < FirstIndex(ys, r[j].0)
    {
      assert i < |t| && FirstIndex(ys, r[i].0) == old_first[i] < |xs|;
      if j < |t| {
        assert FirstIndex(ys, r[j].0) == old_first[j];
        assert old_first[i] < old_first[j];
      } else {
        assert x !in Keys(t) && j == |t|;
      }
    }
  }

  /** The keys of a tally come in the order of their first occurrence in the
      tallied sequence (the insertion order of a JavaScript object). */
  lemma {:induction false} TallyFirstOccurrenceOrder<K(!new)>(xs: seq<K>)
    ensures FirstOccurrenceOrdered(TallyOf(xs), xs)
  {
    if xs != [] {
      var init := xs[..|xs| - 1];
      var x := xs[|xs| - 1];
      assert xs == init + [x];
      TallyFirstOccurrenceOrder(init);
      BumpKeepsFirstOccurrenceOrder(TallyOf(init), init, x);
    }
  }

  // ---------------------------------------------------------------------------
  // Stable sort by descending count
  // ---------------------------------------------------------------------------

  predicate NonIncreasing<K(==,!new)>(s: seq<(K, nat)>) {
    forall i, j :: 0 <= i < j < |s| ==> s[i].1 >= s[j].1
  }

  /** Where `e` goes in a sequence sorted by descending count when it is
      placed after every entry whose count is at least its own. */
  function InsertPos<K(==,!new)>(s: seq<(K, nat)>, e: (K, nat)): (p: nat)
    ensures p <= |s|
    ensures forall i :: 0 <= i < p ==> s[i].1 >= e.1
    ensures p < |s| ==> s[p].1 < e.1
  {
    if s == [] || s[0].1 < e.1 then 0 else 1 + InsertPos(s[1..], e)
  }

  function InsertDesc<K(==,!new)>(s: seq<(K, nat)>, e: (K, nat)): seq<(K, nat)> {
    s[..InsertPos(s, e)] + [e] + s[InsertPos(s, e)..]
  }

  /** Entries with equal counts appear in increasing rank. */
  predicate TieOrdered<K(==,!new)>(s: seq<(K, nat)>, rank: K -> int) {
    forall i, j :: 0 <= i < j < |s| && s[i].1 == s[j].1 ==> rank(s[i].0) < rank(s[j].0)
  }

  /** All entries appear in increasing rank. */
  predicate StrictlyRanked<K(==,!new)>(s: seq<(K, nat)>, rank: K -> int) {
    forall i, j :: 0 <= i < j < |s| ==> rank(s[i].0) < rank(s[j].0)
  }

  /** Inserting into a sequence sorted by descending count keeps it sorted,
      adds exactly `e`, and adds `e`'s key to the keys. */
  lemma {:induction false} InsertDescStep<K(!new)>(s: seq<(K, nat)>, e: (K, nat))
    requires NonIncreasing(s)
    ensures NonIncreasing(InsertDesc(s, e))
    ensures multiset(InsertDesc(s, e)) == multiset(s) + multiset{e}
    ensures forall k :: k in Keys(InsertDesc(s, e)) <==> k in Keys(s) || k == e.0
    ensures Distinct(Keys(s)) && e.0 !in Keys(s) ==> Distinct(Keys(InsertDesc(s, e)))
  {
    InsertDescSorted(s, e);
    var p := InsertPos(s, e);
    assert s == s[..p] + s[p..];
    InsertDescKeys(s, e);
  }

  /** Where each entry of the insertion ends up. */
  lemma {:induction false} InsertDescAt<K(!new)>(s: seq<(K, nat)>, e: (K, nat))
    ensures var r, p := InsertDesc(s, e), InsertPos(s, e);
      && |r| == |s| + 1 && r[p] == e
      && (forall i :: 0 <= i < p ==> r[i] == s[i])
      && (forall i :: p < i < |r| ==> r[i] == s[i - 1])
  {
  }

  lemma {:induction false} InsertDescSorted<K(!new)>(s: seq<(K, nat)>, e: (K, nat))
    requires NonIncreasing(s)
    ensures NonIncreasing(InsertDesc(s, e))
  {
    var p := InsertPos(s, e);
    var r := InsertDesc(s, e);
    InsertDescAt(s, e);
    forall i, j | 0 <= i < j < |r|
      ensures r[i].1 >= r[j].1
    {
      if j == p {
        assert r[i] == s[i];
      } else if i == p {
        assert r[j] == s[j - 1];
      } else {
        var i' := if i < p then i else i - 1;
        var j' := if j < p then j else j - 1;
        assert r[i] == s[i'] && r[j] == s[j'];
      }
    }
  }

  lemma {:induction false} InsertDescKeys<K(!new)>(s: seq<(K, nat)>, e: (K, nat))
    ensures forall k :: k in Keys(InsertDesc(s, e)) <==> k in Keys(s) || k == e.0
    ensures Distinct(Keys(s)) && e.0 !in Keys(s) ==> Distinct(Keys(InsertDesc(s, e)))
  {
    var p := InsertPos(s, e);
    var ks, rs := Keys(s), Keys(InsertDesc(s, e));
    InsertDescAt(s, e);
    assert rs[p] == e.0;
    forall k | k in rs
      ensures k in ks || k == e.0
    {
      var i :| 0 <= i < |rs| && rs[i] == k;
      if i < p {
        assert rs[i] == ks[i];
      } else if i > p {
        assert rs[i] == ks[i - 1];
      }
    }
    forall k | k in ks
      ensures k in rs
    {
      var i :| 0 <= i < |ks| && ks[i] == k;
      if i < p {
        assert rs[i] == ks[i];
      } else {
        assert rs[i + 1] == ks[i];
      }
    }
    if Distinct(ks) && e.0 !in ks {
      forall i, j | 0 <= i < j < |rs|
        ensures rs[i] != rs[j]
      {
        var i' := if i < p then i else i - 1;
        var j' := if j < p then j else j - 1;
        if i == p {
          assert rs[j] == ks[j'];
        } else if j == p {
          assert rs[i] == ks[i'];
        } else {
          assert rs[i] == ks[i'] && rs[j] == ks[j'];
        }
      }
    }
  }

  /** `Array.prototype.sort` with the comparator `(a, b) => b.count - a.count`:
      the result is ordered by non-increasing count and is a permutation of
      the input that keeps its keys. */
  function SortDesc<K(==,!new)>(t: seq<(K, nat)>): (r: seq<(K, nat)>)
    ensures NonIncreasing(r)
    ensures multiset(r) == multiset(t)
    ensures |r| == |t|
    ensures forall k :: k in Keys(r) <==> k in Keys(t)
    ensures Distinct(Keys(t)) ==> Distinct(Keys(r))
  {
    if t == [] then []
    else
      var init := t[..|t| - 1];
      var e := t[|t| - 1];
      assert t == init + [e];
      var s := SortDesc(init);
      InsertDescStep(s, e);
      assert Keys(t) == Keys(init) + [e.0];
      assert Distinct(Keys(t)) ==> e.0 !in Keys(init) && Distinct(Keys(init));
      InsertDesc(s, e)
  }

  /** Inserting an entry that ranks above every key already present keeps
      equal-count entries in rank order. */
  lemma {:induction false} InsertDescKeepsTieOrder<K(!new)>(s: seq<(K, nat)>, e: (K, nat), rank: K -> int)
    requires NonIncreasing(s) && TieOrdered(s, rank)
    requires forall i :: 0 <= i < |s| ==> rank(s[i].0) < rank(e.0)
    ensures TieOrdered(InsertDesc(s, e), rank)
  {
    var p := InsertPos(s, e);
    var r := InsertDesc(s, e);
    InsertDescAt(s, e);
    assert forall j :: p < j < |r| ==> r[j].1 < e.1 by {
      forall j | p < j < |r|
        ensures r[j].1 < e.1
      {
        assert r[j] == s[j - 1];
      }
    }
    forall i, j | 0 <= i < j < |r| && r[i].1 == r[j].1
      ensures rank(r[i].0) < rank(r[j].0)
    {
      if j == p {
        assert r[i] == s[i];
      } else if i != p {
        var i' := if i < p then i else i - 1;
        var j' := if j < p then j else j - 1;
        assert r[i] == s[i'] && r[j] == s[j'];
      }
    }
  }

  /** The sort is stable: entries with equal counts keep the order they had,
      here expressed through any ranking under which the input is increasing. */
  lemma {:induction false} SortDescKeepsTieOrder<K(!new)>(t: seq<(K, nat)>, rank: K -> int)
    requires StrictlyRanked(t, rank)
    ensures TieOrdered(SortDesc(t), rank)
  {
    if t != [] {
      var init := t[..|t| - 1];
      var e := t[|t| - 1];
      assert t == init + [e];
      SortDescKeepsTieOrder(init, rank);
      var s := SortDesc(init);
      forall i | 0 <= i < |s|
        ensures rank(s[i].0) < rank(e.0)
      {
        assert Keys(s)[i] == s[i].0;
        assert s[i].0 in Keys(init);
        var j :| 0 <= j < |init| && Keys(init)[j] == s[i].0;
        assert init[j] == t[j];
      }
      InsertDescKeepsTieOrder(s, e, rank);
    }
  }

  /** The first `n` entries of the sorted tally (`.slice(0, n)`). */
  function Top<K(==,!new)>(t: seq<(K, nat)>, n: nat): (r: seq<(K, nat)>)
    ensures |r| == (if |t| < n then |t| else n)
  {
    var s := SortDesc(t);
    var m := if |s| < n then |s| else n;
    s[..m]
  }

  /** Entries with equal counts come in the order of their keys' first
      occurrence in `xs`. */
  ghost predicate TiesInFirstSeenOrder<K(!new)>(top: seq<(K, nat)>, xs: seq<K>) {
    forall i, j :: 0 <= i < j < |top| && top[i].1 == top[j].1 ==>
      FirstIndex(xs, top[i].0) < FirstIndex(xs, top[j].0)
  }

  /** Among the first `n` entries of the ranking, keys counted equally often
      keep the order of their first occurrence in `xs`. */
  lemma {:induction false} TopTiesInFirstSeenOrder<K(!new)>(xs: seq<K>, n: nat)
    ensures TiesInFirstSeenOrder(Top(TallyOf(xs), n), xs)
  {
    var t := TallyOf(xs);
    var rank := (k: K) => FirstIndex(xs, k);
    TallyFirstOccurrenceOrder(xs);
    assert StrictlyRanked(t, rank);
    SortDescKeepsTieOrder(t, rank);
    var s := SortDesc(t);
    var top := Top(t, n);
    assert top == s[..|top|];
    forall i, j | 0 <= i < j < |top| && top[i].1 == top[j].1
      ensures FirstIndex(xs, top[i].0) < FirstIndex(xs, top[j].0)
    {
      assert top[i] == s[i] && top[j] == s[j];
    }
  }

  /** In a sequence sorted by descending count, nothing outside a prefix has
      a larger count than something inside it. */
  lemma {:induction false} PrefixDominates<K(!new)>(s: seq<(K, nat)>, m: nat)
    requires NonIncreasing(s) && m <= |s|
    ensures forall e, f :: e in s && e !in s[..m] && f in s[..m] ==> e.1 <= f.1
  {
    forall e, f | e in s && e !in s[..m] && f in s[..m]
      ensures e.1 <= f.1
    {
      var j :| 0 <= j < |s| && s[j] == e;
      var i :| 0 <= i < m && s[..m][i] == f;
      assert j >= m;
    }
  }

  /** The entries kept by `Top` are the ones with the largest counts: each
      kept entry is an entry of the tally, and no entry left out has a larger
      count than one kept. */
  lemma {:induction false} TopDominates<K(!new)>(t: seq<(K, nat)>, n: nat)
    ensures forall e :: e in Top(t, n) ==> e in t
    ensures forall e, f :: e in t && e !in Top(t, n) && f in Top(t, n) ==> e.1 <= f.1
  {
    var s := SortDesc(t);
    var m := |Top(t, n)|;
    assert Top(t, n) == s[..m];
    assert forall e :: e in s <==> e in t by {
      assert forall e :: e in s <==> e in multiset(s);
    }
    PrefixDominates(s, m);
  }

  /** `Top` keeps the sort's order and the tally's distinct keys, and it has
      `n` entries unless the tally has fewer. */
  lemma {:induction false} TopShape<K(!new)>(t: seq<(K, nat)>, n: nat)
    requires Distinct(Keys(t))
    ensures NonIncreasing(Top(t, n)) && Distinct(Keys(Top(t, n)))
  {
    var s := SortDesc(t);
    var r := Top(t, n);
    assert r == s[..|r|];
    assert Keys(r) == Keys(s)[..|r|];
  }

  /** Every entry kept by `Top` of an exact tally carries the exact count of
      its key. */
  lemma {:induction false} TopCountsExact<K(!new)>(xs: seq<K>, n: nat)
    ensures forall e :: e in Top(TallyOf(xs), n) ==> e.1 == multiset(xs)[e.0] > 0
  {
    var t := TallyOf(xs);
    TopDominates(t, n);
    forall e | e in Top(t, n)
      ensures e.1 == multiset(xs)[e.0] > 0
    {
      var j :| 0 <= j < |t| && t[j] == e;
    }
  }
}
