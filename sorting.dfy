/** `Array.prototype.sort` with a numeric comparator `(a, b) => key(a) - key(b)`: a stable
    sort by a real-valued key. It is defined here as an insertion sort, which is stable,
    and its result is pinned down by two facts: it is sorted and it is a permutation. */
module Sorting {
  import opened Seqs

  predicate SortedBy<T>(s: seq<T>, key: T -> real) {
    forall i, j :: 0 <= i < j < |s| ==> key(s[i]) <= key(s[j])
  }

  predicate SortedReals(s: seq<real>) {
    forall i, j :: 0 <= i < j < |s| ==> s[i] <= s[j]
  }

  /** Places `x` after every element whose key is at most its own, which keeps equal keys
      in their original order. */
  function Insert<T>(s: seq<T>, x: T, key: T -> real): (r: seq<T>)
    requires SortedBy(s, key)
    ensures |r| == |s| + 1
    ensures SortedBy(r, key)
    ensures multiset(r) == multiset(s) + multiset{x}
  {
    if s == [] then [x]
    else if key(s[|s| - 1]) <= key(x) then s + [x]
    else
      var r' := Insert(s[..|s| - 1], x, key);
      InsertStep(s, x, key, r');
      r' + [s[|s| - 1]]
  }

  /** The step that puts the last element back after `x` was placed among the others. */
  lemma InsertStep<T>(s: seq<T>, x: T, key: T -> real, r': seq<T>)
    requires s != [] && SortedBy(s, key) && key(x) < key(s[|s| - 1])
    requires SortedBy(r', key) && multiset(r') == multiset(s[..|s| - 1]) + multiset{x}
    ensures SortedBy(r' + [s[|s| - 1]], key)
    ensures multiset(r' + [s[|s| - 1]]) == multiset(s) + multiset{x}
  {
    var init, last := s[..|s| - 1], s[|s| - 1];
    assert s == init + [last];
    forall i | 0 <= i < |r'|
      ensures key(r'[i]) <= key(last)
    {
      assert r'[i] in multiset(r');
      if r'[i] != x {
        var j :| 0 <= j < |init| && init[j] == r'[i];
        assert s[j] == init[j];
      }
    }
    var r := r' + [last];
    forall i, j | 0 <= i < j < |r|
      ensures key(r[i]) <= key(r[j])
    {
      if j < |r'| {
        assert r[i] == r'[i] && r[j] == r'[j];
      } else {
        assert r[i] == r'[i];
      }
    }
  }

  /** The sorted copy `[...s].sort((a, b) => key(a) - key(b))`. */
  function SortBy<T>(s: seq<T>, key: T -> real): (r: seq<T>)
    ensures |r| == |s|
    ensures SortedBy(r, key)
    ensures multiset(r) == multiset(s)
  {
    if s == [] then []
    else
      var init := s[..|s| - 1];
      assert s == init + [s[|s| - 1]];
      Insert(SortBy(init, key), s[|s| - 1], key)
  }

  lemma SortedByKeys<T>(s: seq<T>, key: T -> real)
    ensures SortedBy(s, key) <==> SortedReals(MapSeq(key, s))
  {
  }

  /** Two sorted sequences of reals holding the same elements are equal. */
  lemma {:induction false} SortedUnique(a: seq<real>, b: seq<real>)
    requires SortedReals(a) && SortedReals(b)
    requires multiset(a) == multiset(b)
    ensures a == b
  {
    if a == [] {
      assert |multiset(b)| == 0;
    } else {
      assert |b| == |multiset(b)| == |a|;
      var x, y := a[|a| - 1], b[|b| - 1];
      assert y in multiset(a);
      assert x in multiset(b);
      assert y <= x by {
        var i :| 0 <= i < |a| && a[i] == y;
      }
      assert x <= y by {
        var j :| 0 <= j < |b| && b[j] == x;
      }
      var a', b' := a[..|a| - 1], b[..|b| - 1];
      assert a == a' + [x];
      assert b == b' + [y];
      MultisetCancel(multiset(a'), multiset(b'), x);
      SortedUnique(a', b');
    }
  }

  /** The keys of a sorted copy, in order, depend only on which elements the input holds,
      never on their order. */
  lemma SortKeysOrderIndependent<T>(s: seq<T>, t: seq<T>, key: T -> real)
    requires multiset(s) == multiset(t)
    ensures MapSeq(key, SortBy(s, key)) == MapSeq(key, SortBy(t, key))
  {
    var a, b := SortBy(s, key), SortBy(t, key);
    SortedByKeys(a, key);
    SortedByKeys(b, key);
    MapMultiset(key, a, b);
    SortedUnique(MapSeq(key, a), MapSeq(key, b));
  }

  /** Sorting a sequence that is already sorted changes nothing. */
  lemma {:induction false} SortSorted<T>(s: seq<T>, key: T -> real)
    requires SortedBy(s, key)
    ensures SortBy(s, key) == s
  {
    if s != [] {
      var init, last := s[..|s| - 1], s[|s| - 1];
      assert SortedBy(init, key);
      SortSorted(init, key);
      assert SortBy(s, key) == Insert(init, last, key);
      if init != [] {
        assert key(init[|init| - 1]) <= key(last);
      }
      assert s == init + [last];
    }
  }

  /** Two ascending sequences of the same integers are equal. */
  lemma SortedIntsUnique(a: seq<int>, b: seq<int>)
    requires forall i, j :: 0 <= i < j < |a| ==> a[i] <= a[j]
    requires forall i, j :: 0 <= i < j < |b| ==> b[i] <= b[j]
    requires multiset(a) == multiset(b)
    ensures a == b
  {
    var ra, rb := MapSeq(IntKey, a), MapSeq(IntKey, b);
    MapMultiset(IntKey, a, b);
    SortedUnique(ra, rb);
    assert |a| == |b|;
    forall i | 0 <= i < |a|
      ensures a[i] == b[i]
    {
      assert ra[i] == rb[i];
    }
  }

  function IntKey(k: int): real { k as real }

  /** The distinct keys of `s`, ascending: the keys of a `Map` filled from `s`, sorted. */
  function DistinctKeys<T>(s: seq<T>, key: T -> int): seq<int> {
    SortBy(Dedup(MapSeq(key, s)), IntKey)
  }

  lemma DistinctKeysCount<T>(s: seq<T>, key: T -> int)
    ensures |DistinctKeys(s, key)| <= |s|
  {
  }

  /** A key occurs exactly when some element has it. */
  lemma DistinctKeysMembership<T>(s: seq<T>, key: T -> int, k: int)
    ensures k in DistinctKeys(s, key) <==> exists i :: 0 <= i < |s| && key(s[i]) == k
  {
    var ks := MapSeq(key, s);
    var d := Dedup(ks);
    assert k in DistinctKeys(s, key) <==> k in multiset(d);
    assert k in d <==> k in ks;
    MapSeqMembership(key, s, k);
  }

  /** The distinct keys are strictly ascending. */
  lemma DistinctKeysAscending<T>(s: seq<T>, key: T -> int)
    ensures forall i, j :: 0 <= i < j < |DistinctKeys(s, key)| ==> DistinctKeys(s, key)[i] < DistinctKeys(s, key)[j]
  {
    var keys := Dedup(MapSeq(key, s));
    var w := SortBy(keys, IntKey);
    NoDupPermutation(keys, w);
    SortedDistinctAscending(w);
  }

  lemma SortedDistinctAscending(w: seq<int>)
    requires SortedBy(w, IntKey) && NoDup(w)
    ensures forall i, j :: 0 <= i < j < |w| ==> w[i] < w[j]
  {
    forall i, j | 0 <= i < j < |w|
      ensures w[i] < w[j]
    {
      assert IntKey(w[i]) <= IntKey(w[j]);
    }
  }
}
