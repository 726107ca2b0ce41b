/** Sequence combinators with the meaning of JavaScript's `map`, `filter` and of the
    insertion order of a `Map`'s keys, together with the facts the ledger's proofs use. */
module Seqs {

  /** `s.map(f)`. */
  function MapSeq<T, U>(f: T -> U, s: seq<T>): (r: seq<U>)
    ensures |r| == |s|
    ensures forall i :: 0 <= i < |s| ==> r[i] == f(s[i])
  {
    if s == [] then [] else MapSeq(f, s[..|s| - 1]) + [f(s[|s| - 1])]
  }

  lemma MapSeqMembership<T, U>(f: T -> U, s: seq<T>, y: U)
    ensures y in MapSeq(f, s) <==> exists i :: 0 <= i < |s| && f(s[i]) == y
  {
    var m := MapSeq(f, s);
    if y in m {
      var i :| 0 <= i < |m| && m[i] == y;
      assert f(s[i]) == y;
    }
  }

  /** `s.filter(p)`. */
  function Filter<T>(p: T -> bool, s: seq<T>): (r: seq<T>)
    ensures |r| <= |s|
    ensures forall i :: 0 <= i < |r| ==> p(r[i])
  {
    if s == [] then []
    else
      var init := Filter(p, s[..|s| - 1]);
      if p(s[|s| - 1]) then init + [s[|s| - 1]] else init
  }

  /** An element survives filtering exactly when it was present and satisfies `p`. */
  lemma {:induction false} FilterMembership<T>(p: T -> bool, s: seq<T>, x: T)
    ensures x in Filter(p, s) <==> x in s && p(x)
  {
    if s != [] {
      var pre := s[..|s| - 1];
      FilterMembership(p, pre, x);
      assert s == pre + [s[|s| - 1]];
    }
  }

  /** `idx` lists, in increasing order, positions of `s` that spell out `r`. */
  ghost predicate Embeds<T>(idx: seq<int>, r: seq<T>, s: seq<T>) {
    && |idx| == |r|
    && (forall i :: 0 <= i < |idx| ==> 0 <= idx[i] < |s| && r[i] == s[idx[i]])
    && (forall i, j :: 0 <= i < j < |idx| ==> idx[i] < idx[j])
  }

  /** `r` is `s` with some elements left out and the rest in their original order. */
  ghost predicate SubsequenceOf<T>(r: seq<T>, s: seq<T>) {
    exists idx :: Embeds(idx, r, s)
  }

  /** Filtering keeps an order-preserving subsequence. */
  lemma {:induction false} FilterIsSubsequence<T>(p: T -> bool, s: seq<T>)
    ensures SubsequenceOf(Filter(p, s), s)
  {
    if s == [] {
      assert Embeds([], Filter(p, s), s);
    } else {
      var pre := s[..|s| - 1];
      FilterIsSubsequence(p, pre);
      var fp := Filter(p, pre);
      var idx :| Embeds(idx, fp, pre);
      assert forall i :: 0 <= i < |idx| ==> s[idx[i]] == pre[idx[i]];
      if p(s[|s| - 1]) {
        assert Filter(p, s) == fp + [s[|s| - 1]];
        var idx' := idx + [|s| - 1];
        assert forall i :: 0 <= i < |idx| ==> idx'[i] == idx[i];
        assert Embeds(idx', Filter(p, s), s);
      } else {
        assert Filter(p, s) == fp;
        assert Embeds(idx, Filter(p, s), s);
      }
    }
  }

  /** Filtering distributes over concatenation. */
  lemma {:induction false} FilterConcat<T>(p: T -> bool, a: seq<T>, b: seq<T>)
    ensures Filter(p, a + b) == Filter(p, a) + Filter(p, b)
  {
    if b != [] {
      assert (a + b)[..|a + b| - 1] == a + b[..|b| - 1];
      FilterConcat(p, a, b[..|b| - 1]);
    } else {
      assert a + b == a;
    }
  }

  /** A filter that keeps everything is the identity. */
  lemma {:induction false} FilterAll<T>(p: T -> bool, s: seq<T>)
    requires forall i :: 0 <= i < |s| ==> p(s[i])
    ensures Filter(p, s) == s
  {
    if s != [] {
      FilterAll(p, s[..|s| - 1]);
    }
  }

  predicate NoDup<T(==)>(s: seq<T>) {
    forall i, j :: 0 <= i < j < |s| ==> s[i] != s[j]
  }

  /** The keys of a `Map` in insertion order: the first occurrence of each element. */
  function Dedup<T(==,!new)>(s: seq<T>): (r: seq<T>)
    ensures |r| <= |s|
    ensures NoDup(r)
    ensures forall x :: x in r <==> x in s
  {
    if s == [] then []
    else
      var d := Dedup(s[..|s| - 1]);
      assert forall x :: x in s <==> x in s[..|s| - 1] || x == s[|s| - 1];
      if s[|s| - 1] in d then d else d + [s[|s| - 1]]
  }

  /** Mapping respects permutation: equal multisets map to equal multisets. */
  lemma {:induction false} MapMultiset<T, U>(f: T -> U, a: seq<T>, b: seq<T>)
    requires multiset(a) == multiset(b)
    ensures multiset(MapSeq(f, a)) == multiset(MapSeq(f, b))
  {
    if a == [] {
      assert |multiset(b)| == 0;
    } else {
      var x := a[|a| - 1];
      var pre := a[..|a| - 1];
      assert a == pre + [x];
      assert x in multiset(b);
      var k :| 0 <= k < |b| && b[k] == x;
      var b' := b[..k] + b[k + 1..];
      RemoveAt(b, k);
      MultisetCancel(multiset(pre), multiset(b'), x);
      MapMultiset(f, pre, b');
      MapRemoveAt(f, b, k);
      assert MapSeq(f, a) == MapSeq(f, pre) + [f(x)];
    }
  }

  lemma RemoveAt<T>(b: seq<T>, k: int)
    requires 0 <= k < |b|
    ensures multiset(b) == multiset(b[..k] + b[k + 1..]) + multiset{b[k]}
  {
    assert b == b[..k] + [b[k]] + b[k + 1..];
  }

  lemma MapRemoveAt<T, U>(f: T -> U, b: seq<T>, k: int)
    requires 0 <= k < |b|
    ensures multiset(MapSeq(f, b)) == multiset(MapSeq(f, b[..k] + b[k + 1..])) + multiset{f(b[k])}
  {
    var m := MapSeq(f, b);
    var mb, mr := MapSeq(f, b[..k] + b[k + 1..]), m[..k] + m[k + 1..];
    forall i | 0 <= i < |mb|
      ensures mb[i] == mr[i]
    {
      RemoveAtIndex(b, k, i);
      RemoveAtIndex(m, k, i);
    }
    assert mb == mr;
    RemoveAt(m, k);
    assert m[k] == f(b[k]);
  }

  lemma RemoveAtIndex<T>(b: seq<T>, k: int, i: int)
    requires 0 <= k < |b| && 0 <= i < |b| - 1
    ensures |b[..k] + b[k + 1..]| == |b| - 1
    ensures (b[..k] + b[k + 1..])[i] == if i < k then b[i] else b[i + 1]
  {
  }

  lemma MultisetCancel<T>(a: multiset<T>, b: multiset<T>, x: T)
    requires a + multiset{x} == b + multiset{x}
    ensures a == b
  {
    assert a == (a + multiset{x}) - multiset{x};
    assert b == (b + multiset{x}) - multiset{x};
  }

  lemma {:induction false} MapConcat<T, U>(f: T -> U, a: seq<T>, b: seq<T>)
    ensures MapSeq(f, a + b) == MapSeq(f, a) + MapSeq(f, b)
  {
    if b != [] {
      assert (a + b)[..|a + b| - 1] == a + b[..|b| - 1];
      MapConcat(f, a, b[..|b| - 1]);
    } else {
      assert a + b == a;
    }
  }

  /** One step of a `forEach` over `s`: the prefix grows by the next element. */
  lemma MapSeqSnoc<T, U>(f: T -> U, s: seq<T>, i: int)
    requires 0 <= i < |s|
    ensures MapSeq(f, s[..i + 1]) == MapSeq(f, s[..i]) + [f(s[i])]
  {
    assert s[..i + 1][..i] == s[..i];
  }

  /** The elements of `s` whose `key` is `k`, in their order in `s`: what a bucket keyed
      by `k` holds after pushing every element of `s` into the bucket of its key. */
  function Group<T>(s: seq<T>, key: T -> int, k: int): (r: seq<T>)
    ensures |r| <= |s|
  {
    if s == [] then []
    else Group(s[..|s| - 1], key, k) + (if key(s[|s| - 1]) == k then [s[|s| - 1]] else [])
  }

  lemma GroupSnoc<T>(s: seq<T>, key: T -> int, k: int, i: int)
    requires 0 <= i < |s|
    ensures Group(s[..i + 1], key, k) == Group(s[..i], key, k) + (if key(s[i]) == k then [s[i]] else [])
  {
    assert s[..i + 1][..i] == s[..i];
  }

  /** Every element of a group has the group's key, and every element of `s` with that
      key is in the group. */
  lemma {:induction false} GroupMembership<T>(s: seq<T>, key: T -> int, k: int, x: T)
    ensures x in Group(s, key, k) <==> x in s && key(x) == k
  {
    if s != [] {
      var pre := s[..|s| - 1];
      GroupMembership(pre, key, k, x);
      assert s == pre + [s[|s| - 1]];
    }
  }

  /** No element has a key that none of the keys equals. */
  lemma {:induction false} GroupOfAbsentKey<T>(s: seq<T>, key: T -> int, k: int)
    requires k !in MapSeq(key, s)
    ensures Group(s, key, k) == []
  {
    if s != [] {
      var m := MapSeq(key, s);
      assert m[|s| - 1] == key(s[|s| - 1]);
      assert MapSeq(key, s[..|s| - 1]) == m[..|s| - 1];
      GroupOfAbsentKey(s[..|s| - 1], key, k);
    }
  }

  /** A `Map` whose keys come from `s`: its key list grows by a key not seen before. */
  lemma DedupSnoc<T(!new)>(s: seq<T>, i: int)
    requires 0 <= i < |s|
    ensures Dedup(s[..i + 1]) == if s[i] in Dedup(s[..i]) then Dedup(s[..i]) else Dedup(s[..i]) + [s[i]]
  {
    assert s[..i + 1][..i] == s[..i];
  }

  lemma {:induction false} NoDupCount<T>(s: seq<T>, x: T)
    requires NoDup(s)
    ensures multiset(s)[x] <= 1
  {
    if s != [] {
      var init := s[..|s| - 1];
      assert s == init + [s[|s| - 1]];
      assert forall j :: 0 <= j < |init| ==> init[j] == s[j];
      NoDupCount(init, x);
      if s[|s| - 1] == x {
        assert x !in init;
      }
    }
  }

  lemma TwoCopies<T>(s: seq<T>, i: int, j: int)
    requires 0 <= i < j < |s| && s[i] == s[j]
    ensures multiset(s)[s[i]] >= 2
  {
    assert s == s[..j] + [s[j]] + s[j + 1..];
    assert s[..j][i] == s[i];
    assert s[i] in multiset(s[..j]);
  }

  /** A rearrangement of a list without duplicates has none either. */
  lemma NoDupPermutation<T>(a: seq<T>, b: seq<T>)
    requires multiset(a) == multiset(b) && NoDup(a)
    ensures NoDup(b)
  {
    forall i, j | 0 <= i < j < |b|
      ensures b[i] != b[j]
    {
      if b[i] == b[j] {
        TwoCopies(b, i, j);
        NoDupCount(a, b[i]);
        assert false;
      }
    }
  }

  /** One step of a filtering `forEach` over `s`. */
  lemma FilterSnoc<T>(p: T -> bool, s: seq<T>, i: int)
    requires 0 <= i < |s|
    ensures Filter(p, s[..i + 1]) == Filter(p, s[..i]) + (if p(s[i]) then [s[i]] else [])
  {
    assert s[..i + 1][..i] == s[..i];
  }

  /** An image of a filtered element is an image of an element. */
  lemma {:induction false} FilterImages<T, U>(f: T -> U, p: T -> bool, s: seq<T>, y: U)
    ensures y in MapSeq(f, Filter(p, s)) ==> y in MapSeq(f, s)
  {
    if s != [] {
      var init, last := s[..|s| - 1], s[|s| - 1];
      FilterImages(f, p, init, y);
      assert MapSeq(f, s) == MapSeq(f, init) + [f(last)];
      if p(last) {
        var r := Filter(p, init);
        assert MapSeq(f, r + [last]) == MapSeq(f, r) + [f(last)];
      }
    }
  }

  /** Filtering keeps images distinct: if `f` tells the elements of `s` apart, it tells
      those of any filtered copy apart. */
  lemma {:induction false} FilterDistinctImages<T, U>(f: T -> U, p: T -> bool, s: seq<T>)
    requires NoDup(MapSeq(f, s))
    ensures NoDup(MapSeq(f, Filter(p, s)))
  {
    if s != [] {
      var init, last := s[..|s| - 1], s[|s| - 1];
      var m, mi := MapSeq(f, s), MapSeq(f, init);
      assert m == mi + [f(last)];
      assert NoDup(mi) by {
        forall i, j | 0 <= i < j < |mi|
          ensures mi[i] != mi[j]
        {
          assert m[i] == mi[i] && m[j] == mi[j];
        }
      }
      FilterDistinctImages(f, p, init);
      if p(last) {
        var r := Filter(p, init);
        forall j | 0 <= j < |mi|
          ensures mi[j] != f(last)
        {
          assert m[j] == mi[j] && m[|s| - 1] == f(last);
        }
        FilterImages(f, p, init, f(last));
        var mr := MapSeq(f, r);
        assert MapSeq(f, r + [last]) == mr + [f(last)];
        NoDupSnoc(mr, f(last));
      }
    }
  }

  lemma NoDupSnoc<T>(s: seq<T>, x: T)
    requires NoDup(s) && x !in s
    ensures NoDup(s + [x])
  {
    var t := s + [x];
    forall i, j | 0 <= i < j < |t|
      ensures t[i] != t[j]
    {
      assert t[i] == s[i];
    }
  }
}
