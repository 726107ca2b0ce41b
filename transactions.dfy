/** The purchase record every part of the ledger works on, and sums over lists of them. */
module Txn {
  import opened Seqs

  /** One purchase: `date` is the day number of its 'YYYY-MM-DD' date, `amount` the fiat
      spent, `btcReceived` the bitcoin bought and `rate` the price paid per bitcoin. */
  datatype Transaction = Transaction(
    date: int,
    localTime: string,
    amount: real,
    btcReceived: real,
    rate: real,
    status: string,
    source: string,
    orderId: string)

  function Amount(t: Transaction): real { t.amount }

  function Btc(t: Transaction): real { t.btcReceived }

  function DateKey(t: Transaction): real { t.date as real }

  /** `s.reduce((sum, x) => sum + f(x), 0)`. */
  function SumOf<T>(s: seq<T>, f: T -> real): real {
    if s == [] then 0.0 else SumOf(s[..|s| - 1], f) + f(s[|s| - 1])
  }

  function TotalAmount(s: seq<Transaction>): real { SumOf(s, Amount) }

  function TotalBtc(s: seq<Transaction>): real { SumOf(s, Btc) }

  lemma {:induction false} SumConcat<T>(a: seq<T>, b: seq<T>, f: T -> real)
    ensures SumOf(a + b, f) == SumOf(a, f) + SumOf(b, f)
  {
    if b != [] {
      assert (a + b)[..|a + b| - 1] == a + b[..|b| - 1];
      SumConcat(a, b[..|b| - 1], f);
    } else {
      assert a + b == a;
    }
  }

  /** A sum does not depend on the order of the terms. */
  lemma {:induction false} SumPermutation<T>(a: seq<T>, b: seq<T>, f: T -> real)
    requires multiset(a) == multiset(b)
    ensures SumOf(a, f) == SumOf(b, f)
  {
    if a == [] {
      assert |multiset(b)| == 0;
    } else {
      var x := a[|a| - 1];
      var pre := a[..|a| - 1];
      assert a == pre + [x];
      assert x in multiset(b);
      var k :| 0 <= k < |b| && b[k] == x;
      var b' := b[..k] + b[k + 1..];
      RemoveAt(b, k);
      MultisetCancel(multiset(pre), multiset(b'), x);
      SumPermutation(pre, b', f);
      assert b == b[..k] + [x] + b[k + 1..];
      SumConcat(b[..k] + [x], b[k + 1..], f);
      SumConcat(b[..k], [x], f);
      SumConcat(b[..k], b[k + 1..], f);
      assert SumOf([x], f) == f(x) by {
        assert [x][..0] == [];
      }
    }
  }

  /** The sum of `f` over the elements whose `key` is `k`. */
  function SumWhere<T>(s: seq<T>, key: T -> int, k: int, f: T -> real): real {
    if s == [] then 0.0
    else SumWhere(s[..|s| - 1], key, k, f) + (if key(s[|s| - 1]) == k then f(s[|s| - 1]) else 0.0)
  }

  /** The number of elements whose `key` is `k`. */
  function CountWhere<T>(s: seq<T>, key: T -> int, k: int): (n: nat)
    ensures n <= |s|
  {
    if s == [] then 0
    else CountWhere(s[..|s| - 1], key, k) + (if key(s[|s| - 1]) == k then 1 else 0)
  }

  function One<T>(x: T): real { 1.0 }

  lemma {:induction false} CountIsSumOfOnes<T>(s: seq<T>, key: T -> int, k: int)
    ensures CountWhere(s, key, k) as real == SumWhere(s, key, k, One)
  {
    if s != [] {
      CountIsSumOfOnes(s[..|s| - 1], key, k);
    }
  }

  lemma {:induction false} SumOfOnes<T>(s: seq<T>)
    ensures SumOf(s, One) == |s| as real
  {
    if s != [] {
      SumOfOnes(s[..|s| - 1]);
    }
  }

  /** The sum, over the keys `ks`, of the per-key sums. */
  function SumOverKeys<T>(ks: seq<int>, s: seq<T>, key: T -> int, f: T -> real): real {
    if ks == [] then 0.0
    else SumOverKeys(ks[..|ks| - 1], s, key, f) + SumWhere(s, key, ks[|ks| - 1], f)
  }

  lemma {:induction false} SumOverKeysSnoc<T>(ks: seq<int>, s: seq<T>, x: T, key: T -> int, f: T -> real)
    requires NoDup(ks)
    ensures SumOverKeys(ks, s + [x], key, f)
         == SumOverKeys(ks, s, key, f) + (if key(x) in ks then f(x) else 0.0)
  {
    assert (s + [x])[..|s|] == s;
    if ks != [] {
      var init := ks[..|ks| - 1];
      assert ks == init + [ks[|ks| - 1]];
      assert NoDup(init);
      SumOverKeysSnoc(init, s, x, key, f);
    }
  }

  /** Grouping by key loses nothing: when the keys `ks` are distinct and cover every
      element's key, the per-key sums add up to the whole sum. */
  lemma {:induction false} SumOverKeysPartition<T>(ks: seq<int>, s: seq<T>, key: T -> int, f: T -> real)
    requires NoDup(ks)
    requires forall i :: 0 <= i < |s| ==> key(s[i]) in ks
    ensures SumOverKeys(ks, s, key, f) == SumOf(s, f)
  {
    if s == [] {
      SumOverKeysEmpty(ks, key, f);
    } else {
      var init := s[..|s| - 1];
      assert s == init + [s[|s| - 1]];
      SumOverKeysPartition(ks, init, key, f);
      SumOverKeysSnoc(ks, init, s[|s| - 1], key, f);
    }
  }

  lemma {:induction false} SumOverKeysEmpty<T>(ks: seq<int>, key: T -> int, f: T -> real)
    ensures SumOverKeys(ks, [], key, f) == 0.0
  {
    if ks != [] {
      SumOverKeysEmpty(ks[..|ks| - 1], key, f);
    }
  }
}
