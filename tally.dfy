/** Reductions over fetched rows: `reduce` sums and the group-by tallies that the
    dashboard builds in JavaScript objects. Every sum is a left fold, defined on the
    prefix `xs[..|xs| - 1]` so that it follows a `forEach` loop step by step. */
module Tally {

  /** `xs.reduce((s, x) => s + w(x), 0)`. */
  function Sum<T>(xs: seq<T>, w: T -> int): int
    decreases |xs|
  {
    if |xs| == 0 then 0 else Sum(xs[..|xs| - 1], w) + w(xs[|xs| - 1])
  }

  /** The weight that makes a sum a count. */
  function One<T>(x: T): int
  {
    1
  }

  /** One bucket of a group-by: the sum of `w` over the elements whose key is `k`. */
  function SumWhere<T, K(==)>(xs: seq<T>, key: T -> K, w: T -> int, k: K): int
    decreases |xs|
  {
    if |xs| == 0 then 0
    else SumWhere(xs[..|xs| - 1], key, w, k) + (if key(xs[|xs| - 1]) == k then w(xs[|xs| - 1]) else 0)
  }

  /** The sum of `w` over the elements whose key is one of `ks`. */
  function SumIn<T, K(==)>(xs: seq<T>, key: T -> K, w: T -> int, ks: seq<K>): int
    decreases |xs|
  {
    if |xs| == 0 then 0
    else SumIn(xs[..|xs| - 1], key, w, ks) + (if key(xs[|xs| - 1]) in ks then w(xs[|xs| - 1]) else 0)
  }

  /** The buckets named by `ks`, added up. */
  function SumKeys<T, K(==)>(ks: seq<K>, xs: seq<T>, key: T -> K, w: T -> int): int
    decreases |ks|
  {
    if |ks| == 0 then 0 else SumKeys(ks[..|ks| - 1], xs, key, w) + SumWhere(xs, key, w, ks[|ks| - 1])
  }

  ghost predicate Distinct<K>(ks: seq<K>)
  {
    forall i, j :: 0 <= i < j < |ks| ==> ks[i] != ks[j]
  }

  /** The distinct keys of `xs` in order of first appearance: the key order of a
      JavaScript object that a `forEach` over `xs` fills. */
  function KeysInOrder<T, K(==)>(xs: seq<T>, key: T -> K): (ks: seq<K>)
    ensures Distinct(ks)
    ensures forall i :: 0 <= i < |xs| ==> key(xs[i]) in ks
    ensures forall j :: 0 <= j < |ks| ==> exists i :: 0 <= i < |xs| && key(xs[i]) == ks[j]
    ensures |ks| <= |xs|
    decreases |xs|
  {
    if |xs| == 0 then []
    else
      var init := xs[..|xs| - 1];
      var ks := KeysInOrder(init, key);
      assert forall i :: 0 <= i < |init| ==> init[i] == xs[i];
      if key(xs[|xs| - 1]) in ks then ks else ks + [key(xs[|xs| - 1])]
  }

  /** One more element of a `forEach`: every bucket grows by that element's weight if
      the element falls in it. */
  lemma SumWhereNext<T, K>(xs: seq<T>, k: nat, key: T -> K, w: T -> int)
    requires k < |xs|
    ensures forall b :: SumWhere(xs[..k + 1], key, w, b)
                     == SumWhere(xs[..k], key, w, b) + if key(xs[k]) == b then w(xs[k]) else 0
  {
    assert xs[..k + 1][..k] == xs[..k];
  }

  /** One more element of a `forEach`: its key joins the object's keys if it is new. */
  lemma KeysInOrderNext<T, K>(xs: seq<T>, k: nat, key: T -> K)
    requires k < |xs|
    ensures KeysInOrder(xs[..k + 1], key)
         == if key(xs[k]) in KeysInOrder(xs[..k], key) then KeysInOrder(xs[..k], key)
            else KeysInOrder(xs[..k], key) + [key(xs[k])]
  {
    assert xs[..k + 1][..k] == xs[..k];
  }

  /** A key that no element carries has an empty bucket. */
  lemma {:induction false} SumWhereAbsent<T, K>(xs: seq<T>, key: T -> K, w: T -> int, k: K)
    requires forall i :: 0 <= i < |xs| ==> key(xs[i]) != k
    ensures SumWhere(xs, key, w, k) == 0
    decreases |xs|
  {
    if |xs| > 0 {
      var init := xs[..|xs| - 1];
      assert forall i :: 0 <= i < |init| ==> init[i] == xs[i];
      SumWhereAbsent(init, key, w, k);
    }
  }

  /** Buckets of pointwise smaller non-negative weights are smaller and non-negative. */
  lemma {:induction false} SumWhereMono<T, K>(xs: seq<T>, key: T -> K, w1: T -> int, w2: T -> int, k: K)
    requires forall i :: 0 <= i < |xs| ==> 0 <= w1(xs[i]) <= w2(xs[i])
    ensures 0 <= SumWhere(xs, key, w1, k) <= SumWhere(xs, key, w2, k)
    decreases |xs|
  {
    if |xs| > 0 {
      var init := xs[..|xs| - 1];
      assert forall i :: 0 <= i < |init| ==> init[i] == xs[i];
      SumWhereMono(init, key, w1, w2, k);
    }
  }

  /** The bucket an element falls in counts it. */
  lemma {:induction false} SumWhereAtLeast<T, K>(xs: seq<T>, key: T -> K, i: nat)
    requires i < |xs|
    ensures SumWhere(xs, key, One, key(xs[i])) >= 1
    decreases |xs|
  {
    var init := xs[..|xs| - 1];
    if i == |xs| - 1 {
      SumWhereMono(init, key, One, One, key(xs[i]));
    } else {
      assert init[i] == xs[i];
      SumWhereAtLeast(init, key, i);
      assert forall j :: 0 <= j < |xs| ==> 0 <= One(xs[j]);
    }
  }

  /** Adding one element to the data adds its weight to the sum of distinct buckets
      exactly when its key is one of them. */
  lemma {:induction false} SumKeysStep<T, K>(ks: seq<K>, xs: seq<T>, key: T -> K, w: T -> int)
    requires Distinct(ks) && |xs| > 0
    ensures SumKeys(ks, xs, key, w)
         == SumKeys(ks, xs[..|xs| - 1], key, w) + (if key(xs[|xs| - 1]) in ks then w(xs[|xs| - 1]) else 0)
    decreases |ks|
  {
    if |ks| > 0 {
      var front := ks[..|ks| - 1];
      assert Distinct(front) by {
        assert forall i :: 0 <= i < |front| ==> front[i] == ks[i];
      }
      SumKeysStep(front, xs, key, w);
      assert forall i :: 0 <= i < |front| ==> front[i] != ks[|ks| - 1];
      assert ks == front + [ks[|ks| - 1]];
    }
  }

  /** Distinct buckets, added up, hold exactly the elements whose key is among them. */
  lemma {:induction false} SumKeysIsSumIn<T, K>(ks: seq<K>, xs: seq<T>, key: T -> K, w: T -> int)
    requires Distinct(ks)
    ensures SumKeys(ks, xs, key, w) == SumIn(xs, key, w, ks)
    decreases |xs|
  {
    if |xs| == 0 {
      SumKeysEmpty(ks, xs, key, w);
    } else {
      SumKeysStep(ks, xs, key, w);
      SumKeysIsSumIn(ks, xs[..|xs| - 1], key, w);
    }
  }

  lemma {:induction false} SumKeysEmpty<T, K>(ks: seq<K>, xs: seq<T>, key: T -> K, w: T -> int)
    requires |xs| == 0
    ensures SumKeys(ks, xs, key, w) == 0
    decreases |ks|
  {
    if |ks| > 0 {
      SumKeysEmpty(ks[..|ks| - 1], xs, key, w);
    }
  }

  lemma {:induction false} SumInAll<T, K>(xs: seq<T>, key: T -> K, w: T -> int, ks: seq<K>)
    requires forall i :: 0 <= i < |xs| ==> key(xs[i]) in ks
    ensures SumIn(xs, key, w, ks) == Sum(xs, w)
    decreases |xs|
  {
    if |xs| > 0 {
      var init := xs[..|xs| - 1];
      assert forall i :: 0 <= i < |init| ==> init[i] == xs[i];
      SumInAll(init, key, w, ks);
    }
  }

  lemma {:induction false} SumInAtMost<T, K>(xs: seq<T>, key: T -> K, w: T -> int, ks: seq<K>)
    requires forall i :: 0 <= i < |xs| ==> w(xs[i]) >= 0
    ensures 0 <= SumIn(xs, key, w, ks) <= Sum(xs, w)
    decreases |xs|
  {
    if |xs| > 0 {
      var init := xs[..|xs| - 1];
      assert forall i :: 0 <= i < |init| ==> init[i] == xs[i];
      SumInAtMost(init, key, w, ks);
    }
  }

  /** Conservation of a group-by: when the buckets are distinct and every element's key
      is one of them, the buckets add up to the total. */
  lemma Conservation<T, K>(ks: seq<K>, xs: seq<T>, key: T -> K, w: T -> int)
    requires Distinct(ks)
    requires forall i :: 0 <= i < |xs| ==> key(xs[i]) in ks
    ensures SumKeys(ks, xs, key, w) == Sum(xs, w)
  {
    SumKeysIsSumIn(ks, xs, key, w);
    SumInAll(xs, key, w, ks);
  }

  /** Distinct buckets of non-negative weights never add up to more than the total. */
  lemma BucketsAtMost<T, K>(ks: seq<K>, xs: seq<T>, key: T -> K, w: T -> int)
    requires Distinct(ks)
    requires forall i :: 0 <= i < |xs| ==> w(xs[i]) >= 0
    ensures 0 <= SumKeys(ks, xs, key, w) <= Sum(xs, w)
  {
    SumKeysIsSumIn(ks, xs, key, w);
    SumInAtMost(xs, key, w, ks);
  }

  /** A list of entries, one per bucket, adds up to the sum of the buckets. */
  lemma {:induction false} SumEntries<E, T, K>(es: seq<E>, f: E -> int, ks: seq<K>, xs: seq<T>, key: T -> K, w: T -> int)
    requires |es| == |ks|
    requires forall j :: 0 <= j < |es| ==> f(es[j]) == SumWhere(xs, key, w, ks[j])
    ensures Sum(es, f) == SumKeys(ks, xs, key, w)
    decreases |es|
  {
    if |es| > 0 {
      var es', ks' := es[..|es| - 1], ks[..|ks| - 1];
      assert forall j :: 0 <= j < |es'| ==> es'[j] == es[j] && ks'[j] == ks[j];
      SumEntries(es', f, ks', xs, key, w);
    }
  }

  lemma {:induction false} SumAppend<T>(a: seq<T>, b: seq<T>, w: T -> int)
    ensures Sum(a + b, w) == Sum(a, w) + Sum(b, w)
    decreases |b|
  {
    if |b| > 0 {
      assert (a + b)[..|a + b| - 1] == a + b[..|b| - 1];
      SumAppend(a, b[..|b| - 1], w);
    } else {
      assert a + b == a;
    }
  }

  lemma {:induction false} SumOne<T>(xs: seq<T>)
    ensures Sum(xs, One) == |xs|
    decreases |xs|
  {
    if |xs| > 0 {
      SumOne(xs[..|xs| - 1]);
    }
  }

  /** Sums of weights bounded by 0 and 1 lie between 0 and the number of elements. */
  lemma {:induction false} SumIndicator<T>(xs: seq<T>, w: T -> int)
    requires forall i :: 0 <= i < |xs| ==> 0 <= w(xs[i]) <= 1
    ensures 0 <= Sum(xs, w) <= |xs|
    decreases |xs|
  {
    if |xs| > 0 {
      var init := xs[..|xs| - 1];
      assert forall i :: 0 <= i < |init| ==> init[i] == xs[i];
      SumIndicator(init, w);
    }
  }

  /** When no two elements share a key, there is one key per element. */
  lemma {:induction false} KeysInOrderInjective<T, K>(xs: seq<T>, key: T -> K)
    requires forall i, j :: 0 <= i < j < |xs| ==> key(xs[i]) != key(xs[j])
    ensures |KeysInOrder(xs, key)| == |xs|
    decreases |xs|
  {
    if |xs| > 0 {
      var init := xs[..|xs| - 1];
      assert forall i :: 0 <= i < |init| ==> init[i] == xs[i];
      KeysInOrderInjective(init, key);
      var ks := KeysInOrder(init, key);
      forall j | 0 <= j < |ks| ensures ks[j] != key(xs[|xs| - 1]) {
        var i :| 0 <= i < |init| && key(init[i]) == ks[j];
      }
    }
  }
}
