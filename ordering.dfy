/** Ordering of fetched rows: `Array.prototype.sort` with a numeric comparator (stable),
    the store's `.order(...)` and the `.slice(0, n)` / `.limit(n)` that follow it.
    A comparator `(a, b) => b.x - a.x` sorts ascending by the key `-x`. */
module Ordering {
  import Tally

  /** `s` is ordered by `key`, smallest key first. */
  ghost predicate SortedBy<T>(s: seq<T>, key: T -> int)
  {
    forall i, j :: 0 <= i < j < |s| ==> key(s[i]) <= key(s[j])
  }

  /** Places `x` in front of the first element whose key is not smaller, so that `x`
      stays ahead of the elements it ties with. */
  function Insert<T>(x: T, s: seq<T>, key: T -> int): (r: seq<T>)
    ensures multiset(r) == multiset(s) + multiset{x}
    ensures |r| == |s| + 1
    decreases |s|
  {
    if |s| == 0 || key(x) <= key(s[0]) then
      [x] + s
    else
      assert s == [s[0]] + s[1..];
      [s[0]] + Insert(x, s[1..], key)
  }

  lemma {:induction false} InsertSorted<T>(x: T, s: seq<T>, key: T -> int)
    requires SortedBy(s, key)
    ensures SortedBy(Insert(x, s, key), key)
    decreases |s|
  {
    if |s| > 0 && key(x) > key(s[0]) {
      var rest := Insert(x, s[1..], key);
      InsertSorted(x, s[1..], key);
      forall j | 0 <= j < |rest| ensures key(s[0]) <= key(rest[j]) {
        assert rest[j] in multiset(rest);
        if rest[j] != x {
          assert rest[j] in multiset(s[1..]);
          var k :| 0 <= k < |s[1..]| && s[1..][k] == rest[j];
          assert s[k + 1] == rest[j];
        }
      }
    }
  }

  /** A stable insertion sort, ascending by `key`. */
  function SortBy<T>(s: seq<T>, key: T -> int): (r: seq<T>)
    ensures SortedBy(r, key)
    ensures multiset(r) == multiset(s)
    ensures |r| == |s|
    decreases |s|
  {
    if |s| == 0 then []
    else
      assert s == [s[0]] + s[1..];
      var sortedRest := SortBy(s[1..], key);
      InsertSorted(s[0], sortedRest, key);
      Insert(s[0], sortedRest, key)
  }

  /** The elements of `s` whose key is `k`, in the order `s` has them. */
  function Ties<T>(s: seq<T>, key: T -> int, k: int): seq<T>
    decreases |s|
  {
    if |s| == 0 then [] else (if key(s[0]) == k then [s[0]] else []) + Ties(s[1..], key, k)
  }

  /** Inserting `x` puts it ahead of every element it ties with. */
  lemma {:induction false} InsertStable<T>(x: T, s: seq<T>, key: T -> int, k: int)
    ensures Ties(Insert(x, s, key), key, k) == (if key(x) == k then [x] else []) + Ties(s, key, k)
    decreases |s|
  {
    var r := Insert(x, s, key);
    if |s| == 0 || key(x) <= key(s[0]) {
      assert r[0] == x && r[1..] == s;
    } else {
      var tx := if key(x) == k then [x] else [];
      var t0 := if key(s[0]) == k then [s[0]] else [];
      InsertStable(x, s[1..], key, k);
      assert r[0] == s[0] && r[1..] == Insert(x, s[1..], key);
      assert Ties(r, key, k) == t0 + (tx + Ties(s[1..], key, k));
      assert Ties(s, key, k) == t0 + Ties(s[1..], key, k);
      SwapFront(t0, tx, Ties(s[1..], key, k));
    }
  }

  /** Two prefixes of which one is empty can change places. */
  lemma SwapFront<T>(a: seq<T>, b: seq<T>, c: seq<T>)
    requires a == [] || b == []
    ensures a + (b + c) == b + (a + c)
  {
  }

  /** The sort is stable: the elements that tie at any key keep their relative order. */
  lemma {:induction false} SortByStable<T>(s: seq<T>, key: T -> int, k: int)
    ensures Ties(SortBy(s, key), key, k) == Ties(s, key, k)
    decreases |s|
  {
    if |s| > 0 {
      SortByStable(s[1..], key, k);
      InsertStable(s[0], SortBy(s[1..], key), key, k);
    }
  }

  /** Sorting keeps exactly the elements it was given. */
  lemma SortByMembers<T>(s: seq<T>, key: T -> int)
    ensures forall x :: x in SortBy(s, key) <==> x in s
  {
    var r := SortBy(s, key);
    assert forall x :: x in r <==> x in multiset(r);
    assert forall x :: x in s <==> x in multiset(s);
  }

  /** In a sorted sequence, every element past position `m` has a key no smaller than
      every element before it. */
  lemma SortedPrefixSmallest<T>(sorted: seq<T>, m: nat, key: T -> int)
    requires SortedBy(sorted, key) && m <= |sorted|
    ensures SortedBy(sorted[..m], key)
    ensures multiset(sorted[..m]) <= multiset(sorted)
    ensures forall e, i :: e in multiset(sorted) - multiset(sorted[..m]) && 0 <= i < m ==> key(sorted[i]) <= key(e)
  {
    assert sorted == sorted[..m] + sorted[m..];
    assert multiset(sorted) == multiset(sorted[..m]) + multiset(sorted[m..]);
    assert forall i :: 0 <= i < m ==> sorted[..m][i] == sorted[i];
    forall e, i | e in multiset(sorted) - multiset(sorted[..m]) && 0 <= i < m
      ensures key(sorted[i]) <= key(e)
    {
      assert e in multiset(sorted[m..]);
      var k :| 0 <= k < |sorted[m..]| && sorted[m..][k] == e;
      assert sorted[m + k] == e;
    }
  }

  /** The first `n` elements after sorting: `sort(...).slice(0, n)`.
      Every element left out has a key no smaller than every element kept. */
  function Top<T>(s: seq<T>, key: T -> int, n: nat): (r: seq<T>)
    ensures |r| == if |s| < n then |s| else n
    ensures SortedBy(r, key)
    ensures multiset(r) <= multiset(s)
    ensures forall e, i :: e in multiset(s) - multiset(r) && 0 <= i < |r| ==> key(r[i]) <= key(e)
  {
    var sorted := SortBy(s, key);
    var m := if |s| < n then |s| else n;
    SortedPrefixSmallest(sorted, m, key);
    sorted[..m]
  }

  /** `sort((a, b) => score(b) - score(a)).slice(0, n)`: the `n` elements of highest
      score, highest first. Every element left out scores no higher than every element
      kept. */
  function TopByScore<T>(s: seq<T>, score: T -> int, n: nat): (r: seq<T>)
    ensures |r| == if |s| < n then |s| else n
    ensures forall i, j :: 0 <= i < j < |r| ==> score(r[i]) >= score(r[j])
    ensures multiset(r) <= multiset(s)
    ensures forall e, i :: e in multiset(s) - multiset(r) && 0 <= i < |r| ==> score(e) <= score(r[i])
  {
    var key := (x: T) => -score(x);
    var r := Top(s, key, n);
    Negated(s, r, key, score);
    r
  }

  /** Ascending by the negated score is descending by the score. */
  lemma Negated<T>(s: seq<T>, r: seq<T>, key: T -> int, score: T -> int)
    requires forall x :: key(x) == -score(x)
    requires SortedBy(r, key)
    requires forall e, i :: e in multiset(s) - multiset(r) && 0 <= i < |r| ==> key(r[i]) <= key(e)
    ensures forall i, j :: 0 <= i < j < |r| ==> score(r[i]) >= score(r[j])
    ensures forall e, i :: e in multiset(s) - multiset(r) && 0 <= i < |r| ==> score(e) <= score(r[i])
  {
    forall i, j | 0 <= i < j < |r| ensures score(r[i]) >= score(r[j]) {
      assert key(r[i]) <= key(r[j]);
    }
  }

  /** Reordering never changes a sum. */
  lemma {:induction false} InsertSum<T>(x: T, s: seq<T>, key: T -> int, w: T -> int)
    ensures Tally.Sum(Insert(x, s, key), w) == w(x) + Tally.Sum(s, w)
    decreases |s|
  {
    if |s| == 0 || key(x) <= key(s[0]) {
      Tally.SumAppend([x], s, w);
      assert Tally.Sum([x], w) == w(x) by {
        assert [x][..0] == [];
      }
    } else {
      InsertSum(x, s[1..], key, w);
      Tally.SumAppend([s[0]], Insert(x, s[1..], key), w);
      Tally.SumAppend([s[0]], s[1..], w);
      assert [s[0]][..0] == [];
      assert s == [s[0]] + s[1..];
    }
  }

  lemma {:induction false} SortSum<T>(s: seq<T>, key: T -> int, w: T -> int)
    ensures Tally.Sum(SortBy(s, key), w) == Tally.Sum(s, w)
    decreases |s|
  {
    if |s| > 0 {
      SortSum(s[1..], key, w);
      InsertSum(s[0], SortBy(s[1..], key), key, w);
      Tally.SumAppend([s[0]], s[1..], w);
      assert [s[0]][..0] == [];
      assert s == [s[0]] + s[1..];
    }
  }
}
