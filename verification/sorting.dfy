/** A stable sort into non-increasing order of an integer key, the effect of
    `Array.prototype.sort((a, b) => key(b) - key(a))` (the sort is stable
    since ECMAScript 2019). */
module Sorting {
  import opened Seqs

  ghost predicate SortedDesc<T>(key: T -> int, s: seq<T>) {
    forall i, j :: 0 <= i < j < |s| ==> key(s[i]) >= key(s[j])
  }

  /** The elements of `s` whose key is `k`, in their order in `s`. */
  function WithKey<T>(key: T -> int, k: int, s: seq<T>): seq<T> {
    Filter(x => key(x) == k, s)
  }

  /** Puts `x` in front of the first element whose key is not above its own. */
  function InsertDesc<T>(key: T -> int, x: T, s: seq<T>): (r: seq<T>)
    ensures multiset(r) == multiset(s) + multiset{x}
    decreases |s|
  {
    if |s| == 0 || key(s[0]) <= key(x) then [x] + s
    else
      assert s == [s[0]] + s[1..];
      [s[0]] + InsertDesc(key, x, s[1..])
  }

  /** Inserting into a sorted sequence keeps it sorted. */
  lemma {:induction false} InsertSorted<T>(key: T -> int, x: T, s: seq<T>)
    requires SortedDesc(key, s)
    ensures SortedDesc(key, InsertDesc(key, x, s))
    decreases |s|
  {
    if |s| > 0 && key(s[0]) > key(x) {
      var rest := InsertDesc(key, x, s[1..]);
      InsertSorted(key, x, s[1..]);
      forall j | 0 <= j < |rest|
        ensures key(s[0]) >= key(rest[j])
      {
        assert rest[j] in multiset(rest);
        if rest[j] != x {
          assert rest[j] in s[1..];
        }
      }
    }
  }

  /** Insertion sort, inserting each element into the sorted rest. */
  function SortDesc<T>(key: T -> int, s: seq<T>): (r: seq<T>)
    ensures multiset(r) == multiset(s)
    ensures SortedDesc(key, r)
    decreases |s|
  {
    if |s| == 0 then []
    else
      assert s == [s[0]] + s[1..];
      InsertSorted(key, s[0], SortDesc(key, s[1..]));
      InsertDesc(key, s[0], SortDesc(key, s[1..]))
  }

  /** Inserting `x` puts it before every element with the same key. */
  lemma {:induction false} InsertStable<T>(key: T -> int, x: T, s: seq<T>, k: int)
    ensures WithKey(key, k, InsertDesc(key, x, s))
         == (if key(x) == k then [x] else []) + WithKey(key, k, s)
    decreases |s|
  {
    if |s| == 0 || key(s[0]) <= key(x) {
      assert ([x] + s)[1..] == s;
    } else {
      var rest := InsertDesc(key, x, s[1..]);
      InsertStable(key, x, s[1..], k);
      assert ([s[0]] + rest)[1..] == rest;
    }
  }

  /** Stability: among elements with equal keys the sort keeps input order. */
  lemma {:induction false} SortStable<T>(key: T -> int, s: seq<T>, k: int)
    ensures WithKey(key, k, SortDesc(key, s)) == WithKey(key, k, s)
    decreases |s|
  {
    if |s| > 0 {
      SortStable(key, s[1..], k);
      InsertStable(key, s[0], SortDesc(key, s[1..]), k);
    }
  }

  /** When every key is the same, sorting changes nothing. */
  lemma {:induction false} SortConstantKey<T>(key: T -> int, s: seq<T>, k: int)
    requires forall i :: 0 <= i < |s| ==> key(s[i]) == k
    ensures SortDesc(key, s) == s
  {
    SortStable(key, s, k);
    FilterAll(x => key(x) == k, s);
    var r := SortDesc(key, s);
    forall i | 0 <= i < |r|
      ensures key(r[i]) == k
    {
      assert r[i] in multiset(s);
    }
    FilterAll(x => key(x) == k, r);
  }
}
