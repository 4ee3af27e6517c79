/** Sequence operations the storefront uses through `Array.prototype`:
    `filter`, `reduce` (summing), and de-duplication through a `Set`. */
module Seqs {

  /** `s` can be obtained from `t` by deleting elements: the relative order
      of what is kept is unchanged. */
  predicate IsSubseq<T(==)>(s: seq<T>, t: seq<T>)
    decreases |t|
  {
    if |s| == 0 then true
    else if |t| == 0 then false
    else (s[0] == t[0] && IsSubseq(s[1..], t[1..])) || IsSubseq(s, t[1..])
  }

  lemma {:induction false} SubseqRefl<T>(s: seq<T>)
    ensures IsSubseq(s, s)
    decreases |s|
  {
    if |s| > 0 {
      SubseqRefl(s[1..]);
    }
  }

  /** Every element of a subsequence is an element of the whole. */
  lemma {:induction false} SubseqMembers<T>(s: seq<T>, t: seq<T>)
    requires IsSubseq(s, t)
    ensures forall i :: 0 <= i < |s| ==> s[i] in t
    decreases |t|
  {
    if |s| > 0 && |t| > 0 {
      if s[0] == t[0] && IsSubseq(s[1..], t[1..]) {
        SubseqMembers(s[1..], t[1..]);
        forall i | 0 < i < |s|
          ensures s[i] in t
        {
          assert s[i] == s[1..][i - 1];
        }
      } else {
        SubseqMembers(s, t[1..]);
      }
    }
  }

  /** `Array.prototype.filter`: the elements satisfying `f`, in order. */
  function Filter<T>(f: T -> bool, s: seq<T>): (r: seq<T>)
    ensures |r| <= |s|
    ensures forall i :: 0 <= i < |r| ==> r[i] in s && f(r[i])
    ensures forall i :: 0 <= i < |s| && f(s[i]) ==> s[i] in r
    decreases |s|
  {
    if |s| == 0 then []
    else (if f(s[0]) then [s[0]] else []) + Filter(f, s[1..])
  }

  /** Membership in a filtered sequence, one element at a time. */
  lemma FilterIn<T>(f: T -> bool, s: seq<T>, x: T)
    ensures x in Filter(f, s) <==> x in s && f(x)
  {
    if x in Filter(f, s) {
      var i :| 0 <= i < |Filter(f, s)| && Filter(f, s)[i] == x;
    }
    if x in s && f(x) {
      var i :| 0 <= i < |s| && s[i] == x;
    }
  }

  /** What `filter` keeps is a subsequence of its input. */
  lemma {:induction false} FilterSubseq<T>(f: T -> bool, s: seq<T>)
    ensures IsSubseq(Filter(f, s), s)
    decreases |s|
  {
    if |s| > 0 {
      FilterSubseq(f, s[1..]);
      var r := Filter(f, s);
      if f(s[0]) {
        assert r[0] == s[0] && r[1..] == Filter(f, s[1..]);
      } else {
        assert r == Filter(f, s[1..]);
        if |r| > 0 {
          assert IsSubseq(r, s[1..]);
        }
      }
    }
  }

  /** `filter` distributes over concatenation, so it keeps relative order. */
  lemma {:induction false} FilterConcat<T>(f: T -> bool, a: seq<T>, b: seq<T>)
    ensures Filter(f, a + b) == Filter(f, a) + Filter(f, b)
    decreases |a|
  {
    if |a| == 0 {
      assert a + b == b;
    } else {
      assert (a + b)[0] == a[0] && (a + b)[1..] == a[1..] + b;
      FilterConcat(f, a[1..], b);
    }
  }

  /** Filtering with a predicate every element meets changes nothing. */
  lemma {:induction false} FilterAll<T>(f: T -> bool, s: seq<T>)
    requires forall i :: 0 <= i < |s| ==> f(s[i])
    ensures Filter(f, s) == s
    decreases |s|
  {
    if |s| > 0 {
      FilterAll(f, s[1..]);
    }
  }

  /** Filtering by a conjunction is filtering twice. */
  lemma {:induction false} FilterFilter<T>(f: T -> bool, g: T -> bool, h: T -> bool, s: seq<T>)
    requires forall x :: h(x) == (f(x) && g(x))
    ensures Filter(h, s) == Filter(f, Filter(g, s))
    decreases |s|
  {
    if |s| > 0 {
      FilterFilter(f, g, h, s[1..]);
      var gs := Filter(g, s);
      if g(s[0]) {
        assert gs == [s[0]] + Filter(g, s[1..]);
        assert gs[1..] == Filter(g, s[1..]);
      } else {
        assert gs == Filter(g, s[1..]);
      }
    }
  }

  predicate NoDup<T(==)>(s: seq<T>) {
    forall i, j :: 0 <= i < j < |s| ==> s[i] != s[j]
  }

  /** A subsequence of a duplicate-free sequence is duplicate-free. */
  lemma {:induction false} SubseqNoDup<T>(s: seq<T>, t: seq<T>)
    requires IsSubseq(s, t) && NoDup(t)
    ensures NoDup(s)
    decreases |t|
  {
    if |s| > 0 && |t| > 0 {
      if s[0] == t[0] && IsSubseq(s[1..], t[1..]) {
        SubseqNoDup(s[1..], t[1..]);
        SubseqMembers(s[1..], t[1..]);
        forall j | 0 < j < |s|
          ensures s[0] != s[j]
        {
          assert s[j] == s[1..][j - 1];
          assert s[j] in t[1..];
          var m :| 0 <= m < |t[1..]| && t[1..][m] == s[j];
          assert t[m + 1] == s[j];
        }
      } else {
        SubseqNoDup(s, t[1..]);
      }
    }
  }

  /** `r` lists its elements in the order of their first occurrence in `s`:
      wherever `r[j]` occurs in `s`, every earlier `r[i]` has already
      occurred. */
  predicate FirstOccurrenceOrder<T(==)>(r: seq<T>, s: seq<T>) {
    forall i, j, k :: 0 <= i < j < |r| && 0 <= k < |s| && s[k] == r[j] ==> r[i] in s[..k]
  }

  /** `[...new Set(s)]`: the first occurrence of each element, in order. */
  function Dedupe<T(==)>(s: seq<T>): (r: seq<T>)
    ensures NoDup(r)
    ensures forall i :: 0 <= i < |r| ==> r[i] in s
    ensures forall i :: 0 <= i < |s| ==> s[i] in r
    ensures IsSubseq(r, s)
    ensures FirstOccurrenceOrder(r, s)
    decreases |s|
  {
    if |s| == 0 then []
    else
      var d := Dedupe(s[..|s| - 1]);
      assert s == s[..|s| - 1] + [s[|s| - 1]];
      SubseqSnoc(d, s[..|s| - 1], s[|s| - 1]);
      FirstOccurrenceSnoc(d, s[..|s| - 1], s[|s| - 1]);
      if s[|s| - 1] in d then d else d + [s[|s| - 1]]
  }

  /** Appending `x` to `s` keeps the first-occurrence order of the
      de-duplicated list once `x` is added at its end if it is new. */
  lemma FirstOccurrenceSnoc<T>(d: seq<T>, s: seq<T>, x: T)
    requires FirstOccurrenceOrder(d, s)
    requires forall i :: 0 <= i < |d| ==> d[i] in s
    requires forall i :: 0 <= i < |s| ==> s[i] in d
    ensures FirstOccurrenceOrder(if x in d then d else d + [x], s + [x])
  {
    var r := if x in d then d else d + [x];
    var t := s + [x];
    forall i, j, k | 0 <= i < j < |r| && 0 <= k < |t| && t[k] == r[j]
      ensures r[i] in t[..k]
    {
      assert r[i] == d[i];
      if k < |s| {
        assert t[k] == s[k] && t[..k] == s[..k];
        assert r[j] == d[j];
      } else {
        assert d[i] in s;
        assert t[..k] == s;
      }
    }
  }

  /** A subsequence stays one when the longer side grows at the end, and
      both sides may grow together. */
  lemma {:induction false} SubseqSnoc<T>(s: seq<T>, t: seq<T>, x: T)
    requires IsSubseq(s, t)
    ensures IsSubseq(s, t + [x])
    ensures IsSubseq(s + [x], t + [x])
    decreases |t|
  {
    if |s| == 0 {
      assert IsSubseq([x], [x]) by {
        assert [x][1..] == [];
      }
      SubseqPrepend([x], t, [x]);
      assert s + [x] == [x];
    } else {
      assert (t + [x])[1..] == t[1..] + [x];
      assert (s + [x])[1..] == s[1..] + [x];
      if s[0] == t[0] && IsSubseq(s[1..], t[1..]) {
        SubseqSnoc(s[1..], t[1..], x);
      } else {
        SubseqSnoc(s, t[1..], x);
      }
    }
  }

  /** Anything is still a subsequence after more elements are put in front. */
  lemma {:induction false} SubseqPrepend<T>(s: seq<T>, v: seq<T>, u: seq<T>)
    requires IsSubseq(s, u)
    ensures IsSubseq(s, v + u)
    decreases |v|
  {
    if |v| == 0 {
      assert v + u == u;
    } else {
      assert (v + u)[1..] == v[1..] + u;
      SubseqPrepend(s, v[1..], u);
    }
  }

  /** `reduce((sum, x) => sum + f(x), 0)`. */
  function Sum<T>(f: T -> int, s: seq<T>): int
    decreases |s|
  {
    if |s| == 0 then 0 else f(s[0]) + Sum(f, s[1..])
  }

  lemma {:induction false} SumConcat<T>(f: T -> int, a: seq<T>, b: seq<T>)
    ensures Sum(f, a + b) == Sum(f, a) + Sum(f, b)
    decreases |a|
  {
    if |a| == 0 {
      assert a + b == b;
    } else {
      assert (a + b)[0] == a[0] && (a + b)[1..] == a[1..] + b;
      SumConcat(f, a[1..], b);
    }
  }

  /** Replacing one element changes the sum by the difference of the two. */
  lemma {:induction false} SumUpdate<T>(f: T -> int, s: seq<T>, i: nat, x: T)
    requires i < |s|
    ensures Sum(f, s[i := x]) == Sum(f, s) - f(s[i]) + f(x)
    decreases |s|
  {
    if i > 0 {
      assert s[i := x][1..] == s[1..][i - 1 := x];
      SumUpdate(f, s[1..], i - 1, x);
    }
  }

  /** The sum is non-negative when every term is. */
  lemma {:induction false} SumNonNegative<T>(f: T -> int, s: seq<T>)
    requires forall i :: 0 <= i < |s| ==> f(s[i]) >= 0
    ensures Sum(f, s) >= 0
    decreases |s|
  {
    if |s| > 0 {
      SumNonNegative(f, s[1..]);
    }
  }

  /** The sum is positive when every term is and there is at least one. */
  lemma {:induction false} SumPositive<T>(f: T -> int, s: seq<T>)
    requires forall i :: 0 <= i < |s| ==> f(s[i]) >= 1
    ensures Sum(f, s) > 0 <==> |s| > 0
    decreases |s|
  {
    if |s| > 0 {
      SumNonNegative(f, s[1..]);
    }
  }
  /** Dropping the first element keeps the first-occurrence order. */
  lemma FirstOccurrenceTail<T>(u: seq<T>, s: seq<T>)
    requires |u| > 0 && FirstOccurrenceOrder(u, s)
    ensures FirstOccurrenceOrder(u[1..], s)
  {
    var t := u[1..];
    forall i, j, k | 0 <= i < j < |t| && 0 <= k < |s| && s[k] == t[j]
      ensures t[i] in s[..k]
    {
      assert t[i] == u[i + 1] && t[j] == u[j + 1];
    }
  }

  /** Putting `x` in front keeps the first-occurrence order when `x` occurs
      in `s` before every element of `rest`. */
  lemma FirstOccurrenceCons<T>(x: T, rest: seq<T>, s: seq<T>)
    requires FirstOccurrenceOrder(rest, s)
    requires forall j, k :: 0 <= j < |rest| && 0 <= k < |s| && s[k] == rest[j] ==> x in s[..k]
    ensures FirstOccurrenceOrder([x] + rest, s)
  {
    var r := [x] + rest;
    forall i, j, k | 0 <= i < j < |r| && 0 <= k < |s| && s[k] == r[j]
      ensures r[i] in s[..k]
    {
      assert r[j] == rest[j - 1];
      if i == 0 {
        assert x in s[..k];
      } else {
        assert r[i] == rest[i - 1];
      }
    }
  }

  /** Filtering keeps the first-occurrence order. */
  lemma {:induction false} FilterFirstOccurrence<T>(f: T -> bool, u: seq<T>, s: seq<T>)
    requires FirstOccurrenceOrder(u, s)
    ensures FirstOccurrenceOrder(Filter(f, u), s)
    decreases |u|
  {
    if |u| > 0 {
      FirstOccurrenceTail(u, s);
      FilterFirstOccurrence(f, u[1..], s);
      var rest := Filter(f, u[1..]);
      if f(u[0]) {
        forall j, k | 0 <= j < |rest| && 0 <= k < |s| && s[k] == rest[j]
          ensures u[0] in s[..k]
        {
          assert rest[j] in u[1..];
          var m :| 0 <= m < |u[1..]| && u[1..][m] == rest[j];
          assert u[m + 1] == rest[j];
        }
        FirstOccurrenceCons(u[0], rest, s);
      }
    }
  }

  /** Filtering keeps every copy of an element that passes and none of one
      that fails. */
  lemma {:induction false} FilterCount<T>(f: T -> bool, s: seq<T>, x: T)
    ensures multiset(Filter(f, s))[x] == if f(x) then multiset(s)[x] else 0
    decreases |s|
  {
    if |s| > 0 {
      FilterCount(f, s[1..], x);
      assert s == [s[0]] + s[1..];
      assert multiset(s) == multiset([s[0]]) + multiset(s[1..]);
      var h := if f(s[0]) then [s[0]] else [];
      assert Filter(f, s) == h + Filter(f, s[1..]);
      assert multiset(Filter(f, s)) == multiset(h) + multiset(Filter(f, s[1..]));
    }
  }
}
