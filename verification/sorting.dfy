/** Descending sort by an integer key, sums over sequences, and the facts
    about them the queries need. The sort is a stable insertion sort; callers
    only rely on "permutation, non-increasing keys". */
module Sorting {

  predicate SortedDesc<T>(s: seq<T>, key: T -> int) {
    forall i, j :: 0 <= i < j < |s| ==> key(s[i]) >= key(s[j])
  }

  /** No two elements share a `tag`. */
  predicate DistinctBy<T, K(==)>(s: seq<T>, tag: T -> K) {
    forall i, j :: 0 <= i < j < |s| ==> tag(s[i]) != tag(s[j])
  }

  function SumBy<T>(s: seq<T>, f: T -> int): int {
    if |s| == 0 then 0 else f(s[0]) + SumBy(s[1..], f)
  }

  /** Inserts `x` in front of the first element whose key does not exceed it. */
  function InsertDesc<T>(x: T, s: seq<T>, key: T -> int): (r: seq<T>)
    requires SortedDesc(s, key)
    ensures SortedDesc(r, key)
    ensures multiset(r) == multiset(s) + multiset{x}
  {
    if |s| == 0 || key(x) >= key(s[0]) then [x] + s
    else
      var rest := InsertDesc(x, s[1..], key);
      assert s == [s[0]] + s[1..];
      assert forall k :: 0 <= k < |rest| ==> key(s[0]) >= key(rest[k]) by {
        forall k | 0 <= k < |rest|
          ensures key(s[0]) >= key(rest[k])
        {
          assert rest[k] in multiset(rest);
          if rest[k] != x {
            assert rest[k] in multiset(s[1..]);
            var j :| 0 <= j < |s[1..]| && s[1..][j] == rest[k];
            assert s[1 + j] == rest[k];
          }
        }
      }
      [s[0]] + rest
  }

  function SortDesc<T>(s: seq<T>, key: T -> int): (r: seq<T>)
    ensures SortedDesc(r, key)
    ensures multiset(r) == multiset(s)
    ensures |r| == |s|
  {
    if |s| == 0 then []
    else
      assert s == [s[0]] + s[1..];
      InsertDesc(s[0], SortDesc(s[1..], key), key)
  }

  lemma {:induction false} SumByAppend<T>(a: seq<T>, b: seq<T>, f: T -> int)
    ensures SumBy(a + b, f) == SumBy(a, f) + SumBy(b, f)
  {
    if |a| == 0 {
      assert a + b == b;
    } else {
      assert (a + b)[1..] == a[1..] + b;
      SumByAppend(a[1..], b, f);
    }
  }

  /** Removing the element at `i` takes its term out of the sum. */
  lemma SumByRemove<T>(t: seq<T>, i: nat, f: T -> int)
    requires i < |t|
    ensures SumBy(t, f) == f(t[i]) + SumBy(t[..i] + t[i + 1..], f)
  {
    assert t == t[..i] + ([t[i]] + t[i + 1..]);
    SumByAppend(t[..i], [t[i]] + t[i + 1..], f);
    SumByAppend(t[..i], t[i + 1..], f);
    assert ([t[i]] + t[i + 1..])[1..] == t[i + 1..];
  }

  lemma MultisetCancel<T>(a: multiset<T>, b: multiset<T>, x: T)
    requires a + multiset{x} == b + multiset{x}
    ensures a == b
  {
    forall y ensures a[y] == b[y] {
      assert (a + multiset{x})[y] == (b + multiset{x})[y];
    }
  }

  /** A sum does not depend on the order of its terms. */
  lemma {:induction false} SumByPermutation<T>(s: seq<T>, t: seq<T>, f: T -> int)
    requires multiset(s) == multiset(t)
    ensures SumBy(s, f) == SumBy(t, f)
    decreases |s|
  {
    if |s| == 0 {
      assert |t| == |multiset(t)| == 0;
    } else {
      assert s == [s[0]] + s[1..];
      assert s[0] in multiset(t);
      var i :| 0 <= i < |t| && t[i] == s[0];
      var rest := t[..i] + t[i + 1..];
      assert multiset(s[1..]) == multiset(rest) by {
        assert t == t[..i] + [t[i]] + t[i + 1..];
        assert multiset(t) == multiset(t[..i]) + multiset{t[i]} + multiset(t[i + 1..]);
        assert multiset(rest) == multiset(t[..i]) + multiset(t[i + 1..]);
        assert multiset(s) == multiset(s[1..]) + multiset{s[0]};
        assert multiset(s[1..]) + multiset{s[0]} == multiset(rest) + multiset{s[0]};
        MultisetCancel(multiset(s[1..]), multiset(rest), s[0]);
      }
      SumByPermutation(s[1..], rest, f);
      SumByRemove(t, i, f);
    }
  }

  /** Sorting keeps the elements' tags distinct. */
  lemma {:induction false} InsertKeepsDistinct<T, K>(x: T, s: seq<T>, key: T -> int, tag: T -> K)
    requires SortedDesc(s, key) && DistinctBy(s, tag)
    requires forall y :: y in s ==> tag(y) != tag(x)
    ensures DistinctBy(InsertDesc(x, s, key), tag)
  {
    if |s| == 0 || key(x) >= key(s[0]) {
    } else {
      var rest := InsertDesc(x, s[1..], key);
      InsertKeepsDistinct(x, s[1..], key, tag);
      assert s == [s[0]] + s[1..];
      forall k | 0 <= k < |rest|
        ensures tag(s[0]) != tag(rest[k])
      {
        assert rest[k] in multiset(rest);
        if rest[k] != x {
          assert rest[k] in multiset(s[1..]);
          var j :| 0 <= j < |s[1..]| && s[1..][j] == rest[k];
          assert s[1 + j] == rest[k];
        }
      }
    }
  }

  lemma {:induction false} SortKeepsDistinct<T, K>(s: seq<T>, key: T -> int, tag: T -> K)
    requires DistinctBy(s, tag)
    ensures DistinctBy(SortDesc(s, key), tag)
  {
    if |s| > 0 {
      var rest := SortDesc(s[1..], key);
      SortKeepsDistinct(s[1..], key, tag);
      forall y | y in rest
        ensures tag(y) != tag(s[0])
      {
        assert y in multiset(rest);
        assert y in multiset(s[1..]);
        var j :| 0 <= j < |s[1..]| && s[1..][j] == y;
        assert s[1 + j] == y;
      }
      InsertKeepsDistinct(s[0], rest, key, tag);
    }
  }
}
