/** Sequence helpers that stand in for the SQL the handlers issue:
    `WHERE` is `Filter`, `COUNT(*)` is `Count`, `SUM(col)` is `SumBy`
    and `ORDER BY` is `SortByKey`. Tables are sequences in insertion order. */
module Seqs {

  /** The elements of `s` satisfying `p`, in their original order. */
  function Filter<T>(s: seq<T>, p: T -> bool): (r: seq<T>)
    ensures |r| <= |s|
    ensures forall x | x in r :: x in s && p(x)
    ensures forall x | x in s && p(x) :: x in r
    ensures multiset(r) <= multiset(s)
  {
    if |s| == 0 then []
    else
      assert s == [s[0]] + s[1..];
      if p(s[0]) then [s[0]] + Filter(s[1..], p) else Filter(s[1..], p)
  }

  /** Number of elements satisfying `p` (a `COUNT(*) ... WHERE`). */
  function Count<T>(s: seq<T>, p: T -> bool): nat
  {
    |Filter(s, p)|
  }

  /** Sum of `f` over the elements (a `SUM(col)`; zero on no rows, as `COALESCE(..., 0)`). */
  function SumBy<T>(s: seq<T>, f: T -> int): int
  {
    if |s| == 0 then 0 else f(s[0]) + SumBy(s[1..], f)
  }

  /** `rel` holds between every element and every later one. */
  predicate Pairwise<T>(s: seq<T>, rel: (T, T) -> bool)
  {
    forall i, j | 0 <= i < j < |s| :: rel(s[i], s[j])
  }

  /** `key` does not decrease along `s`. */
  predicate SortedBy<T>(s: seq<T>, key: T -> int)
  {
    forall i, j | 0 <= i < j < |s| :: key(s[i]) <= key(s[j])
  }

  lemma {:induction false} FilterAppend<T>(a: seq<T>, b: seq<T>, p: T -> bool)
    ensures Filter(a + b, p) == Filter(a, p) + Filter(b, p)
  {
    if |a| == 0 {
      assert a + b == b;
    } else {
      assert (a + b)[1..] == a[1..] + b;
      FilterAppend(a[1..], b, p);
    }
  }

  /** `Filter` keeps every copy of an element it selects and no copy of one it rejects. */
  lemma {:induction false} FilterMultiplicity<T>(s: seq<T>, p: T -> bool, x: T)
    ensures multiset(Filter(s, p))[x] == if p(x) then multiset(s)[x] else 0
  {
    if |s| > 0 {
      assert s == [s[0]] + s[1..];
      FilterMultiplicity(s[1..], p, x);
    }
  }

  lemma FilterMultiplicities<T>(s: seq<T>, p: T -> bool)
    ensures forall x :: multiset(Filter(s, p))[x] == if p(x) then multiset(s)[x] else 0
  {
    forall x
      ensures multiset(Filter(s, p))[x] == if p(x) then multiset(s)[x] else 0
    {
      FilterMultiplicity(s, p, x);
    }
  }

  lemma CountAppendOne<T>(s: seq<T>, x: T, p: T -> bool)
    ensures Count(s + [x], p) == Count(s, p) + (if p(x) then 1 else 0)
  {
    FilterAppend(s, [x], p);
  }

  lemma {:induction false} CountMonotone<T>(s: seq<T>, p: T -> bool, q: T -> bool)
    requires forall x | x in s :: p(x) ==> q(x)
    ensures Count(s, p) <= Count(s, q)
  {
    if |s| > 0 {
      assert forall x | x in s[1..] :: x in s;
      CountMonotone(s[1..], p, q);
    }
  }

  /** Counting after a weaker filter changes nothing: the rows `q` selects all survive `p`. */
  lemma {:induction false} CountAfterFilter<T>(s: seq<T>, p: T -> bool, q: T -> bool)
    requires forall x | x in s :: q(x) ==> p(x)
    ensures Count(Filter(s, p), q) == Count(s, q)
  {
    if |s| > 0 {
      assert forall x | x in s[1..] :: x in s;
      CountAfterFilter(s[1..], p, q);
      if p(s[0]) {
        assert ([s[0]] + Filter(s[1..], p))[1..] == Filter(s[1..], p);
      }
    }
  }

  lemma ConsPairwise<T>(h: T, t: seq<T>, rel: (T, T) -> bool)
    requires Pairwise(t, rel)
    requires forall y | y in t :: rel(h, y)
    ensures Pairwise([h] + t, rel)
  {
    var r := [h] + t;
    forall i, j | 0 <= i < j < |r|
      ensures rel(r[i], r[j])
    {
      if i == 0 {
        assert r[j] == t[j - 1];
      } else {
        assert r[i] == t[i - 1] && r[j] == t[j - 1];
      }
    }
  }

  lemma {:induction false} FilterPairwise<T>(s: seq<T>, p: T -> bool, rel: (T, T) -> bool)
    requires Pairwise(s, rel)
    ensures Pairwise(Filter(s, p), rel)
  {
    if |s| > 0 {
      assert Pairwise(s[1..], rel);
      FilterPairwise(s[1..], p, rel);
      if p(s[0]) {
        var tail := Filter(s[1..], p);
        forall y | y in tail
          ensures rel(s[0], y)
        {
          var k :| 0 <= k < |s[1..]| && s[1..][k] == y;
          assert s[k + 1] == y;
        }
        ConsPairwise(s[0], tail, rel);
      }
    }
  }

  /** An element the predicate rejects leaves the filter's output as it was. */
  lemma {:induction false} FilterSkips<T>(a: seq<T>, x: T, b: seq<T>, p: T -> bool)
    requires !p(x)
    ensures Filter(a + [x] + b, p) == Filter(a + b, p)
  {
    assert [x][1..] == [];
    var fx := Filter([x], p);
    assert fx == [];
    FilterAppend(a, [x], p);
    var fax := Filter(a + [x], p);
    assert fax == Filter(a, p) + fx;
    assert fax == Filter(a, p);
    FilterAppend(a + [x], b, p);
    FilterAppend(a, b, p);
  }

  lemma {:induction false} SumAppend<T>(a: seq<T>, b: seq<T>, f: T -> int)
    ensures SumBy(a + b, f) == SumBy(a, f) + SumBy(b, f)
  {
    if |a| == 0 {
      assert a + b == b;
    } else {
      assert (a + b)[1..] == a[1..] + b;
      SumAppend(a[1..], b, f);
    }
  }

  /** In a sorted sequence the head's key bounds every later element's key. */
  lemma HeadIsLeast<T>(s: seq<T>, key: T -> int)
    requires SortedBy(s, key) && |s| > 0
    ensures forall y | y in multiset(s[1..]) :: key(s[0]) <= key(y)
  {
    forall y | y in multiset(s[1..])
      ensures key(s[0]) <= key(y)
    {
      var k :| 0 <= k < |s[1..]| && s[1..][k] == y;
      assert s[k + 1] == y;
    }
  }

  lemma ConsSorted<T>(h: T, t: seq<T>, key: T -> int)
    requires SortedBy(t, key)
    requires forall y | y in multiset(t) :: key(h) <= key(y)
    ensures SortedBy([h] + t, key)
  {
    assert forall j | 0 <= j < |t| :: t[j] in multiset(t);
  }

  /** Inserts `x` before the first element whose key is not smaller, keeping `s` sorted. */
  function Insert<T>(x: T, s: seq<T>, key: T -> int): (r: seq<T>)
    requires SortedBy(s, key)
    ensures SortedBy(r, key)
    ensures multiset(r) == multiset(s) + multiset{x}
  {
    if |s| == 0 || key(x) <= key(s[0]) then [x] + s
    else
      assert s == [s[0]] + s[1..];
      var tail := Insert(x, s[1..], key);
      HeadIsLeast(s, key);
      ConsSorted(s[0], tail, key);
      [s[0]] + tail
  }

  /** A stable insertion sort by ascending `key`: a permutation of `s` in key order. */
  function SortByKey<T>(s: seq<T>, key: T -> int): (r: seq<T>)
    ensures SortedBy(r, key)
    ensures multiset(r) == multiset(s)
  {
    if |s| == 0 then []
    else
      assert s == [s[0]] + s[1..];
      Insert(s[0], SortByKey(s[1..], key), key)
  }
}
