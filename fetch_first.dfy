/**
 * `ORDER BY key FETCH FIRST n ROWS WITH TIES`, as the SQL standard's fetch-first
 * clause defines it (ISO/IEC 9075-2, <fetch first clause>): the first `n` rows
 * in key order and every further row whose key equals that of the `n`-th.
 * The ordering among rows with equal keys is not fixed by ORDER BY; the lemmas
 * below show that the rows selected do not depend on it.
 */
module FetchFirst {

  predicate SortedBy<T>(s: seq<T>, key: T -> int)
  {
    forall i, j :: 0 <= i < j < |s| ==> key(s[i]) <= key(s[j])
  }

  function InsertSorted<T>(x: T, s: seq<T>, key: T -> int): (r: seq<T>)
    requires SortedBy(s, key)
    ensures SortedBy(r, key)
    ensures multiset(r) == multiset(s) + multiset{x}
    ensures |r| == |s| + 1
    ensures forall y :: y in r ==> y == x || y in s
    decreases |s|
  {
    if |s| == 0 then [x]
    else if key(x) <= key(s[0]) then [x] + s
    else
      var rest := InsertSorted(x, s[1..], key);
      InsertSortedStep(x, s, key, rest);
      [s[0]] + rest
  }

  lemma InsertSortedStep<T>(x: T, s: seq<T>, key: T -> int, rest: seq<T>)
    requires SortedBy(s, key) && |s| > 0 && key(s[0]) < key(x)
    requires SortedBy(rest, key)
    requires multiset(rest) == multiset(s[1..]) + multiset{x}
    requires forall y :: y in rest ==> y == x || y in s[1..]
    ensures SortedBy([s[0]] + rest, key)
    ensures multiset([s[0]] + rest) == multiset(s) + multiset{x}
    ensures forall y :: y in [s[0]] + rest ==> y == x || y in s
  {
    assert s == [s[0]] + s[1..];
    forall y | y in rest
      ensures key(s[0]) <= key(y)
    {
      if y != x {
        var k :| 0 <= k < |s[1..]| && s[1..][k] == y;
        assert s[k + 1] == y;
      }
    }
    var r := [s[0]] + rest;
    forall i, j | 0 <= i < j < |r|
      ensures key(r[i]) <= key(r[j])
    {
      if i > 0 {
        assert r[i] == rest[i - 1] && r[j] == rest[j - 1];
      } else {
        assert r[j] == rest[j - 1] && r[j] in rest;
      }
    }
  }

  /** ORDER BY key: one ordering of the rows that the database may produce. */
  function SortBy<T>(s: seq<T>, key: T -> int): (r: seq<T>)
    ensures SortedBy(r, key)
    ensures multiset(r) == multiset(s)
    ensures |r| == |s|
    decreases |s|
  {
    if |s| == 0 then []
    else
      assert s == [s[0]] + s[1..];
      InsertSorted(s[0], SortBy(s[1..], key), key)
  }

  /** The first index at or after `k` whose key differs from `v`. */
  function TieEnd<T>(s: seq<T>, key: T -> int, k: nat, v: int): (e: nat)
    requires k <= |s|
    ensures k <= e <= |s|
    ensures forall i :: k <= i < e ==> key(s[i]) == v
    ensures e == |s| || key(s[e]) != v
    decreases |s| - k
  {
    if k < |s| && key(s[k]) == v then TieEnd(s, key, k + 1, v) else k
  }

  /**
   * FETCH FIRST n ROWS WITH TIES over rows already in key order: a prefix that
   * holds exactly the rows whose key is at most the `n`-th row's key, all rows
   * when there are at most `n`, and none when `n` is 0.
   */
  function FetchFirstWithTies<T>(s: seq<T>, key: T -> int, n: nat): (r: seq<T>)
    requires SortedBy(s, key)
    ensures |r| <= |s| && r == s[..|r|]
    ensures n == 0 ==> r == []
    ensures n >= |s| ==> r == s
    ensures 0 < n <= |s| ==> n <= |r|
    ensures 0 < n <= |s| ==> forall i :: 0 <= i < |s| ==> (i < |r| <==> key(s[i]) <= key(s[n - 1]))
  {
    if n == 0 then []
    else if n >= |s| then s
    else
      var e := TieEnd(s, key, n, key(s[n - 1]));
      assert forall i :: e <= i < |s| ==> key(s[i]) >= key(s[e]) > key(s[n - 1]);
      s[..e]
  }

  /** The rows whose key is at most `v`, in order. */
  function AtMost<T>(s: seq<T>, key: T -> int, v: int): (r: seq<T>)
    decreases |s|
  {
    if |s| == 0 then [] else (if key(s[0]) <= v then [s[0]] else []) + AtMost(s[1..], key, v)
  }

  lemma {:induction false} AtMostCount<T>(s: seq<T>, key: T -> int, v: int, x: T)
    ensures multiset(AtMost(s, key, v))[x] == if key(x) <= v then multiset(s)[x] else 0
    decreases |s|
  {
    if |s| > 0 {
      AtMostCount(s[1..], key, v, x);
      assert s == [s[0]] + s[1..];
    }
  }

  /** Which rows have key at most `v` depends only on the multiset of rows. */
  lemma AtMostPermutation<T(!new)>(s1: seq<T>, s2: seq<T>, key: T -> int, v: int)
    requires multiset(s1) == multiset(s2)
    ensures multiset(AtMost(s1, key, v)) == multiset(AtMost(s2, key, v))
    ensures |AtMost(s1, key, v)| == |AtMost(s2, key, v)|
  {
    var m1, m2 := multiset(AtMost(s1, key, v)), multiset(AtMost(s2, key, v));
    forall x
      ensures m1[x] == m2[x]
    {
      AtMostCount(s1, key, v, x);
      AtMostCount(s2, key, v, x);
    }
    assert m1 == m2;
    assert |multiset(AtMost(s1, key, v))| == |AtMost(s1, key, v)|;
    assert |multiset(AtMost(s2, key, v))| == |AtMost(s2, key, v)|;
  }

  lemma {:induction false} AtMostConcat<T>(a: seq<T>, b: seq<T>, key: T -> int, v: int)
    ensures AtMost(a + b, key, v) == AtMost(a, key, v) + AtMost(b, key, v)
    decreases |a|
  {
    if |a| > 0 {
      assert (a + b)[1..] == a[1..] + b;
      AtMostConcat(a[1..], b, key, v);
    } else {
      assert a + b == b;
    }
  }

  lemma {:induction false} AtMostAll<T>(s: seq<T>, key: T -> int, v: int)
    requires forall i :: 0 <= i < |s| ==> key(s[i]) <= v
    ensures AtMost(s, key, v) == s
    decreases |s|
  {
    if |s| > 0 {
      AtMostAll(s[1..], key, v);
      assert s == [s[0]] + s[1..];
    }
  }

  lemma {:induction false} AtMostNone<T>(s: seq<T>, key: T -> int, v: int)
    requires forall i :: 0 <= i < |s| ==> key(s[i]) > v
    ensures AtMost(s, key, v) == []
    decreases |s|
  {
    if |s| > 0 {
      AtMostNone(s[1..], key, v);
    }
  }

  lemma {:induction false} AtMostLength<T>(s: seq<T>, key: T -> int, v: int)
    ensures |AtMost(s, key, v)| <= |s|
    decreases |s|
  {
    if |s| > 0 {
      AtMostLength(s[1..], key, v);
    }
  }

  /** In key order, at least `i + 1` rows have key at most that of row `i`. */
  lemma AtMostAtIndex<T>(s: seq<T>, key: T -> int, i: nat)
    requires SortedBy(s, key) && i < |s|
    ensures |AtMost(s, key, key(s[i]))| >= i + 1
  {
    var v := key(s[i]);
    assert s == s[..i + 1] + s[i + 1..];
    AtMostConcat(s[..i + 1], s[i + 1..], key, v);
    AtMostAll(s[..i + 1], key, v);
  }

  /** In key order, at most `i` rows have a key below that of row `i`. */
  lemma AtMostBelowIndex<T>(s: seq<T>, key: T -> int, i: nat, u: int)
    requires SortedBy(s, key) && i < |s| && u < key(s[i])
    ensures |AtMost(s, key, u)| <= i
  {
    assert s == s[..i] + s[i..];
    AtMostConcat(s[..i], s[i..], key, u);
    AtMostNone(s[i..], key, u);
    AtMostLength(s[..i], key, u);
  }

  /** Any two key orderings of the same rows agree on the key at every position. */
  lemma KeyAtPositionDetermined<T(!new)>(s1: seq<T>, s2: seq<T>, key: T -> int, i: nat)
    requires SortedBy(s1, key) && SortedBy(s2, key)
    requires multiset(s1) == multiset(s2)
    requires i < |s1|
    ensures |s2| == |s1| && key(s1[i]) == key(s2[i])
  {
    assert |s1| == |multiset(s1)| == |multiset(s2)| == |s2|;
    var v1, v2 := key(s1[i]), key(s2[i]);
    if v1 < v2 {
      AtMostAtIndex(s1, key, i);
      AtMostBelowIndex(s2, key, i, v1);
      AtMostPermutation(s1, s2, key, v1);
      assert false;
    } else if v2 < v1 {
      AtMostAtIndex(s2, key, i);
      AtMostBelowIndex(s1, key, i, v2);
      AtMostPermutation(s1, s2, key, v2);
      assert false;
    }
  }

  /** The cutoff rows are exactly the rows with key at most the cutoff key. */
  lemma FetchIsAtMost<T>(s: seq<T>, key: T -> int, n: nat)
    requires SortedBy(s, key) && 0 < n && 0 < |s|
    ensures var m := if n < |s| then n else |s|;
            FetchFirstWithTies(s, key, n) == AtMost(s, key, key(s[m - 1]))
  {
    if n >= |s| {
      FetchAllIsAtMost(s, key, n);
    } else {
      CutoffSplit(s, key, key(s[n - 1]), FetchFirstWithTies(s, key, n));
    }
  }

  lemma FetchAllIsAtMost<T>(s: seq<T>, key: T -> int, n: nat)
    requires SortedBy(s, key) && |s| <= n && 0 < |s|
    ensures FetchFirstWithTies(s, key, n) == AtMost(s, key, key(s[|s| - 1]))
  {
    var v := key(s[|s| - 1]);
    forall i | 0 <= i < |s| ensures key(s[i]) <= v {
      if i < |s| - 1 {
        assert key(s[i]) <= key(s[|s| - 1]);
      }
    }
    AtMostAll(s, key, v);
  }

  /** A prefix holding exactly the rows with key at most `v` is the rows with key at most `v`. */
  lemma CutoffSplit<T>(s: seq<T>, key: T -> int, v: int, r: seq<T>)
    requires |r| <= |s| && r == s[..|r|]
    requires forall i :: 0 <= i < |s| ==> (i < |r| <==> key(s[i]) <= v)
    ensures r == AtMost(s, key, v)
  {
    var t := s[|r|..];
    assert s == r + t;
    forall i | 0 <= i < |r|
      ensures key(r[i]) <= v
    {
      assert r[i] == s[i];
    }
    forall i | 0 <= i < |t|
      ensures key(t[i]) > v
    {
      assert t[i] == s[|r| + i];
    }
    AtMostConcat(r, t, key, v);
    AtMostAll(r, key, v);
    AtMostNone(t, key, v);
  }

  /**
   * The rows FETCH FIRST n ROWS WITH TIES selects do not depend on how ORDER BY
   * orders rows with equal keys: any two key orderings of the same rows give
   * the same rows (as a multiset).
   */
  lemma FetchIndependentOfTieOrder<T(!new)>(s1: seq<T>, s2: seq<T>, key: T -> int, n: nat)
    requires SortedBy(s1, key) && SortedBy(s2, key)
    requires multiset(s1) == multiset(s2)
    ensures multiset(FetchFirstWithTies(s1, key, n)) == multiset(FetchFirstWithTies(s2, key, n))
  {
    assert |s1| == |multiset(s1)| == |multiset(s2)| == |s2|;
    if n > 0 && |s1| > 0 {
      var m := if n < |s1| then n else |s1|;
      KeyAtPositionDetermined(s1, s2, key, m - 1);
      FetchIsAtMost(s1, key, n);
      FetchIsAtMost(s2, key, n);
      AtMostPermutation(s1, s2, key, key(s1[m - 1]));
    }
  }

  /** A cohort of rows sharing one key is never split by the cutoff. */
  lemma FetchKeepsCohorts<T>(s: seq<T>, key: T -> int, n: nat, i: nat, j: nat)
    requires SortedBy(s, key) && i < |s| && j < |s| && key(s[i]) == key(s[j])
    requires i < |FetchFirstWithTies(s, key, n)|
    ensures j < |FetchFirstWithTies(s, key, n)|
  {
  }

  /** The cutoff rows form the same multiset whichever key ordering of the input is used. */
  lemma FetchOfAnyOrdering<T(!new)>(s: seq<T>, ordered: seq<T>, key: T -> int, n: nat)
    requires SortedBy(ordered, key) && multiset(ordered) == multiset(s)
    ensures multiset(FetchFirstWithTies(ordered, key, n)) == multiset(FetchFirstWithTies(SortBy(s, key), key, n))
  {
    FetchIndependentOfTieOrder(ordered, SortBy(s, key), key, n);
  }

  /**
   * ORDER BY `key` FETCH FIRST `n` ROWS WITH TIES over an unordered table: at
   * least `n` rows (or all of them), all taken from the table. The two lemmas
   * after it bound the selection from both sides.
   */
  function FetchFirstOrdered<T(!new)>(s: seq<T>, key: T -> int, n: nat): (r: seq<T>)
    ensures forall x :: x in r ==> x in s
    ensures n >= |s| ==> multiset(r) == multiset(s)
    ensures n <= |s| ==> n <= |r|
    ensures n == 0 ==> r == []
  {
    var sorted := SortBy(s, key);
    var r := FetchFirstWithTies(sorted, key, n);
    forall x | x in r ensures x in s {
      assert x in multiset(sorted);
    }
    r
  }

  /** The selection is closed downwards: every row no later than a selected row is selected too. */
  lemma FetchFirstOrderedClosed<T(!new)>(s: seq<T>, key: T -> int, n: nat, x: T, y: T)
    requires x in s && y in FetchFirstOrdered(s, key, n) && key(x) <= key(y)
    ensures x in FetchFirstOrdered(s, key, n)
  {
    FetchDownwardClosed(s, SortBy(s, key), key, n, x, y);
  }

  /** No row is selected that has `n` or more rows strictly before it. */
  lemma FetchFirstOrderedBelow<T(!new)>(s: seq<T>, key: T -> int, n: nat, x: T)
    requires x in FetchFirstOrdered(s, key, n)
    ensures |AtMost(s, key, key(x) - 1)| < n
  {
    FetchBelowCount(s, SortBy(s, key), key, n, x);
  }

  lemma FetchDownwardClosed<T>(s: seq<T>, sorted: seq<T>, key: T -> int, n: nat, x: T, y: T)
    requires sorted == SortBy(s, key)
    requires x in s && y in FetchFirstWithTies(sorted, key, n) && key(x) <= key(y)
    ensures x in FetchFirstWithTies(sorted, key, n)
  {
    var r := FetchFirstWithTies(sorted, key, n);
    assert x in multiset(sorted);
    var i :| 0 <= i < |sorted| && sorted[i] == x;
    var j :| 0 <= j < |r| && r[j] == y;
    assert sorted[j] == y;
    if n < |sorted| {
      assert key(sorted[i]) <= key(sorted[n - 1]);
      assert r[i] == x;
    }
  }

  lemma FetchBelowCount<T(!new)>(s: seq<T>, sorted: seq<T>, key: T -> int, n: nat, x: T)
    requires sorted == SortBy(s, key)
    requires x in FetchFirstWithTies(sorted, key, n)
    ensures |AtMost(s, key, key(x) - 1)| < n
  {
    var r := FetchFirstWithTies(sorted, key, n);
    var i :| 0 <= i < |r| && r[i] == x;
    assert sorted[i] == x;
    var u := key(x) - 1;
    AtMostPermutation(s, sorted, key, u);
    assert |AtMost(s, key, u)| == |AtMost(sorted, key, u)|;
    var j := if i < n then i else n - 1;
    assert j < n && u < key(sorted[j]) by {
      if i >= n {
        assert key(sorted[i]) <= key(sorted[n - 1]) <= key(sorted[i]);
      }
    }
    AtMostBelowIndex(sorted, key, j, u);
  }

  /** The rows FetchFirstOrdered selects do not depend on the order the table is given in. */
  lemma FetchFirstOrderedPermutation<T(!new)>(s1: seq<T>, s2: seq<T>, key: T -> int, n: nat)
    requires multiset(s1) == multiset(s2)
    ensures multiset(FetchFirstOrdered(s1, key, n)) == multiset(FetchFirstOrdered(s2, key, n))
  {
    FetchIndependentOfTieOrder(SortBy(s1, key), SortBy(s2, key), key, n);
  }
}
