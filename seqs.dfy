/** Sequence operations the query model is written with (SQL joins, WHERE, DISTINCT). */
module Seqs {

  /** WHERE: the elements satisfying `p`, in order. */
  function Filter<T(!new)>(s: seq<T>, p: T -> bool): (r: seq<T>)
    ensures |r| <= |s|
    ensures forall x :: x in r <==> x in s && p(x)
    decreases |s|
  {
    if |s| == 0 then []
    else (if p(s[0]) then [s[0]] else []) + Filter(s[1..], p)
  }

  /** The projection of every element, in order. */
  function Map<A(!new), B(!new)>(s: seq<A>, f: A -> B): (r: seq<B>)
    ensures |r| == |s|
    ensures forall i :: 0 <= i < |s| ==> r[i] == f(s[i])
    ensures forall y :: y in r <==> exists x :: x in s && y == f(x)
  {
    var r := seq(|s|, i requires 0 <= i < |s| => f(s[i]));
    assert forall x :: x in s ==> exists i :: 0 <= i < |s| && s[i] == x && r[i] == f(x);
    r
  }

  /** A join step: every element contributes the rows `f` gives for it, in order. */
  function FlatMap<A(!new), B(!new)>(s: seq<A>, f: A -> seq<B>): (r: seq<B>)
    ensures forall y :: y in r <==> exists x :: x in s && y in f(x)
    decreases |s|
  {
    if |s| == 0 then []
    else
      var rest := FlatMap(s[1..], f);
      assert forall x :: x in s[1..] ==> x in s;
      assert forall x :: x in s ==> x == s[0] || x in s[1..];
      f(s[0]) + rest
  }

  /** DISTINCT, keeping each value's first occurrence. */
  function Distinct<T(==,!new)>(s: seq<T>): (r: seq<T>)
    ensures forall x :: x in r <==> x in s
    ensures forall i, j :: 0 <= i < j < |r| ==> r[i] != r[j]
    decreases |s|
  {
    if |s| == 0 then []
    else
      var prefix := Distinct(s[..|s| - 1]);
      assert forall x :: x in s[..|s| - 1] ==> x in s;
      assert forall x :: x in s ==> x == s[|s| - 1] || x in s[..|s| - 1];
      if s[|s| - 1] in s[..|s| - 1] then prefix else prefix + [s[|s| - 1]]
  }

  /** The keys of the elements of `s`. */
  function KeySet<T(==,!new), K>(s: seq<T>, key: T -> K): set<K>
  {
    set x | x in s :: key(x)
  }

  /** GROUP BY `key`: one element per key, the first one, in order of first occurrence. */
  function DistinctBy<T(==,!new), K(==,!new)>(s: seq<T>, key: T -> K): (r: seq<T>)
    ensures |r| <= |s|
    ensures forall x :: x in r ==> x in s
    ensures KeySet(r, key) == KeySet(s, key)
    ensures forall i, j :: 0 <= i < j < |r| ==> key(r[i]) != key(r[j])
    decreases |s|
  {
    if |s| == 0 then []
    else
      var prefix := DistinctBy(s[..|s| - 1], key);
      var last := s[|s| - 1];
      assert forall x :: x in s[..|s| - 1] ==> x in s;
      assert forall x :: x in s ==> x == last || x in s[..|s| - 1];
      assert KeySet(s, key) == KeySet(s[..|s| - 1], key) + {key(last)};
      if key(last) in KeySet(prefix, key) then prefix
      else
        DistinctByAppend(prefix, key, last);
        prefix + [last]
  }

  lemma DistinctByAppend<T(!new), K(!new)>(prefix: seq<T>, key: T -> K, last: T)
    requires key(last) !in KeySet(prefix, key)
    requires forall i, j :: 0 <= i < j < |prefix| ==> key(prefix[i]) != key(prefix[j])
    ensures KeySet(prefix + [last], key) == KeySet(prefix, key) + {key(last)}
    ensures forall i, j :: 0 <= i < j < |prefix + [last]| ==> key((prefix + [last])[i]) != key((prefix + [last])[j])
  {
    var r := prefix + [last];
    assert forall x :: x in r <==> x in prefix || x == last;
    forall i, j | 0 <= i < j < |r| ensures key(r[i]) != key(r[j]) {
      if j == |prefix| {
        assert r[i] in prefix;
      }
    }
  }

  /** With distinct keys, each element of `s` occurs exactly once. */
  lemma DistinctKeysCountOne<T(!new), K(!new)>(s: seq<T>, key: T -> K, p: nat)
    requires forall i, j :: 0 <= i < j < |s| ==> key(s[i]) != key(s[j])
    requires p < |s|
    ensures multiset(s)[s[p]] == 1
  {
    assert s == s[..p] + [s[p]] + s[p + 1..];
    forall q | 0 <= q < |s| && q != p ensures s[q] != s[p] {
      if q < p {
        assert key(s[q]) != key(s[p]);
      } else {
        assert key(s[p]) != key(s[q]);
      }
    }
    assert s[p] !in s[..p] && s[p] !in s[p + 1..];
  }

  /** A permutation of a sequence with distinct keys has distinct keys. */
  lemma DistinctKeysPermutation<T(!new), K(!new)>(a: seq<T>, b: seq<T>, key: T -> K)
    requires multiset(a) == multiset(b)
    requires forall i, j :: 0 <= i < j < |a| ==> key(a[i]) != key(a[j])
    ensures forall i, j :: 0 <= i < j < |b| ==> key(b[i]) != key(b[j])
  {
    forall i, j | 0 <= i < j < |b| ensures key(b[i]) != key(b[j]) {
      assert b[i] in multiset(a) && b[j] in multiset(a);
      var p :| 0 <= p < |a| && a[p] == b[i];
      var q :| 0 <= q < |a| && a[q] == b[j];
      if b[i] == b[j] {
        assert b == b[..j] + b[j..];
        assert b[i] == b[..j][i] && b[j] == b[j..][0];
        assert multiset(b)[b[i]] == multiset(b[..j])[b[i]] + multiset(b[j..])[b[i]];
        DistinctKeysCountOne(a, key, p);
        assert false;
      } else if p < q {
        assert key(a[p]) != key(a[q]);
      } else {
        assert q != p;
        assert key(a[q]) != key(a[p]);
      }
    }
  }
}
