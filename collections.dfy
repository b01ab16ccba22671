/** Counting occurrences in a column, as `value_counts()` does. */
module Counting {

  /** Number of occurrences of `x` in `s`. */
  function Count<T(==)>(s: seq<T>, x: T): (r: nat)
    ensures r <= |s|
    ensures r == multiset(s)[x]
  {
    if s == [] then 0
    else
      assert s == s[..|s| - 1] + [s[|s| - 1]];
      Count(s[..|s| - 1], x) + (if s[|s| - 1] == x then 1 else 0)
  }

  lemma CountAppend<T>(s: seq<T>, y: T, x: T)
    ensures Count(s + [y], x) == Count(s, x) + (if y == x then 1 else 0)
  {
    assert (s + [y])[..|s|] == s;
  }

  lemma CountConcat<T>(s: seq<T>, t: seq<T>, x: T)
    ensures Count(s + t, x) == Count(s, x) + Count(t, x)
  {
    assert multiset(s + t) == multiset(s) + multiset(t);
  }

  /** Number of positions at which `a` and `b` hold the same element, as
      `(a == b).sum()` on two arrays of one length. */
  function Matches<T(==)>(a: seq<T>, b: seq<T>): (n: nat)
    requires |a| == |b|
    ensures n <= |a|
  {
    if a == [] then 0 else Matches(a[1..], b[1..]) + (if a[0] == b[0] then 1 else 0)
  }

  /** A sequence agrees with itself everywhere, and agreement is symmetric. */
  lemma {:induction false} MatchesSelf<T>(a: seq<T>, b: seq<T>)
    requires |a| == |b|
    ensures Matches(a, a) == |a|
    ensures Matches(a, b) == Matches(b, a)
  {
    if a != [] {
      MatchesSelf(a[1..], b[1..]);
    }
  }

  /** A count over a larger count is a fraction between 0 and 1. */
  lemma FractionBounds(c: nat, t: nat)
    requires c <= t && t > 0
    ensures 0.0 <= c as real / t as real <= 1.0
  {
    var q := c as real / t as real;
    assert q * t as real == c as real;
  }

  predicate NoDup<T(==)>(s: seq<T>) {
    forall i, j :: 0 <= i < j < |s| ==> s[i] != s[j]
  }

  /** The distinct values of `s`, in order of first appearance. */
  function Distinct<T(==,!new)>(s: seq<T>): (r: seq<T>)
    ensures NoDup(r)
    ensures forall x :: x in r <==> x in s
  {
    if s == [] then []
    else
      var prefix := Distinct(s[..|s| - 1]);
      var last := s[|s| - 1];
      assert forall x :: x in s <==> x in s[..|s| - 1] || x == last by {
        assert s == s[..|s| - 1] + [last];
      }
      if last in prefix then prefix else prefix + [last]
  }

  /** The total of the counts of `labels` in `s`. */
  function SumCounts<T(==)>(labels: seq<T>, s: seq<T>): nat {
    if labels == [] then 0 else Count(s, labels[0]) + SumCounts(labels[1..], s)
  }

  lemma {:induction false} CountInNoDup<T>(labels: seq<T>, x: T)
    requires NoDup(labels)
    ensures Count(labels, x) == (if x in labels then 1 else 0)
  {
    if labels != [] {
      var p := labels[..|labels| - 1];
      var last := labels[|labels| - 1];
      assert labels == p + [last];
      assert NoDup(p);
      CountInNoDup(p, x);
      CountAppend(p, last, x);
      assert last !in p;
    }
  }

  lemma {:induction false} SumCountsAppend<T>(labels: seq<T>, s: seq<T>, y: T)
    ensures SumCounts(labels, s + [y]) == SumCounts(labels, s) + Count(labels, y)
  {
    if labels != [] {
      CountAppend(s, y, labels[0]);
      SumCountsAppend(labels[1..], s, y);
      assert labels == [labels[0]] + labels[1..];
      CountConcat([labels[0]], labels[1..], y);
    }
  }

  /** The counts of a set of distinct labels covering every value of `s` add up
      to the length of `s`: `value_counts()` loses and invents nothing. */
  lemma {:induction false} CountsSumToLength<T>(labels: seq<T>, s: seq<T>)
    requires NoDup(labels)
    requires forall x :: x in s ==> x in labels
    ensures SumCounts(labels, s) == |s|
  {
    if s == [] {
      ZeroCounts(labels);
    } else {
      var p := s[..|s| - 1];
      var y := s[|s| - 1];
      assert s == p + [y];
      CountsSumToLength(labels, p);
      SumCountsAppend(labels, p, y);
      CountInNoDup(labels, y);
    }
  }

  lemma {:induction false} ZeroCounts<T>(labels: seq<T>)
    ensures SumCounts(labels, []) == 0
  {
    if labels != [] { ZeroCounts(labels[1..]); }
  }
}

/** Python dictionaries as their ordered item lists. */
module Dicts {
  import opened Wrappers

  type Items<K, V> = seq<(K, V)>

  predicate DistinctKeys<K(==), V>(items: Items<K, V>) {
    forall i, j :: 0 <= i < j < |items| ==> items[i].0 != items[j].0
  }

  predicate InjectiveValues<K, V(==)>(items: Items<K, V>) {
    forall i, j :: 0 <= i < j < |items| ==> items[i].1 != items[j].1
  }

  predicate HasKey<K(==), V>(items: Items<K, V>, k: K) {
    exists i | 0 <= i < |items| :: items[i].0 == k
  }

  /** `d.get(k)`: the value stored under `k`, if any. */
  function Get<K(==), V>(items: Items<K, V>, k: K): (r: Option<V>)
    ensures r.None? <==> !HasKey(items, k)
    ensures r.Some? ==> exists i | 0 <= i < |items| :: items[i] == (k, r.value)
  {
    if items == [] then None
    else if items[0].0 == k then Some(items[0].1)
    else
      var r := Get(items[1..], k);
      assert HasKey(items, k) ==> HasKey(items[1..], k) by {
        if HasKey(items, k) {
          var i :| 0 <= i < |items| && items[i].0 == k;
          assert items[1..][i - 1].0 == k;
        }
      }
      assert r.Some? ==> exists i | 0 <= i < |items| :: items[i] == (k, r.value) by {
        if r.Some? {
          var i :| 0 <= i < |items[1..]| && items[1..][i] == (k, r.value);
          assert items[i + 1] == (k, r.value);
        }
      }
      r
  }

  /** With distinct keys, looking up the key of an item gives that item's value. */
  lemma GetItem<K, V>(items: Items<K, V>, i: nat)
    requires DistinctKeys(items) && i < |items|
    ensures Get(items, items[i].0) == Some(items[i].1)
  {
    var r := Get(items, items[i].0);
    var j :| 0 <= j < |items| && items[j] == (items[i].0, r.value);
    assert j == i;
  }

  /** `{v: k for k, v in d.items()}`: a later item overwrites an earlier one. */
  function Invert<K, V>(items: Items<K, V>): map<V, K> {
    if items == [] then map[]
    else Invert(items[..|items| - 1])[items[|items| - 1].1 := items[|items| - 1].0]
  }

  lemma {:induction false} InvertKeys<K, V>(items: Items<K, V>)
    ensures forall v :: v in Invert(items) <==> exists i | 0 <= i < |items| :: items[i].1 == v
  {
    if items != [] {
      var p := items[..|items| - 1];
      InvertKeys(p);
      forall v ensures v in Invert(items) <==> exists i | 0 <= i < |items| :: items[i].1 == v {
        if v in Invert(items) && v != items[|items| - 1].1 {
          assert v in Invert(p);
          assert exists i | 0 <= i < |p| :: p[i].1 == v;
          var i :| 0 <= i < |p| && p[i].1 == v;
          assert items[i].1 == v;
        }
        if (exists i | 0 <= i < |items| :: items[i].1 == v) && v != items[|items| - 1].1 {
          var i :| 0 <= i < |items| && items[i].1 == v;
          assert p[i].1 == v;
        }
      }
    }
  }

  /** For an injective mapping, the inverse sends every value back to its key. */
  lemma {:induction false} InvertAt<K, V>(items: Items<K, V>, i: nat)
    requires InjectiveValues(items) && i < |items|
    ensures items[i].1 in Invert(items) && Invert(items)[items[i].1] == items[i].0
  {
    var n := |items|;
    if i < n - 1 {
      var p := items[..n - 1];
      assert InjectiveValues(p);
      InvertAt(p, i);
      assert items[n - 1].1 != items[i].1;
    }
  }

  /** For an injective mapping with distinct keys, inversion round-trips both ways
      and loses no entry. */
  lemma InvertRoundTrip<K, V>(items: Items<K, V>)
    requires DistinctKeys(items) && InjectiveValues(items)
    ensures forall i :: 0 <= i < |items| ==> items[i].1 in Invert(items) && Invert(items)[items[i].1] == items[i].0
    ensures forall v :: v in Invert(items) ==> Get(items, Invert(items)[v]) == Some(v)
    ensures |Invert(items)| == |items|
  {
    forall i | 0 <= i < |items| ensures items[i].1 in Invert(items) && Invert(items)[items[i].1] == items[i].0 {
      InvertAt(items, i);
    }
    InvertKeys(items);
    forall v | v in Invert(items) ensures Get(items, Invert(items)[v]) == Some(v) {
      var i := InvertedFrom(items, v);
      InvertAt(items, i);
      GetItem(items, i);
    }
    InvertSize(items);
  }

  /** Every key of the inverse is the value of some item. */
  lemma {:induction false} InvertedFrom<K, V>(items: Items<K, V>, v: V) returns (i: nat)
    requires v in Invert(items)
    ensures i < |items| && items[i].1 == v
  {
    var p := items[..|items| - 1];
    if v == items[|items| - 1].1 {
      i := |items| - 1;
    } else {
      i := InvertedFrom(p, v);
    }
  }

  lemma {:induction false} InvertSize<K, V>(items: Items<K, V>)
    requires InjectiveValues(items)
    ensures |Invert(items)| == |items|
  {
    if items != [] {
      var p := items[..|items| - 1];
      assert InjectiveValues(p);
      InvertSize(p);
      InvertKeys(p);
      var v := items[|items| - 1].1;
      forall i | 0 <= i < |p| ensures p[i].1 != v {
        assert items[i].1 != items[|items| - 1].1;
      }
    }
  }
}
