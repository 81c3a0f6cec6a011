/**
 * Sequence building blocks shared by the aggregation pipelines: duplicate
 * removal in first-appearance order, keyed sums ($group with $sum), a stable
 * insertion sort by an integer key ($sort / Array.prototype.sort) and a
 * prefix ($limit).
 */
module Aggregate {

  predicate Distinct<T(==)>(s: seq<T>) {
    forall i, j :: 0 <= i < j < |s| ==> s[i] != s[j]
  }

  lemma {:induction false} DistinctCount<T>(s: seq<T>, x: T)
    requires Distinct(s)
    ensures multiset(s)[x] <= 1
  {
    if s != [] {
      var init := s[..|s| - 1];
      assert s == init + [s[|s| - 1]];
      assert Distinct(init) by {
        forall i, j | 0 <= i < j < |init| ensures init[i] != init[j] {
          assert init[i] == s[i] && init[j] == s[j];
        }
      }
      DistinctCount(init, x);
      if x == s[|s| - 1] {
        assert x !in init by {
          forall i | 0 <= i < |init| ensures init[i] != x {
            assert init[i] == s[i];
          }
        }
      }
    }
  }

  /** Dropping the last element keeps the rest distinct, and that element is not among them. */
  lemma DistinctInit<T>(s: seq<T>)
    requires Distinct(s) && s != []
    ensures Distinct(s[..|s| - 1]) && s[|s| - 1] !in s[..|s| - 1]
  {
    var init := s[..|s| - 1];
    forall i, j | 0 <= i < j < |init| ensures init[i] != init[j] {
      assert init[i] == s[i] && init[j] == s[j];
    }
    forall i | 0 <= i < |init| ensures init[i] != s[|s| - 1] {
      assert init[i] == s[i];
    }
  }

  /** Dropping position i takes one copy of its element out of the multiset. */
  lemma MultisetRemove<T>(b: seq<T>, i: nat)
    requires i < |b|
    ensures multiset(b[..i] + b[i + 1..]) == multiset(b) - multiset{b[i]}
  {
    assert b[..i + 1] == b[..i] + [b[i]];
    assert b[..i + 1] + b[i + 1..] == b;
  }

  /** A reordering of a sequence without repeats has no repeats. */
  lemma DistinctPermutation<T>(a: seq<T>, b: seq<T>)
    requires multiset(a) == multiset(b) && Distinct(a)
    ensures Distinct(b)
  {
    forall i, j | 0 <= i < j < |b| ensures b[i] != b[j] {
      if b[i] == b[j] {
        var x := b[i];
        assert b == b[..j] + b[j..];
        assert x in b[..j];
        assert x in b[j..];
        assert multiset(b)[x] == multiset(b[..j])[x] + multiset(b[j..])[x];
        DistinctCount(a, x);
        assert false;
      }
    }
  }

  /** The elements of `s`, each once, in order of first appearance. */
  function Dedup<T(==,!new)>(s: seq<T>): (r: seq<T>)
    ensures Distinct(r)
    ensures forall x :: x in r <==> x in s
  {
    if s == [] then []
    else
      var d := Dedup(s[..|s| - 1]);
      var x := s[|s| - 1];
      assert forall y :: y in s <==> y in s[..|s| - 1] || y == x;
      if x in d then d else d + [x]
  }

  /** The keys of a sequence of pairs, in order. */
  function KeysOf<K, V>(entries: seq<(K, V)>): (r: seq<K>)
    ensures |r| == |entries|
    ensures forall i :: 0 <= i < |entries| ==> r[i] == entries[i].0
  {
    seq(|entries|, i requires 0 <= i < |entries| => entries[i].0)
  }

  /** A key of a concatenation is a key of one of its parts. */
  lemma KeysOfAppend<K, V>(a: seq<(K, V)>, b: seq<(K, V)>, k: K)
    ensures k in KeysOf(a + b) <==> k in KeysOf(a) || k in KeysOf(b)
  {
    if k in KeysOf(a + b) {
      var i :| 0 <= i < |a + b| && KeysOf(a + b)[i] == k;
      if i < |a| { assert KeysOf(a)[i] == k; } else { assert KeysOf(b)[i - |a|] == k; }
    }
    if k in KeysOf(a) {
      var i :| 0 <= i < |a| && KeysOf(a)[i] == k;
      assert KeysOf(a + b)[i] == k;
    }
    if k in KeysOf(b) {
      var i :| 0 <= i < |b| && KeysOf(b)[i] == k;
      assert KeysOf(a + b)[|a| + i] == k;
    }
  }

  /** A reordering of pairs with distinct keys has distinct keys. */
  lemma PermutedKeysDistinct<K, V>(a: seq<(K, V)>, b: seq<(K, V)>)
    requires Distinct(KeysOf(a)) && multiset(a) == multiset(b)
    ensures Distinct(KeysOf(b))
  {
    assert Distinct(a) by {
      forall i, j | 0 <= i < j < |a| ensures a[i] != a[j] {
        assert KeysOf(a)[i] != KeysOf(a)[j];
      }
    }
    DistinctPermutation(a, b);
    forall i, j | 0 <= i < j < |b| ensures KeysOf(b)[i] != KeysOf(b)[j] {
      assert b[i] in multiset(a) && b[j] in multiset(a);
      var x :| 0 <= x < |a| && a[x] == b[i];
      var y :| 0 <= y < |a| && a[y] == b[j];
      if x != y {
        assert KeysOf(a)[x] != KeysOf(a)[y];
      }
    }
  }

  /** The sum of the amounts recorded against key `k`. */
  function SumFor<K(==)>(entries: seq<(K, int)>, k: K): int {
    if entries == [] then 0
    else
      var last := entries[|entries| - 1];
      SumFor(entries[..|entries| - 1], k) + (if last.0 == k then last.1 else 0)
  }

  lemma {:induction false} SumForAppend<K>(a: seq<(K, int)>, b: seq<(K, int)>, k: K)
    ensures SumFor(a + b, k) == SumFor(a, k) + SumFor(b, k)
  {
    if b != [] {
      assert (a + b)[..|a + b| - 1] == a + b[..|b| - 1];
      SumForAppend(a, b[..|b| - 1], k);
    } else {
      assert a + b == a;
    }
  }

  lemma {:induction false} SumForAbsent<K>(entries: seq<(K, int)>, k: K)
    requires k !in KeysOf(entries)
    ensures SumFor(entries, k) == 0
  {
    if entries != [] {
      var init := entries[..|entries| - 1];
      assert forall i :: 0 <= i < |init| ==> KeysOf(init)[i] == KeysOf(entries)[i];
      SumForAbsent(init, k);
    }
  }

  /**
   * $group with $sum: one pair per distinct key, in order of first
   * appearance, carrying the total recorded against that key.
   */
  function GroupSum<K(==,!new)>(entries: seq<(K, int)>): (r: seq<(K, int)>)
    ensures Distinct(KeysOf(r))
    ensures forall k :: k in KeysOf(r) <==> k in KeysOf(entries)
    ensures forall i :: 0 <= i < |r| ==> r[i].1 == SumFor(entries, r[i].0)
  {
    var ks := Dedup(KeysOf(entries));
    var r := seq(|ks|, i requires 0 <= i < |ks| => (ks[i], SumFor(entries, ks[i])));
    assert KeysOf(r) == ks;
    r
  }

  predicate SortedBy<T>(s: seq<T>, key: T -> int) {
    forall i, j :: 0 <= i < j < |s| ==> key(s[i]) <= key(s[j])
  }

  /** Inserts `x` before the first element whose key is not smaller. */
  function InsertBy<T(!new)>(x: T, s: seq<T>, key: T -> int): (r: seq<T>)
    requires SortedBy(s, key)
    ensures SortedBy(r, key)
    ensures multiset(r) == multiset(s) + multiset{x}
    ensures |r| == |s| + 1
  {
    if s == [] || key(x) <= key(s[0]) then [x] + s
    else
      var rest := InsertBy(x, s[1..], key);
      InsertBehind(x, s, rest, key);
      [s[0]] + rest
  }

  lemma InsertBehind<T>(x: T, s: seq<T>, rest: seq<T>, key: T -> int)
    requires s != [] && key(s[0]) < key(x)
    requires SortedBy(s, key) && SortedBy(rest, key)
    requires multiset(rest) == multiset(s[1..]) + multiset{x}
    ensures SortedBy([s[0]] + rest, key)
    ensures multiset([s[0]] + rest) == multiset(s) + multiset{x}
  {
    assert s == [s[0]] + s[1..];
    forall y | y in rest ensures key(s[0]) <= key(y) {
      assert y in multiset(rest);
      if y != x {
        assert y in multiset(s[1..]);
        assert y in s[1..];
      }
    }
    var r := [s[0]] + rest;
    forall i, j | 0 <= i < j < |r| ensures key(r[i]) <= key(r[j]) {
      if i == 0 {
        assert r[j] == rest[j - 1];
        assert rest[j - 1] in rest;
      } else {
        assert r[i] == rest[i - 1] && r[j] == rest[j - 1];
      }
    }
  }

  /** Insertion sort, ascending by `key`; equal keys keep their relative order. */
  function SortBy<T(!new)>(s: seq<T>, key: T -> int): (r: seq<T>)
    ensures SortedBy(r, key)
    ensures multiset(r) == multiset(s)
    ensures |r| == |s|
  {
    if s == [] then []
    else
      assert s == [s[0]] + s[1..];
      InsertBy(s[0], SortBy(s[1..], key), key)
  }

  /** $limit: at most the first `n` elements. */
  function Take<T>(s: seq<T>, n: nat): (r: seq<T>)
    ensures |r| <= n && |r| <= |s|
    ensures r == s[..|r|]
    ensures |s| <= n ==> r == s
    ensures |s| > n ==> |r| == n
  {
    if |s| <= n then s else s[..n]
  }
}
