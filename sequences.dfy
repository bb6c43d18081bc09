/** Sequence operations the views perform on query results: filtering (what an
    ORM `filter` or `exclude` does to a table) and order-preserving
    de-duplication by a key (a `seen` set, or `dict.fromkeys`). */
module Sequences {
  import opened Base

  /** The elements of `s` that satisfy `keep`, in their order. */
  function Filter<T>(s: seq<T>, keep: T -> bool): (r: seq<T>)
    ensures |r| <= |s|
  {
    if s == [] then []
    else Filter(s[..|s| - 1], keep) + (if keep(s[|s| - 1]) then [s[|s| - 1]] else [])
  }

  /** A filter keeps exactly the elements `keep` accepts. */
  lemma {:induction false} FilterMembers<T>(s: seq<T>, keep: T -> bool)
    ensures forall i :: 0 <= i < |Filter(s, keep)| ==> Filter(s, keep)[i] in s && keep(Filter(s, keep)[i])
    ensures forall i :: 0 <= i < |s| && keep(s[i]) ==> s[i] in Filter(s, keep)
  {
    if s != [] {
      var init := s[..|s| - 1];
      FilterMembers(init, keep);
      var r := Filter(s, keep);
      forall i | 0 <= i < |r| ensures r[i] in s && keep(r[i]) {
        if i < |Filter(init, keep)| {
          assert r[i] == Filter(init, keep)[i];
          assert r[i] in init;
        }
      }
      forall i | 0 <= i < |s| && keep(s[i]) ensures s[i] in r {
        if i < |init| {
          assert s[i] == init[i];
        }
      }
    }
  }

  /** Filtering a concatenation filters each part: the filter keeps the
      relative order of what it keeps. */
  lemma {:induction false} FilterAppend<T>(a: seq<T>, b: seq<T>, keep: T -> bool)
    ensures Filter(a + b, keep) == Filter(a, keep) + Filter(b, keep)
    decreases |b|
  {
    if b == [] {
      assert a + b == a;
    } else {
      var b' := b[..|b| - 1];
      assert (a + b)[..|a + b| - 1] == a + b';
      FilterAppend(a, b', keep);
    }
  }

  /** A filter keeps what `keep` accepts everywhere and drops what it rejects everywhere. */
  lemma {:induction false} FilterAllOrNothing<T>(s: seq<T>, keep: T -> bool)
    ensures (forall i :: 0 <= i < |s| ==> keep(s[i])) ==> Filter(s, keep) == s
    ensures (forall i :: 0 <= i < |s| ==> !keep(s[i])) ==> Filter(s, keep) == []
  {
    if s != [] {
      var init := s[..|s| - 1];
      FilterAllOrNothing(init, keep);
      if forall i :: 0 <= i < |s| ==> keep(s[i]) {
        assert forall i :: 0 <= i < |init| ==> keep(init[i]) by {
          forall i | 0 <= i < |init| ensures keep(init[i]) { assert init[i] == s[i]; }
        }
        assert init + [s[|s| - 1]] == s;
      }
      if forall i :: 0 <= i < |s| ==> !keep(s[i]) {
        assert forall i :: 0 <= i < |init| ==> !keep(init[i]) by {
          forall i | 0 <= i < |init| ensures !keep(init[i]) { assert init[i] == s[i]; }
        }
      }
    }
  }

  /** Filters that agree on every element of `s` keep the same elements. */
  lemma {:induction false} FilterEquivalent<T>(s: seq<T>, a: T -> bool, b: T -> bool)
    requires forall i :: 0 <= i < |s| ==> a(s[i]) == b(s[i])
    ensures Filter(s, a) == Filter(s, b)
  {
    if s != [] {
      var init := s[..|s| - 1];
      assert forall i :: 0 <= i < |init| ==> init[i] == s[i];
      FilterEquivalent(init, a, b);
    }
  }

  function Both<T>(a: T -> bool, b: T -> bool): T -> bool {
    (x: T) => a(x) && b(x)
  }

  /** Filtering twice is filtering once by both conditions. */
  lemma {:induction false} FilterFilter<T>(s: seq<T>, a: T -> bool, b: T -> bool)
    ensures Filter(Filter(s, a), b) == Filter(s, Both(a, b))
  {
    if s != [] {
      var init := s[..|s| - 1];
      var last := s[|s| - 1];
      FilterFilter(init, a, b);
      if a(last) {
        assert Filter(s, a) == Filter(init, a) + [last];
        FilterAppend(Filter(init, a), [last], b);
        assert [last][..0] == [];
        assert Filter([last], b) == if b(last) then [last] else [];
      } else {
        assert Filter(s, a) == Filter(init, a);
      }
    }
  }

  /** When only the element at `f` is accepted, the filter keeps just it. */
  lemma {:induction false} FilterSingle<T>(s: seq<T>, keep: T -> bool, f: nat)
    requires f < |s| && keep(s[f])
    requires forall j :: 0 <= j < |s| && j != f ==> !keep(s[j])
    ensures Filter(s, keep) == [s[f]]
  {
    var init := s[..|s| - 1];
    if f == |s| - 1 {
      assert forall j :: 0 <= j < |init| ==> !keep(init[j]) by {
        forall j | 0 <= j < |init| ensures !keep(init[j]) { assert init[j] == s[j]; }
      }
      FilterAllOrNothing(init, keep);
    } else {
      assert init[f] == s[f];
      assert forall j :: 0 <= j < |init| && j != f ==> !keep(init[j]) by {
        forall j | 0 <= j < |init| && j != f ensures !keep(init[j]) { assert init[j] == s[j]; }
      }
      FilterSingle(init, keep, f);
    }
  }

  /** Replacing a rejected element by another rejected one does not change the filter. */
  lemma {:induction false} FilterUpdateRejected<T>(s: seq<T>, keep: T -> bool, f: nat, x: T)
    requires f < |s| && !keep(s[f]) && !keep(x)
    ensures Filter(s[f := x], keep) == Filter(s, keep)
  {
    var t := s[f := x];
    var init := s[..|s| - 1];
    if f == |s| - 1 {
      assert t[..|t| - 1] == init;
    } else {
      assert t[..|t| - 1] == init[f := x];
      FilterUpdateRejected(init, keep, f, x);
    }
  }

  /** The index of the first element accepted by `p`, if there is one
      (`queryset.first()` on a filter, in table order). */
  function FirstIndex<T>(s: seq<T>, p: T -> bool): (r: Option<nat>)
    ensures r.Some? ==> r.value < |s| && p(s[r.value]) && forall j :: 0 <= j < r.value ==> !p(s[j])
    ensures r.None? ==> forall j :: 0 <= j < |s| ==> !p(s[j])
  {
    if s == [] then None
    else if p(s[0]) then Some(0)
    else match FirstIndex(s[1..], p)
      case None => None
      case Some(k) => Some(k + 1)
  }

  /** `rank` strictly increases along `s`. */
  ghost predicate Increasing<T>(s: seq<T>, rank: T -> int) {
    forall i, j :: 0 <= i < j < |s| ==> rank(s[i]) < rank(s[j])
  }

  /** A sequence whose `rank` strictly increases keeps that property when filtered. */
  lemma {:induction false} FilterIncreasing<T>(s: seq<T>, keep: T -> bool, rank: T -> int)
    requires Increasing(s, rank)
    ensures Increasing(Filter(s, keep), rank)
  {
    if s != [] {
      var init := s[..|s| - 1];
      var last := s[|s| - 1];
      FilterIncreasing(init, keep, rank);
      FilterMembers(init, keep);
      var p := Filter(init, keep);
      forall k | 0 <= k < |p| ensures rank(p[k]) < rank(last) {
        var i :| 0 <= i < |init| && init[i] == p[k];
        assert s[i] == p[k];
      }
      var r := Filter(s, keep);
      assert r == p + (if keep(last) then [last] else []);
      forall i, j | 0 <= i < j < |r| ensures rank(r[i]) < rank(r[j]) {
        if j < |p| {
          assert r[i] == p[i] && r[j] == p[j];
          assert rank(p[i]) < rank(p[j]);
        } else {
          assert r[i] == p[i] && r[j] == last;
        }
      }
    }
  }

  /** The set of keys of the elements of `s`. */
  function KeysOf<T, K(==,!new)>(s: seq<T>, key: T -> K): (ks: set<K>)
    ensures forall i :: 0 <= i < |s| ==> key(s[i]) in ks
    ensures forall k :: k in ks ==> exists i :: 0 <= i < |s| && key(s[i]) == k
  {
    if s == [] then {} else KeysOf(s[..|s| - 1], key) + {key(s[|s| - 1])}
  }

  /** The first element of `s` for each key, in the order of `s`: what a loop
      that skips every element whose key it has already seen keeps. */
  function FirstByKey<T, K(==,!new)>(s: seq<T>, key: T -> K): (r: seq<T>)
    ensures forall i :: 0 <= i < |r| ==> r[i] in s
    ensures KeysOf(r, key) == KeysOf(s, key)
  {
    if s == [] then []
    else
      var init := s[..|s| - 1];
      var p := FirstByKey(init, key);
      if key(s[|s| - 1]) in KeysOf(init, key) then p
      else
        assert (p + [s[|s| - 1]])[..|p|] == p;
        p + [s[|s| - 1]]
  }

  /** De-duplication never lengthens a sequence. */
  lemma {:induction false} FirstByKeyLength<T, K(!new)>(s: seq<T>, key: T -> K)
    ensures |FirstByKey(s, key)| <= |s|
  {
    if s != [] {
      FirstByKeyLength(s[..|s| - 1], key);
    }
  }

  /** No two elements of `s` share a key. */
  ghost predicate DistinctKeys<T, K(!new)>(s: seq<T>, key: T -> K) {
    forall i, j :: 0 <= i < j < |s| ==> key(s[i]) != key(s[j])
  }

  /** No key occurs twice in the de-duplicated sequence. */
  lemma {:induction false} FirstByKeyDistinct<T, K(!new)>(s: seq<T>, key: T -> K)
    ensures DistinctKeys(FirstByKey(s, key), key)
  {
    if s != [] {
      var init := s[..|s| - 1];
      FirstByKeyDistinct(init, key);
      var p := FirstByKey(init, key);
      var last := s[|s| - 1];
      if key(last) !in KeysOf(init, key) {
        var r := p + [last];
        assert key(last) !in KeysOf(p, key);
        forall i, j | 0 <= i < j < |r| ensures key(r[i]) != key(r[j]) {
          KeyOfPrefixElement(p, last, key, i);
          if j < |p| {
            assert r[j] == p[j];
          }
        }
      }
    }
  }

  lemma KeyOfPrefixElement<T, K(!new)>(p: seq<T>, last: T, key: T -> K, i: nat)
    requires i < |p|
    ensures (p + [last])[i] == p[i] && key(p[i]) in KeysOf(p, key)
  {
  }

  /** An element of `s` is kept exactly when no earlier element has its key. */
  lemma {:induction false} FirstByKeyKeepsFirsts<T, K(!new)>(s: seq<T>, key: T -> K, j: nat)
    requires j < |s| && key(s[j]) !in KeysOf(s[..j], key)
    ensures s[j] in FirstByKey(s, key)
  {
    var init := s[..|s| - 1];
    if j < |s| - 1 {
      assert init[..j] == s[..j];
      FirstByKeyKeepsFirsts(init, key, j);
    } else {
      assert init == s[..j];
    }
  }

  /** Every kept element is the first of its key in `s`. */
  lemma {:induction false} FirstByKeyOnlyFirsts<T, K(!new)>(s: seq<T>, key: T -> K, x: T)
    requires x in FirstByKey(s, key)
    ensures exists j :: 0 <= j < |s| && s[j] == x && key(s[j]) !in KeysOf(s[..j], key)
  {
    var init := s[..|s| - 1];
    if x in FirstByKey(init, key) {
      FirstByKeyOnlyFirsts(init, key, x);
      var j :| 0 <= j < |init| && init[j] == x && key(init[j]) !in KeysOf(init[..j], key);
      FirstInInit(s, key, j);
    } else {
      FirstByKeyNewLast(s, key, x);
    }
  }

  /** An element that is the first of its key in all but the last element of `s` is so in `s`. */
  lemma FirstInInit<T, K(!new)>(s: seq<T>, key: T -> K, j: nat)
    requires j < |s| - 1 && key(s[..|s| - 1][j]) !in KeysOf(s[..|s| - 1][..j], key)
    ensures s[..|s| - 1][j] == s[j] && key(s[j]) !in KeysOf(s[..j], key)
  {
    assert s[..|s| - 1][..j] == s[..j];
  }

  /** What the last element adds to the de-duplicated sequence is the last element, with a new key. */
  lemma FirstByKeyNewLast<T, K(!new)>(s: seq<T>, key: T -> K, x: T)
    requires x in FirstByKey(s, key) && x !in FirstByKey(s[..|s| - 1], key)
    ensures x == s[|s| - 1] && key(s[|s| - 1]) !in KeysOf(s[..|s| - 1], key)
  {
  }

  /** De-duplicating a prefix gives a prefix of the de-duplicated whole: later
      elements never come before earlier ones. */
  lemma {:induction false} FirstByKeyPrefix<T, K(!new)>(s: seq<T>, key: T -> K, n: nat)
    requires n <= |s|
    ensures FirstByKey(s[..n], key) <= FirstByKey(s, key)
    decreases |s| - n
  {
    if n == |s| {
      assert s[..n] == s;
    } else {
      var init := s[..|s| - 1];
      assert init[..n] == s[..n];
      FirstByKeyPrefix(init, key, n);
    }
  }

  /** One more element: its key is added, and it is kept exactly when its key is new. */
  lemma FirstByKeyStep<T, K(!new)>(s: seq<T>, key: T -> K, i: nat, seen: set<K>, unique: seq<T>)
    requires i < |s| && seen == KeysOf(s[..i], key) && unique == FirstByKey(s[..i], key)
    ensures seen + {key(s[i])} == KeysOf(s[..i + 1], key)
    ensures key(s[i]) !in seen ==> unique + [s[i]] == FirstByKey(s[..i + 1], key)
    ensures key(s[i]) in seen ==> unique == FirstByKey(s[..i + 1], key) && seen == KeysOf(s[..i + 1], key)
  {
    assert s[..i + 1][..i] == s[..i];
  }

  /** The loop of the views: walk the sequence once with a set of seen keys and
      append each element whose key is new. */
  method UniqueByKey<T, K(==,!new)>(s: seq<T>, key: T -> K) returns (unique: seq<T>)
    ensures unique == FirstByKey(s, key)
  {
    var seen: set<K> := {};
    unique := [];
    var i := 0;
    while i < |s|
      invariant 0 <= i <= |s|
      invariant seen == KeysOf(s[..i], key)
      invariant unique == FirstByKey(s[..i], key)
    {
      FirstByKeyStep(s, key, i, seen, unique);
      var k := key(s[i]);
      if k !in seen {
        seen := seen + {k};
        unique := unique + [s[i]];
      }
      i := i + 1;
    }
    assert s[..|s|] == s;
  }

  /** `s` back to front. */
  function Reverse<T>(s: seq<T>): (r: seq<T>)
    ensures |r| == |s|
    ensures forall i :: 0 <= i < |s| ==> r[i] == s[|s| - 1 - i]
  {
    if s == [] then [] else [s[|s| - 1]] + Reverse(s[..|s| - 1])
  }

  /** An element of the reversed sequence is an element of the sequence. */
  lemma InReverse<T>(s: seq<T>, x: T)
    requires x in Reverse(s)
    ensures x in s
  {
    var k :| 0 <= k < |s| && Reverse(s)[k] == x;
    assert s[|s| - 1 - k] == x;
  }

  /** An element of a prefix is an element of the whole. */
  lemma InPrefix<T>(a: seq<T>, b: seq<T>, x: T)
    requires a <= b && x in a
    ensures x in b
  {
    var k :| 0 <= k < |a| && a[k] == x;
    assert b[k] == x;
  }

  /** `s[:n]`: at most the first `n` elements. */
  function Take<T>(s: seq<T>, n: nat): (r: seq<T>)
    ensures |r| <= n && |r| <= |s| && r <= s
    ensures |s| <= n ==> r == s
  {
    if |s| <= n then s else s[..n]
  }
}
