/**
 * Sequence facts the ranking needs, stated for any element type: sorting
 * by a numeric key in non-increasing order, and concatenating the parts
 * produced for a list of keys visited in some order.
 */
module Ordering {

  // ---------------------------------------------------------------------
  // Non-increasing order by a key

  predicate SortedBy<T>(s: seq<T>, key: T -> real) {
    forall i, j :: 0 <= i < j < |s| ==> key(s[i]) >= key(s[j])
  }

  function KeysOf<T>(s: seq<T>, key: T -> real): (r: seq<real>)
    ensures |r| == |s| && forall i :: 0 <= i < |s| ==> r[i] == key(s[i])
  {
    seq(|s|, i requires 0 <= i < |s| => key(s[i]))
  }

  /** The elements of `s` without the one at position k. */
  function Without<T>(s: seq<T>, k: nat): (r: seq<T>)
    requires k < |s|
    ensures |r| == |s| - 1
    ensures forall i :: 0 <= i < k ==> r[i] == s[i]
    ensures forall i :: k <= i < |r| ==> r[i] == s[i + 1]
    ensures multiset(r) == multiset(s) - multiset{s[k]}
  {
    assert s == s[..k] + [s[k]] + s[k + 1..];
    s[..k] + s[k + 1..]
  }

  lemma SortedWithout<T>(s: seq<T>, k: nat, key: T -> real)
    requires k < |s| && SortedBy(s, key)
    ensures SortedBy(Without(s, k), key)
  {
    var r := Without(s, k);
    forall i, j | 0 <= i < j < |r| ensures key(r[i]) >= key(r[j]) {
      var i' := if i < k then i else i + 1;
      var j' := if j < k then j else j + 1;
      assert r[i] == s[i'] && r[j] == s[j'];
    }
  }

  /** Two sorted orderings of the same elements start with the same key. */
  lemma SortedHeadKey<T>(a: seq<T>, b: seq<T>, key: T -> real)
    requires SortedBy(a, key) && SortedBy(b, key)
    requires multiset(a) == multiset(b) && a != []
    ensures b != [] && key(a[0]) == key(b[0])
  {
    assert a[0] in multiset(b);
    var k :| 0 <= k < |b| && b[k] == a[0];
    assert b[0] in multiset(a);
    var k' :| 0 <= k' < |a| && a[k'] == b[0];
    assert key(b[0]) >= key(b[k]);
    assert key(a[0]) >= key(a[k']);
  }

  /**
   * Taking out of a sorted sequence an element whose key is the first key
   * leaves the keys as they were, less the first.
   */
  lemma KeysWithoutHeadKey<T>(b: seq<T>, k: nat, key: T -> real)
    requires k < |b| && SortedBy(b, key) && key(b[k]) == key(b[0])
    ensures KeysOf(b, key) == [key(b[0])] + KeysOf(Without(b, k), key)
  {
    var b' := Without(b, k);
    var lhs, rhs := KeysOf(b, key), [key(b[0])] + KeysOf(b', key);
    assert |lhs| == |rhs|;
    forall i | 0 <= i < |b| ensures lhs[i] == rhs[i] {
      if i == 0 {
      } else if i <= k {
        assert key(b[0]) >= key(b[i - 1]) >= key(b[k]);
        assert key(b[0]) >= key(b[i]) >= key(b[k]);
        assert rhs[i] == key(b'[i - 1]) == key(b[i - 1]);
      } else {
        assert rhs[i] == key(b'[i - 1]) == key(b[i]);
      }
    }
  }

  /**
   * Two orderings of the same elements by non-increasing key agree on the
   * key at every position, whatever order they give equal keys.
   */
  lemma {:induction false} SortedKeysDetermined<T>(a: seq<T>, b: seq<T>, key: T -> real)
    requires SortedBy(a, key) && SortedBy(b, key)
    requires multiset(a) == multiset(b)
    ensures KeysOf(a, key) == KeysOf(b, key)
    decreases |a|
  {
    if a == [] {
      assert |b| == |multiset(b)| == 0;
    } else {
      SortedHeadKey(a, b, key);
      assert a[0] in multiset(b);
      var k :| 0 <= k < |b| && b[k] == a[0];
      assert key(b[0]) >= key(b[k]);
      SortedHeadKey(b, a, key);
      var a', b' := Without(a, 0), Without(b, k);
      SortedWithout(a, 0, key);
      SortedWithout(b, k, key);
      SortedKeysDetermined(a', b', key);
      KeysWithoutHeadKey(a, 0, key);
      KeysWithoutHeadKey(b, k, key);
    }
  }

  /** The position of a largest key among a[from..]. */
  method MaxKeyIndex<T>(a: array<T>, from: nat, key: T -> real) returns (m: nat)
    requires from < a.Length
    ensures from <= m < a.Length
    ensures forall k :: from <= k < a.Length ==> key(a[m]) >= key(a[k])
  {
    m := from;
    for j := from + 1 to a.Length
      invariant from <= m < a.Length
      invariant forall k :: from <= k < j ==> key(a[m]) >= key(a[k])
    {
      if key(a[j]) > key(a[m]) {
        m := j;
      }
    }
  }

  /** Each of the first i elements is in place: its key is at least every later key. */
  predicate SortedUpTo<T>(s: seq<T>, i: nat, key: T -> real) {
    forall p, q :: 0 <= p < q < |s| && p < i ==> key(s[p]) >= key(s[q])
  }

  /** Swapping a largest remaining key into position i puts one more element in place. */
  lemma SelectionStep<T>(s: seq<T>, i: nat, m: nat, key: T -> real)
    requires i <= m < |s| && SortedUpTo(s, i, key)
    requires forall k :: i <= k < |s| ==> key(s[m]) >= key(s[k])
    ensures SortedUpTo(s[i := s[m]][m := s[i]], i + 1, key)
    ensures multiset(s[i := s[m]][m := s[i]]) == multiset(s)
  {
    var t := s[i := s[m]][m := s[i]];
    forall p, q | 0 <= p < q < |t| && p < i + 1 ensures key(t[p]) >= key(t[q]) {
      if p < i {
        assert t[p] == s[p];
        assert key(s[p]) >= key(s[m]) && key(s[p]) >= key(s[i]);
      }
    }
  }

  /**
   * Sorts `a` in place by non-increasing key (selection sort). Nothing is
   * promised about the relative order of elements with equal keys.
   */
  method SortDescending<T>(a: array<T>, key: T -> real)
    modifies a
    ensures SortedBy(a[..], key)
    ensures multiset(a[..]) == multiset(old(a[..]))
  {
    for i := 0 to a.Length
      invariant SortedUpTo(a[..], i, key)
      invariant multiset(a[..]) == multiset(old(a[..]))
    {
      var m := MaxKeyIndex(a, i, key);
      ghost var s := a[..];
      SelectionStep(s, i, m, key);
      a[i], a[m] := a[m], a[i];
      assert a[..] == s[i := s[m]][m := s[i]];
    }
  }

  // ---------------------------------------------------------------------
  // Parts produced for a list of keys

  predicate Distinct<K(==)>(order: seq<K>) {
    forall i, j :: 0 <= i < j < |order| ==> order[i] != order[j]
  }

  function Elements<K(==)>(order: seq<K>): set<K> {
    set i | 0 <= i < |order| :: order[i]
  }

  /** The parts of the first n keys of `order`, one after the other. */
  function FlatMapPrefix<K, T>(order: seq<K>, n: nat, part: K -> seq<T>): seq<T>
    requires n <= |order|
  {
    if n == 0 then [] else FlatMapPrefix(order, n - 1, part) + part(order[n - 1])
  }

  /** The parts of the keys in `order`, one after the other. */
  function FlatMap<K, T>(order: seq<K>, part: K -> seq<T>): seq<T> {
    FlatMapPrefix(order, |order|, part)
  }

  /** The parts of a prefix depend on nothing but the keys in it. */
  lemma {:induction false} FlatMapPrefixAgree<K, T>(o1: seq<K>, o2: seq<K>, n: nat, part: K -> seq<T>)
    requires n <= |o1| && n <= |o2|
    requires forall i :: 0 <= i < n ==> o1[i] == o2[i]
    ensures FlatMapPrefix(o1, n, part) == FlatMapPrefix(o2, n, part)
  {
    if n > 0 {
      FlatMapPrefixAgree(o1, o2, n - 1, part);
    }
  }

  lemma {:induction false} FlatMapAppendPrefix<K, T>(o1: seq<K>, o2: seq<K>, m: nat, part: K -> seq<T>)
    requires m <= |o2|
    ensures FlatMapPrefix(o1 + o2, |o1| + m, part) == FlatMap(o1, part) + FlatMapPrefix(o2, m, part)
  {
    if m == 0 {
      FlatMapPrefixAgree(o1 + o2, o1, |o1|, part);
    } else {
      FlatMapAppendPrefix(o1, o2, m - 1, part);
      assert (o1 + o2)[|o1| + m - 1] == o2[m - 1];
    }
  }

  lemma FlatMapAppend<K, T>(o1: seq<K>, o2: seq<K>, part: K -> seq<T>)
    ensures FlatMap(o1 + o2, part) == FlatMap(o1, part) + FlatMap(o2, part)
  {
    FlatMapAppendPrefix(o1, o2, |o2|, part);
  }

  lemma ElementsWithout<K>(o: seq<K>, k: nat)
    requires k < |o| && Distinct(o)
    ensures Distinct(Without(o, k))
    ensures Elements(Without(o, k)) == Elements(o) - {o[k]}
  {
    var r := Without(o, k);
    forall i, j | 0 <= i < j < |r| ensures r[i] != r[j] {
      var i' := if i < k then i else i + 1;
      var j' := if j < k then j else j + 1;
      assert r[i] == o[i'] && r[j] == o[j'];
    }
    forall x | x in Elements(o) - {o[k]} ensures x in Elements(r) {
      var i :| 0 <= i < |o| && o[i] == x;
      if i < k { assert r[i] == x; } else { assert r[i - 1] == x; }
    }
    forall x | x in Elements(r) ensures x in Elements(o) - {o[k]} {
      var i :| 0 <= i < |r| && r[i] == x;
      if i < k { assert o[i] == x; } else { assert o[i + 1] == x; }
    }
  }

  lemma FlatMapSnoc<K, T>(o: seq<K>, c: K, part: K -> seq<T>)
    ensures FlatMap(o + [c], part) == FlatMap(o, part) + part(c)
  {
    FlatMapPrefixAgree(o + [c], o, |o|, part);
  }

  /** The result for an order with key c between p and q. */
  lemma FlatMapAround<K, T>(p: seq<K>, c: K, q: seq<K>, part: K -> seq<T>)
    ensures FlatMap(p + [c] + q, part) == FlatMap(p, part) + part(c) + FlatMap(q, part)
  {
    FlatMapAppend(p + [c], q, part);
    FlatMapSnoc(p, c, part);
  }

  lemma MultisetOfThree<T>(p: seq<T>, q: seq<T>, r: seq<T>)
    ensures multiset(p + q + r) == multiset(p + r) + multiset(q)
  {
    calc {
      multiset(p + q + r);
      multiset(p) + multiset(q) + multiset(r);
      multiset(p + r) + multiset(q);
    }
  }

  /** Taking key c out from between p and q takes exactly its part out of the result. */
  lemma FlatMapWithoutParts<K, T>(p: seq<K>, c: K, q: seq<K>, part: K -> seq<T>)
    ensures multiset(FlatMap(p + [c] + q, part)) == multiset(FlatMap(p + q, part)) + multiset(part(c))
  {
    FlatMapAround(p, c, q, part);
    FlatMapAppend(p, q, part);
    MultisetOfThree(FlatMap(p, part), part(c), FlatMap(q, part));
  }

  /** Taking one key out of the order takes exactly its part out of the result. */
  lemma FlatMapWithout<K, T>(o: seq<K>, k: nat, part: K -> seq<T>)
    requires k < |o|
    ensures multiset(FlatMap(o, part)) == multiset(FlatMap(Without(o, k), part)) + multiset(part(o[k]))
  {
    var p, q := o[..k], o[k + 1..];
    FlatMapWithoutParts(p, o[k], q, part);
    assert o == p + [o[k]] + q;
  }

  /**
   * Visiting the same keys in another order permutes the result and
   * changes nothing else.
   */
  lemma {:induction false} FlatMapPermutation<K, T>(o1: seq<K>, o2: seq<K>, part: K -> seq<T>)
    requires Distinct(o1) && Distinct(o2) && Elements(o1) == Elements(o2)
    ensures multiset(FlatMap(o1, part)) == multiset(FlatMap(o2, part))
    decreases |o1|
  {
    if o1 == [] {
      assert forall i :: 0 <= i < |o2| ==> o2[i] in Elements(o2);
    } else {
      var last := |o1| - 1;
      var c := o1[last];
      assert c in Elements(o1);
      var k :| 0 <= k < |o2| && o2[k] == c;
      ElementsWithout(o1, last);
      ElementsWithout(o2, k);
      FlatMapPermutation(Without(o1, last), Without(o2, k), part);
      FlatMapWithout(o1, last, part);
      FlatMapWithout(o2, k, part);
    }
  }
}
