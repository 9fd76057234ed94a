/** Strict orders, Rust-style lexicographic comparison of sequences, and the
    two sortedness notions the status tool relies on: the non-decreasing order
    produced by `sort_by` on dirty items, and the strictly increasing order in
    which a `BTreeSet`/`BTreeMap` yields its keys. */
module Orders {

  ghost predicate Irreflexive<T(!new)>(lt: (T, T) -> bool) {
    forall x :: !lt(x, x)
  }

  ghost predicate Transitive<T(!new)>(lt: (T, T) -> bool) {
    forall x, y, z :: lt(x, y) && lt(y, z) ==> lt(x, z)
  }

  ghost predicate Connected<T(!new)>(lt: (T, T) -> bool) {
    forall x, y :: x != y ==> lt(x, y) || lt(y, x)
  }

  ghost predicate StrictPartialOrder<T(!new)>(lt: (T, T) -> bool) {
    Irreflexive(lt) && Transitive(lt)
  }

  ghost predicate StrictTotalOrder<T(!new)>(lt: (T, T) -> bool) {
    StrictPartialOrder(lt) && Connected(lt)
  }

  /** Lexicographic "less than" of two sequences, as Rust's `Ord` for slices:
      the first differing element decides, and a proper prefix is smaller. */
  predicate LexLess<T(==)>(a: seq<T>, b: seq<T>, lt: (T, T) -> bool)
    decreases |a|
  {
    |b| > 0 && (|a| == 0 || lt(a[0], b[0]) || (a[0] == b[0] && LexLess(a[1..], b[1..], lt)))
  }

  lemma {:induction false} LexIrreflexive<T(!new)>(a: seq<T>, lt: (T, T) -> bool)
    requires Irreflexive(lt)
    ensures !LexLess(a, a, lt)
    decreases |a|
  {
    if |a| > 0 {
      LexIrreflexive(a[1..], lt);
    }
  }

  lemma {:induction false} LexTransitive<T(!new)>(a: seq<T>, b: seq<T>, c: seq<T>, lt: (T, T) -> bool)
    requires Transitive(lt)
    requires LexLess(a, b, lt) && LexLess(b, c, lt)
    ensures LexLess(a, c, lt)
    decreases |a|
  {
    if |a| > 0 && a[0] == b[0] && b[0] == c[0] && LexLess(a[1..], b[1..], lt) && LexLess(b[1..], c[1..], lt) {
      LexTransitive(a[1..], b[1..], c[1..], lt);
    }
  }

  lemma {:induction false} LexConnected<T(!new)>(a: seq<T>, b: seq<T>, lt: (T, T) -> bool)
    requires Connected(lt)
    ensures a != b ==> LexLess(a, b, lt) || LexLess(b, a, lt)
    decreases |a|
  {
    if |a| > 0 && |b| > 0 && a[0] == b[0] {
      LexConnected(a[1..], b[1..], lt);
      assert a == [a[0]] + a[1..] && b == [b[0]] + b[1..];
    }
  }

  /** Lexicographic comparison over a strict total order is a strict total order. */
  lemma LexStrictTotal<T(!new)>(lt: (T, T) -> bool)
    requires StrictTotalOrder(lt)
    ensures forall a: seq<T> :: !LexLess(a, a, lt)
    ensures forall a: seq<T>, b: seq<T>, c: seq<T> :: LexLess(a, b, lt) && LexLess(b, c, lt) ==> LexLess(a, c, lt)
    ensures forall a: seq<T>, b: seq<T> :: a != b ==> LexLess(a, b, lt) || LexLess(b, a, lt)
  {
    forall a: seq<T> ensures !LexLess(a, a, lt) {
      LexIrreflexive(a, lt);
    }
    forall a: seq<T>, b: seq<T>, c: seq<T> | LexLess(a, b, lt) && LexLess(b, c, lt)
      ensures LexLess(a, c, lt)
    {
      LexTransitive(a, b, c, lt);
    }
    forall a: seq<T>, b: seq<T> ensures a != b ==> LexLess(a, b, lt) || LexLess(b, a, lt) {
      LexConnected(a, b, lt);
    }
  }

  /** Non-decreasing: no later element is strictly smaller than an earlier one. */
  predicate Sorted<T>(s: seq<T>, lt: (T, T) -> bool) {
    forall i, j :: 0 <= i < j < |s| ==> !lt(s[j], s[i])
  }

  /** Strictly increasing keys, hence no key occurs twice: the order in
      which an ordered set or map yields its contents. */
  predicate StrictlySortedBy<T, K>(s: seq<T>, key: T -> K, lt: (K, K) -> bool) {
    forall i, j :: 0 <= i < j < |s| ==> lt(key(s[i]), key(s[j]))
  }

  lemma SortedTail<T>(s: seq<T>, lt: (T, T) -> bool)
    requires |s| > 0 && Sorted(s, lt)
    ensures Sorted(s[1..], lt)
  {
  }

  lemma SortedCons<T>(x: T, s: seq<T>, lt: (T, T) -> bool)
    requires Sorted(s, lt)
    requires forall y :: y in s ==> !lt(y, x)
    ensures Sorted([x] + s, lt)
  {
  }

  /** An element not above the head of a sorted sequence is not above any of it. */
  lemma BelowSortedHead<T(!new)>(x: T, s: seq<T>, lt: (T, T) -> bool)
    requires StrictTotalOrder(lt)
    requires Sorted(s, lt) && (|s| == 0 || !lt(s[0], x))
    ensures forall y :: y in s ==> !lt(y, x)
  {
  }

  /** Inserts `x` into a sorted sequence, before the first element not below it. */
  function Insert<T(!new)>(x: T, s: seq<T>, lt: (T, T) -> bool): (r: seq<T>)
    requires StrictTotalOrder(lt)
    requires Sorted(s, lt)
    ensures Sorted(r, lt)
    ensures multiset(r) == multiset(s) + multiset{x}
    decreases |s|
  {
    if |s| == 0 || !lt(s[0], x) then
      BelowSortedHead(x, s, lt);
      SortedCons(x, s, lt);
      [x] + s
    else
      SortedTail(s, lt);
      var rest := Insert(x, s[1..], lt);
      KeepHead(x, s, rest, lt);
      [s[0]] + rest
  }

  /** The step of `Insert` past a head below `x`: the head stays in front. */
  lemma KeepHead<T(!new)>(x: T, s: seq<T>, rest: seq<T>, lt: (T, T) -> bool)
    requires StrictTotalOrder(lt)
    requires |s| > 0 && Sorted(s, lt) && lt(s[0], x)
    requires Sorted(rest, lt) && multiset(rest) == multiset(s[1..]) + multiset{x}
    ensures Sorted([s[0]] + rest, lt)
    ensures multiset([s[0]] + rest) == multiset(s) + multiset{x}
  {
    assert s == [s[0]] + s[1..];
    forall y | y in rest ensures !lt(y, s[0]) {
      assert y in multiset(rest);
      if y != x {
        var j :| 0 <= j < |s| - 1 && s[1..][j] == y;
        assert s[j + 1] == y;
      }
    }
    SortedCons(s[0], rest, lt);
  }

  /** Under a strict total order there is exactly one sorted arrangement of a
      multiset: any two sorted permutations of each other are equal. */
  lemma {:induction false} SortedPermutationUnique<T(!new)>(a: seq<T>, b: seq<T>, lt: (T, T) -> bool)
    requires StrictTotalOrder(lt)
    requires Sorted(a, lt) && Sorted(b, lt)
    requires multiset(a) == multiset(b)
    ensures a == b
    decreases |a|
  {
    assert |a| == |multiset(a)| == |multiset(b)| == |b|;
    if |a| > 0 {
      assert a[0] == b[0] by {
        assert a[0] in multiset(b) && b[0] in multiset(a);
        var k :| 0 <= k < |b| && b[k] == a[0];
        var m :| 0 <= m < |a| && a[m] == b[0];
        assert !lt(a[0], b[0]) by { assert k == 0 || !lt(b[k], b[0]); }
        assert !lt(b[0], a[0]) by { assert m == 0 || !lt(a[m], a[0]); }
      }
      assert a == [a[0]] + a[1..] && b == [b[0]] + b[1..];
      assert multiset(a) == multiset{a[0]} + multiset(a[1..]);
      assert multiset(b) == multiset{b[0]} + multiset(b[1..]);
      assert multiset(a[1..]) == multiset(a) - multiset{a[0]};
      assert multiset(b[1..]) == multiset(b) - multiset{b[0]};
      SortedTail(a, lt);
      SortedTail(b, lt);
      SortedPermutationUnique(a[1..], b[1..], lt);
    }
  }

  /** Under a strict partial order on keys, a sequence with strictly
      increasing keys is determined by the set of its elements. */
  lemma {:induction false} StrictlySortedUnique<T, K(!new)>(a: seq<T>, b: seq<T>, key: T -> K, lt: (K, K) -> bool)
    requires StrictPartialOrder(lt)
    requires StrictlySortedBy(a, key, lt) && StrictlySortedBy(b, key, lt)
    requires forall x :: x in a <==> x in b
    ensures a == b
    decreases |a|
  {
    assert |a| > 0 ==> a[0] in b;
    assert |b| > 0 ==> b[0] in a;
    if |a| > 0 && |b| > 0 {
      assert a[0] == b[0];
      forall x ensures x in a[1..] <==> x in b[1..] {
        if x in a[1..] {
          var i :| 1 <= i < |a| && a[i] == x;
          assert lt(key(a[0]), key(a[i])) && x in a;
          var k :| 0 <= k < |b| && b[k] == x;
          assert k != 0;
          assert b[1..][k - 1] == x;
        }
        if x in b[1..] {
          var i :| 1 <= i < |b| && b[i] == x;
          assert lt(key(b[0]), key(b[i])) && x in b;
          var k :| 0 <= k < |a| && a[k] == x;
          assert k != 0;
          assert a[1..][k - 1] == x;
        }
      }
      StrictlySortedUnique(a[1..], b[1..], key, lt);
      assert a == [a[0]] + a[1..] && b == [b[0]] + b[1..];
    }
  }

  /** Inserts `x` into a sequence with strictly increasing keys, replacing the
      element with the same key if there is one, as `BTreeMap::insert` does. */
  function Upsert<T(!new), K(==, !new)>(s: seq<T>, x: T, key: T -> K, lt: (K, K) -> bool): (r: seq<T>)
    requires StrictTotalOrder(lt)
    requires StrictlySortedBy(s, key, lt)
    ensures StrictlySortedBy(r, key, lt)
    ensures forall y :: y in r <==> y == x || (y in s && key(y) != key(x))
    decreases |s|
  {
    if |s| == 0 || lt(key(x), key(s[0])) then
      [x] + s
    else if !lt(key(s[0]), key(x)) then
      [x] + s[1..]
    else
      var rest := Upsert(s[1..], x, key, lt);
      assert forall y :: y in s[1..] ==> y in s && lt(key(s[0]), key(y)) by {
        forall y | y in s[1..] ensures y in s && lt(key(s[0]), key(y)) {
          var j :| 0 <= j < |s| - 1 && s[1..][j] == y;
          assert s[j + 1] == y;
        }
      }
      assert forall y :: y in s ==> y == s[0] || y in s[1..] by {
        assert s == [s[0]] + s[1..];
      }
      [s[0]] + rest
  }
}
