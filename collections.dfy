/**
 * Collection helpers the Rust code gets from its standard library: keeping
 * the first occurrence of each item (a `seen` set with `retain`, or
 * `contains` before `push`), summing over the keys of a `HashMap` in whatever
 * order it yields them, and walking the keys of a `BTreeMap`/`BTreeSet` in
 * ascending order.
 */
module Collections {
  import opened Text
  import opened Sorting

  predicate Distinct<T(==)>(s: seq<T>) {
    forall i, j :: 0 <= i < j < |s| ==> s[i] != s[j]
  }

  /** The items of s with every repeat after the first occurrence dropped. */
  function Dedup<T(==)>(s: seq<T>): (r: seq<T>)
    ensures |r| <= |s|
  {
    if |s| == 0 then []
    else
      var n := |s| - 1;
      if s[n] in s[..n] then Dedup(s[..n]) else Dedup(s[..n]) + [s[n]]
  }

  /** Dedup keeps every item once and nothing else. */
  lemma {:induction false} DedupCorrect<T>(s: seq<T>)
    ensures Distinct(Dedup(s))
    ensures forall x :: x in Dedup(s) ==> x in s
    ensures forall x :: x in s ==> x in Dedup(s)
  {
    if |s| > 0 {
      var n := |s| - 1;
      DedupCorrect(s[..n]);
      assert s == s[..n] + [s[n]];
    }
  }

  /** Of a sequence without repeats, Dedup changes nothing. */
  lemma {:induction false} DedupOfDistinct<T>(s: seq<T>)
    requires Distinct(s)
    ensures Dedup(s) == s
  {
    if |s| > 0 {
      var n := |s| - 1;
      assert Distinct(s[..n]);
      DedupOfDistinct(s[..n]);
      assert s == s[..n] + [s[n]];
    }
  }

  /** The position of the first occurrence of x. */
  function FirstIndex<T(==)>(s: seq<T>, x: T): (i: nat)
    requires x in s
    ensures i < |s| && s[i] == x
    ensures forall m :: 0 <= m < i ==> s[m] != x
  {
    if s[0] == x then 0 else 1 + FirstIndex(s[1..], x)
  }

  lemma FirstIndexOfPrefix<T>(s: seq<T>, n: nat, x: T)
    requires n <= |s| && x in s[..n]
    ensures x in s && FirstIndex(s[..n], x) == FirstIndex(s, x)
  {
    var i := FirstIndex(s[..n], x);
    assert s[i] == x;
    assert forall m :: 0 <= m < i ==> s[..n][m] == s[m];
  }

  /** Dedup lists items in the order of their first occurrences. */
  lemma {:induction false} DedupOrder<T>(s: seq<T>, i: nat, j: nat)
    requires i < j < |Dedup(s)|
    ensures Dedup(s)[i] in s && Dedup(s)[j] in s
    ensures FirstIndex(s, Dedup(s)[i]) < FirstIndex(s, Dedup(s)[j])
  {
    var n := |s| - 1;
    var p := Dedup(s[..n]);
    DedupCorrect(s[..n]);
    DedupCorrect(s);
    assert s == s[..n] + [s[n]];
    if s[n] in s[..n] || j < |p| {
      assert Dedup(s)[i] == p[i] && Dedup(s)[j] == p[j];
      DedupOrder(s[..n], i, j);
      FirstIndexOfPrefix(s, n, p[i]);
      FirstIndexOfPrefix(s, n, p[j]);
    } else {
      // the last item is new: its first occurrence is n, after that of p[i]
      assert Dedup(s) == p + [s[n]] && Dedup(s)[j] == s[n];
      var x := p[i];
      DedupCorrect(s[..n]);
      assert x in p;
      assert x in s[..n];
      FirstIndexOfPrefix(s, n, x);
      assert forall m :: 0 <= m < n ==> s[..n][m] == s[m];
    }
  }

  /** An item occurs at most once in a sequence without repeats. */
  lemma {:induction false} DistinctCounts<T>(s: seq<T>, x: T)
    requires Distinct(s)
    ensures multiset(s)[x] <= 1
  {
    if |s| > 0 {
      var n := |s| - 1;
      assert Distinct(s[..n]);
      DistinctCounts(s[..n], x);
      assert s == s[..n] + [s[n]];
      if x == s[n] {
        assert x !in s[..n];
      }
    }
  }

  /** A reordering of a sequence without repeats has no repeats. */
  lemma PermutationKeepsDistinct<T>(a: seq<T>, b: seq<T>)
    requires multiset(a) == multiset(b) && Distinct(a)
    ensures Distinct(b)
  {
    forall i, j | 0 <= i < j < |b| ensures b[i] != b[j] {
      DistinctCounts(a, b[j]);
      assert b == b[..j] + [b[j]] + b[j + 1..];
      assert b[i] in multiset(b[..j]);
      assert multiset(b)[b[j]] >= multiset(b[..j])[b[j]] + 1;
    }
  }

  /** Two sequences without repeats and without common items concatenate to one without repeats. */
  lemma DistinctConcat<T>(a: seq<T>, b: seq<T>)
    requires Distinct(a) && Distinct(b)
    requires forall x :: x in a ==> x !in b
    ensures Distinct(a + b)
  {
    forall i, j | 0 <= i < j < |a + b| ensures (a + b)[i] != (a + b)[j] {
      if i < |a| && j >= |a| {
        assert (a + b)[i] in a && (a + b)[j] in b;
      }
    }
  }

  // ----- sums over an unordered key set -----

  /** The sum of f over a finite set of keys. */
  ghost function SumOver<K(!new)>(keys: set<K>, f: K -> int): int
    decreases keys
  {
    if keys == {} then 0
    else
      var k :| k in keys;
      f(k) + SumOver(keys - {k}, f)
  }

  /** The sum does not depend on which key is taken out first. */
  lemma {:induction false} SumOverRemove<K(!new)>(keys: set<K>, f: K -> int, x: K)
    requires x in keys
    ensures SumOver(keys, f) == f(x) + SumOver(keys - {x}, f)
    decreases keys
  {
    var k :| k in keys && SumOver(keys, f) == f(k) + SumOver(keys - {k}, f);
    if k != x {
      SumOverRemove(keys - {k}, f, x);
      SumOverRemove(keys - {x}, f, k);
      assert keys - {k} - {x} == keys - {x} - {k};
    }
  }

  /** Keys where f is zero add nothing. */
  lemma {:induction false} SumOverZeros<K(!new)>(keys: set<K>, f: K -> int)
    requires forall k :: k in keys ==> f(k) == 0
    ensures SumOver(keys, f) == 0
    decreases keys
  {
    if keys != {} {
      var k :| k in keys;
      SumOverRemove(keys, f, k);
      SumOverZeros(keys - {k}, f);
    }
  }

  /** Functions that agree on the keys have the same sum. */
  lemma {:induction false} SumOverCongruent<K(!new)>(keys: set<K>, f: K -> int, h: K -> int)
    requires forall k :: k in keys ==> f(k) == h(k)
    ensures SumOver(keys, f) == SumOver(keys, h)
    decreases keys
  {
    if keys != {} {
      var k :| k in keys;
      SumOverRemove(keys, f, k);
      SumOverRemove(keys, h, k);
      SumOverCongruent(keys - {k}, f, h);
    }
  }

  // ----- ascending key order of a BTreeMap / BTreeSet -----

  /** `leq` is a total order: a total preorder that ties only equal items. */
  ghost predicate TotalOrder<T(!new)>(leq: (T, T) -> bool) {
    TotalPreorder(leq) && forall x, y :: leq(x, y) && leq(y, x) ==> x == y
  }

  /** Strictly ascending under leq. */
  predicate Ascending<T(==)>(s: seq<T>, leq: (T, T) -> bool) {
    forall i, j :: 0 <= i < j < |s| ==> leq(s[i], s[j]) && s[i] != s[j]
  }

  /** The ascending keys of a set, in the order a B-tree yields them. */
  method SortedKeys<T(==,!new)>(keys: set<T>, leq: (T, T) -> bool) returns (r: seq<T>)
    requires TotalOrder(leq)
    ensures Ascending(r, leq)
    ensures forall x :: x in r <==> x in keys
    ensures |r| == |keys|
  {
    r := [];
    var rest := keys;
    while rest != {}
      invariant rest <= keys
      invariant Distinct(r) && SortedBy(r, leq)
      invariant forall x :: x in r <==> x in keys && x !in rest
      invariant |r| + |rest| == |keys|
      decreases rest
    {
      var x :| x in rest;
      InsertPermutes(x, r, leq);
      InsertSorted(x, r, leq);
      assert multiset(r + [x]) == multiset(r) + multiset{x};
      assert Distinct(r + [x]);
      PermutationKeepsDistinct(r + [x], Insert(x, r, leq));
      forall y ensures y in Insert(x, r, leq) <==> y in r || y == x {
        assert y in Insert(x, r, leq) <==> y in multiset(Insert(x, r, leq));
      }
      r := Insert(x, r, leq);
      rest := rest - {x};
    }
  }

  /** Two strictly ascending sequences with the same items are the same sequence. */
  lemma {:induction false} AscendingUnique<T(!new)>(a: seq<T>, b: seq<T>, leq: (T, T) -> bool)
    requires TotalOrder(leq) && Ascending(a, leq) && Ascending(b, leq)
    requires forall x :: x in a <==> x in b
    ensures a == b
    decreases |a|
  {
    assert |b| > 0 ==> b[0] in a;
    if |a| > 0 {
      assert a[0] in b;
      var j :| 0 <= j < |b| && b[j] == a[0];
      var i :| 0 <= i < |a| && a[i] == b[0];
      // b[0] below a[0] and a[0] below b[0] unless one of them comes first
      assert a[0] == b[0];
      forall x ensures x in a[1..] <==> x in b[1..] {
        if x in a[1..] {
          var k :| 1 <= k < |a| && a[k] == x;
          assert x != a[0];
          assert x in b;
          var l :| 0 <= l < |b| && b[l] == x;
          assert l != 0;
          assert b[1..][l - 1] == x;
        }
        if x in b[1..] {
          var k :| 1 <= k < |b| && b[k] == x;
          assert x != b[0];
          assert x in a;
          var l :| 0 <= l < |a| && a[l] == x;
          assert l != 0;
          assert a[1..][l - 1] == x;
        }
      }
      AscendingUnique(a[1..], b[1..], leq);
      assert a == [a[0]] + a[1..] && b == [b[0]] + b[1..];
    }
  }

  predicate IntLeq(a: int, b: int) { a <= b }

  lemma IntLeqIsTotalOrder()
    ensures TotalOrder(IntLeq)
  {
  }

  /** Rust's `String` order is a total order. */
  lemma LessEqIsTotalOrder()
    ensures TotalOrder(LessEq)
  {
    forall x, y ensures LessEq(x, y) || LessEq(y, x) {
      LessTotal(x, y);
    }
    forall x, y, z | LessEq(x, y) && LessEq(y, z) ensures LessEq(x, z) {
      if x != y && y != z { LessTransitive(x, y, z); }
    }
    forall x, y | LessEq(x, y) && LessEq(y, x) ensures x == y {
      if x != y { LessAsymmetric(x, y); }
    }
  }
}
