/**
 * The stable sort behind Rust's `sort_by` / `sort_by_key`, over any total
 * preorder `leq`: the result is ordered by `leq`, is a permutation of the
 * input, and keeps the input order among items `leq` ties.  Written as an
 * insertion sort that places each item after every item not above it.
 */
module Sorting {

  /** `leq` is total and transitive, like a comparator's "not greater". */
  ghost predicate TotalPreorder<T(!new)>(leq: (T, T) -> bool) {
    (forall x, y :: leq(x, y) || leq(y, x)) &&
    (forall x, y, z :: leq(x, y) && leq(y, z) ==> leq(x, z))
  }

  predicate SortedBy<T>(s: seq<T>, leq: (T, T) -> bool) {
    forall i, j :: 0 <= i < j < |s| ==> leq(s[i], s[j])
  }

  /** x is placed after every item of s that is not strictly above it. */
  function Insert<T>(x: T, s: seq<T>, leq: (T, T) -> bool): (r: seq<T>)
    ensures |r| == |s| + 1
  {
    if |s| == 0 then [x]
    else if leq(s[|s| - 1], x) then s + [x]
    else Insert(x, s[..|s| - 1], leq) + [s[|s| - 1]]
  }

  function SortBy<T>(s: seq<T>, leq: (T, T) -> bool): (r: seq<T>)
    ensures |r| == |s|
  {
    if |s| == 0 then [] else Insert(s[|s| - 1], SortBy(s[..|s| - 1], leq), leq)
  }

  /** The items of s that `leq` ties with x, in the order of s. */
  function Tied<T>(s: seq<T>, x: T, leq: (T, T) -> bool): seq<T> {
    if |s| == 0 then []
    else
      var y := s[|s| - 1];
      Tied(s[..|s| - 1], x, leq) + (if leq(y, x) && leq(x, y) then [y] else [])
  }

  lemma {:induction false} InsertPermutes<T>(x: T, s: seq<T>, leq: (T, T) -> bool)
    ensures multiset(Insert(x, s, leq)) == multiset(s) + multiset{x}
  {
    if |s| > 0 && !leq(s[|s| - 1], x) {
      InsertPermutes(x, s[..|s| - 1], leq);
      assert s == s[..|s| - 1] + [s[|s| - 1]];
    }
  }

  lemma {:induction false} InsertSorted<T(!new)>(x: T, s: seq<T>, leq: (T, T) -> bool)
    requires TotalPreorder(leq) && SortedBy(s, leq)
    ensures SortedBy(Insert(x, s, leq), leq)
  {
    if |s| > 0 {
      var n := |s| - 1;
      var last := s[n];
      if leq(last, x) {
        assert forall i :: 0 <= i < n ==> leq(s[i], last);
      } else {
        var init := s[..n];
        assert SortedBy(init, leq);
        InsertSorted(x, init, leq);
        var u := Insert(x, init, leq);
        InsertPermutes(x, init, leq);
        forall i | 0 <= i < |u| ensures leq(u[i], last) {
          assert u[i] in multiset(u);
          if u[i] != x {
            assert u[i] in multiset(init);
            var k :| 0 <= k < n && init[k] == u[i];
          }
        }
      }
    }
  }

  /** Inserting y adds y to the items tied with x when y ties with x, and nothing otherwise. */
  lemma {:induction false} InsertTied<T(!new)>(y: T, s: seq<T>, x: T, leq: (T, T) -> bool)
    requires TotalPreorder(leq) && SortedBy(s, leq)
    ensures Tied(Insert(y, s, leq), x, leq) ==
      Tied(s, x, leq) + (if leq(y, x) && leq(x, y) then [y] else [])
  {
    if |s| > 0 {
      var n := |s| - 1;
      var last := s[n];
      if leq(last, y) {
        assert (s + [y])[..n + 1] == s;
      } else {
        var init := s[..n];
        assert SortedBy(init, leq);
        InsertTied(y, init, x, leq);
        var u := Insert(y, init, leq);
        assert (u + [last])[..|u|] == u;
        // y and last cannot both tie with x: that would put last below y
        assert !(leq(y, x) && leq(x, y) && leq(last, x) && leq(x, last));
      }
    }
  }

  /** The sort ends up ordered by leq. */
  lemma {:induction false} SortBySorted<T(!new)>(s: seq<T>, leq: (T, T) -> bool)
    requires TotalPreorder(leq)
    ensures SortedBy(SortBy(s, leq), leq)
  {
    if |s| > 0 {
      SortBySorted(s[..|s| - 1], leq);
      InsertSorted(s[|s| - 1], SortBy(s[..|s| - 1], leq), leq);
    }
  }

  /** The sort only reorders. */
  lemma {:induction false} SortByPermutes<T>(s: seq<T>, leq: (T, T) -> bool)
    ensures multiset(SortBy(s, leq)) == multiset(s)
  {
    if |s| > 0 {
      var init, last := s[..|s| - 1], s[|s| - 1];
      SortByPermutes(init, leq);
      InsertPermutes(last, SortBy(init, leq), leq);
      assert SortBy(s, leq) == Insert(last, SortBy(init, leq), leq);
      assert s == init + [last];
      assert multiset(s) == multiset(init) + multiset{last};
    }
  }

  /** The sort is stable: items that tie keep their input order. */
  lemma {:induction false} SortByStable<T(!new)>(s: seq<T>, x: T, leq: (T, T) -> bool)
    requires TotalPreorder(leq)
    ensures Tied(SortBy(s, leq), x, leq) == Tied(s, x, leq)
  {
    if |s| > 0 {
      var init := s[..|s| - 1];
      SortByStable(init, x, leq);
      SortBySorted(init, leq);
      InsertTied(s[|s| - 1], SortBy(init, leq), x, leq);
    }
  }
}
