/**
 * The restart-after-swap bubble sort of static/tablesort.js, over any
 * "out of order" test `out` on adjacent items: find the first adjacent pair
 * with out(upper, lower), swap it, rescan from the top, stop when a scan finds
 * nothing.  The test only has to be asymmetric for the sort to terminate:
 * every swap then removes exactly one out-of-order pair.
 */
module Bubble {

  ghost predicate Asymmetric<T(!new)>(out: (T, T) -> bool) {
    forall x, y :: out(x, y) ==> !out(y, x)
  }

  /** The first k >= from with s[k], s[k+1] out of order, or |s| when there is none. */
  function FirstInversionFrom<T>(s: seq<T>, out: (T, T) -> bool, from: nat): (i: nat)
    requires from <= |s|
    ensures from <= i <= |s|
    ensures i + 1 < |s| ==> out(s[i], s[i + 1])
    ensures i + 1 >= |s| ==> i == |s|
    ensures forall k :: from <= k < i && k + 1 < |s| ==> !out(s[k], s[k + 1])
    decreases |s| - from
  {
    if from + 1 >= |s| then |s|
    else if out(s[from], s[from + 1]) then from
    else FirstInversionFrom(s, out, from + 1)
  }

  function FirstInversion<T>(s: seq<T>, out: (T, T) -> bool): (i: nat)
    ensures i <= |s|
  {
    FirstInversionFrom(s, out, 0)
  }

  /** No adjacent pair is out of order. */
  predicate Settled<T>(s: seq<T>, out: (T, T) -> bool) {
    forall k :: 0 <= k < |s| - 1 ==> !out(s[k], s[k + 1])
  }

  /** A scan finds nothing exactly when the sequence is settled. */
  lemma FirstInversionSettled<T>(s: seq<T>, out: (T, T) -> bool)
    ensures FirstInversion(s, out) == |s| <==> Settled(s, out)
  {
  }

  function SwapAt<T>(s: seq<T>, i: nat): (r: seq<T>)
    requires i + 1 < |s|
    ensures |r| == |s| && r[i] == s[i + 1] && r[i + 1] == s[i]
    ensures forall k :: 0 <= k < |s| && k != i && k != i + 1 ==> r[k] == s[k]
  {
    s[i := s[i + 1]][i + 1 := s[i]]
  }

  lemma SwapAtPermutes<T>(s: seq<T>, i: nat)
    requires i + 1 < |s|
    ensures multiset(SwapAt(s, i)) == multiset(s)
  {
    assert SwapAt(s, i) == s[..i] + [s[i + 1], s[i]] + s[i + 2..];
    assert s == s[..i] + [s[i], s[i + 1]] + s[i + 2..];
  }

  /** How many items of t are out of order with x placed above them. */
  function CountOut<T>(x: T, t: seq<T>, out: (T, T) -> bool): nat {
    if |t| == 0 then 0
    else (if out(x, t[0]) then 1 else 0) + CountOut(x, t[1..], out)
  }

  /** The number of out-of-order pairs, adjacent or not. */
  function Inversions<T>(s: seq<T>, out: (T, T) -> bool): nat {
    if |s| == 0 then 0 else CountOut(s[0], s[1..], out) + Inversions(s[1..], out)
  }

  lemma {:induction false} CountOutSwap<T>(x: T, t: seq<T>, i: nat, out: (T, T) -> bool)
    requires i + 1 < |t|
    ensures CountOut(x, SwapAt(t, i), out) == CountOut(x, t, out)
  {
    var u := SwapAt(t, i);
    if i == 0 {
      assert u[1..][1..] == t[1..][1..];
    } else {
      assert u[1..] == SwapAt(t[1..], i - 1);
      CountOutSwap(x, t[1..], i - 1, out);
    }
  }

  /** Swapping an out-of-order adjacent pair removes exactly one inversion. */
  lemma {:induction false} SwapRemovesInversion<T(!new)>(s: seq<T>, i: nat, out: (T, T) -> bool)
    requires Asymmetric(out)
    requires i + 1 < |s| && out(s[i], s[i + 1])
    ensures Inversions(SwapAt(s, i), out) == Inversions(s, out) - 1
  {
    var u := SwapAt(s, i);
    if i == 0 {
      var x, y, t := s[0], s[1], s[2..];
      assert s[1..] == [y] + t && u[1..] == [x] + t;
      assert ([y] + t)[1..] == t && ([x] + t)[1..] == t;
      assert !out(y, x);
    } else {
      assert u[1..] == SwapAt(s[1..], i - 1);
      SwapRemovesInversion(s[1..], i - 1, out);
      CountOutSwap(s[0], s[1..], i - 1, out);
    }
  }

  /** The scan-and-swap step repeated until a scan finds nothing. */
  function Settle<T(!new)>(s: seq<T>, out: (T, T) -> bool): seq<T>
    requires Asymmetric(out)
    decreases Inversions(s, out)
  {
    var i := FirstInversion(s, out);
    if i + 1 < |s| then
      SwapRemovesInversion(s, i, out);
      Settle(SwapAt(s, i), out)
    else s
  }

  /** The sort only reorders: the result is a permutation of the input. */
  lemma {:induction false} SettlePermutes<T(!new)>(s: seq<T>, out: (T, T) -> bool)
    requires Asymmetric(out)
    ensures multiset(Settle(s, out)) == multiset(s)
    decreases Inversions(s, out)
  {
    var i := FirstInversion(s, out);
    if i + 1 < |s| {
      SwapRemovesInversion(s, i, out);
      SettlePermutes(SwapAt(s, i), out);
      SwapAtPermutes(s, i);
    }
  }

  /** When the sort stops, no adjacent pair is out of order. */
  lemma {:induction false} SettleIsSettled<T(!new)>(s: seq<T>, out: (T, T) -> bool)
    requires Asymmetric(out)
    ensures |Settle(s, out)| == |s|
    ensures Settled(Settle(s, out), out)
    decreases Inversions(s, out)
  {
    var i := FirstInversion(s, out);
    if i + 1 < |s| {
      SwapRemovesInversion(s, i, out);
      SettleIsSettled(SwapAt(s, i), out);
    } else {
      FirstInversionSettled(s, out);
    }
  }

  /** A settled sequence is a fixpoint of the sort. */
  lemma SettleOfSettled<T(!new)>(s: seq<T>, out: (T, T) -> bool)
    requires Asymmetric(out) && Settled(s, out)
    ensures Settle(s, out) == s
  {
    FirstInversionSettled(s, out);
  }

  /** Every pair, adjacent or not, is in order. */
  predicate Sorted<T>(s: seq<T>, out: (T, T) -> bool) {
    forall i, j :: 0 <= i < j < |s| ==> !out(s[i], s[j])
  }

  /** "Not out of order" is transitive on the items of s. */
  predicate InOrderTransitive<T>(s: seq<T>, out: (T, T) -> bool) {
    forall i, j, k :: 0 <= i < |s| && 0 <= j < |s| && 0 <= k < |s| ==>
      (!out(s[i], s[j]) && !out(s[j], s[k])) ==> !out(s[i], s[k])
  }

  /**
   * When "not out of order" is transitive on the items of s, a settled s is
   * sorted.
   */
  lemma {:induction false} SettledSorted<T>(s: seq<T>, out: (T, T) -> bool)
    requires Settled(s, out)
    requires InOrderTransitive(s, out)
    ensures Sorted(s, out)
  {
    forall i, j | 0 <= i < j < |s| ensures !out(s[i], s[j]) {
      SettledSpan(s, out, i, j);
    }
  }

  lemma {:induction false} SettledSpan<T>(s: seq<T>, out: (T, T) -> bool, i: nat, j: nat)
    requires Settled(s, out)
    requires InOrderTransitive(s, out)
    requires i < j < |s|
    ensures !out(s[i], s[j])
    decreases j - i
  {
    if j > i + 1 {
      SettledSpan(s, out, i, j - 1);
      assert !out(s[j - 1], s[j]);
    }
  }
}
