/**
  Boolean masks over sequences: the order-keeping selection that every
  `DataFrame.drop` of the cleaning pipeline performs, whether on columns or
  on rows.
 */
module Masks {

  /** The number of set flags. */
  function Count(mask: seq<bool>): nat
    decreases |mask|
  {
    if |mask| == 0 then 0 else Count(mask[..|mask| - 1]) + (if mask[|mask| - 1] then 1 else 0)
  }

  /** The items of `xs` whose flag is set, in their original order. */
  function Pick<T>(mask: seq<bool>, xs: seq<T>): (r: seq<T>)
    requires |mask| == |xs|
    ensures |r| == Count(mask)
    ensures forall y :: y in r ==> y in xs
    decreases |xs|
  {
    if |xs| == 0 then []
    else Pick(mask[..|xs| - 1], xs[..|xs| - 1]) + (if mask[|xs| - 1] then [xs[|xs| - 1]] else [])
  }

  /** 0, 1, ..., n - 1. */
  function Range(n: nat): seq<nat>
  {
    seq(n, i requires 0 <= i < n => i)
  }

  /** The indices whose flag is set, in increasing order. */
  function Positions(mask: seq<bool>): seq<nat> {
    Pick(mask, Range(|mask|))
  }

  /** The flags of two masks of one length, and-ed position by position. */
  function And(m1: seq<bool>, m2: seq<bool>): seq<bool>
    requires |m1| == |m2|
  {
    seq(|m1|, i requires 0 <= i < |m1| => m1[i] && m2[i])
  }

  predicate AllSet(mask: seq<bool>) {
    forall i :: 0 <= i < |mask| ==> mask[i]
  }

  /** Selection distributes over concatenation. */
  lemma {:induction false} PickAppend<T>(m1: seq<bool>, x1: seq<T>, m2: seq<bool>, x2: seq<T>)
    requires |m1| == |x1| && |m2| == |x2|
    ensures Pick(m1 + m2, x1 + x2) == Pick(m1, x1) + Pick(m2, x2)
    decreases |x2|
  {
    if |x2| == 0 {
      assert m1 + m2 == m1 && x1 + x2 == x1;
    } else {
      var n := |x2| - 1;
      var tail := if m2[n] then [x2[n]] else [];
      DropLastOfConcat(m1, m2);
      DropLastOfConcat(x1, x2);
      PickAppend(m1, x1, m2[..n], x2[..n]);
      var a, b := Pick(m1, x1), Pick(m2[..n], x2[..n]);
      assert Pick(m1 + m2, x1 + x2) == (a + b) + tail;
      assert Pick(m2, x2) == b + tail;
      assert (a + b) + tail == a + (b + tail);
    }
  }

  /** Dropping the last item of a concatenation drops it from the second part. */
  lemma DropLastOfConcat<T>(a: seq<T>, b: seq<T>)
    requires |b| > 0
    ensures (a + b)[..|a + b| - 1] == a + b[..|b| - 1]
    ensures (a + b)[|a + b| - 1] == b[|b| - 1]
  {
  }


  /** Selection seen from the front: the first item is kept exactly when its flag is set. */
  lemma PickCons<T>(mask: seq<bool>, xs: seq<T>)
    requires |mask| == |xs| > 0
    ensures Pick(mask, xs) == (if mask[0] then [xs[0]] else []) + Pick(mask[1..], xs[1..])
  {
    assert mask == [mask[0]] + mask[1..];
    assert xs == [xs[0]] + xs[1..];
    PickAppend([mask[0]], [xs[0]], mask[1..], xs[1..]);
    assert Pick([mask[0]], [xs[0]]) == Pick([], []) + (if mask[0] then [xs[0]] else []);
  }

  /**
    The k-th selected item is the item at the k-th set index: selection
    keeps items unchanged and in order, and selects through the same
    indices from every sequence it is applied to with the same mask.
   */
  lemma {:induction false} PickAt<T>(mask: seq<bool>, xs: seq<T>)
    requires |mask| == |xs|
    ensures |Positions(mask)| == |Pick(mask, xs)|
    ensures forall k :: 0 <= k < |Pick(mask, xs)| ==>
      Positions(mask)[k] < |xs| && Pick(mask, xs)[k] == xs[Positions(mask)[k]]
    decreases |xs|
  {
    var n := |xs|;
    if n > 0 {
      var m', x' := mask[..n - 1], xs[..n - 1];
      PickAt(m', x');
      assert Range(n)[..n - 1] == Range(n - 1);
      assert Positions(mask) == Positions(m') + (if mask[n - 1] then [n - 1] else []);
    }
  }

  /** The set indices are strictly increasing and are exactly the indices whose flag is set. */
  lemma {:induction false} PositionsSpec(mask: seq<bool>)
    ensures forall k :: 0 <= k < |Positions(mask)| ==> Positions(mask)[k] < |mask|
    ensures forall k, l :: 0 <= k < l < |Positions(mask)| ==> Positions(mask)[k] < Positions(mask)[l]
    ensures forall j :: 0 <= j < |mask| ==> (mask[j] <==> j in Positions(mask))
    decreases |mask|
  {
    var n := |mask|;
    if n > 0 {
      var m' := mask[..n - 1];
      PositionsSpec(m');
      assert Range(n)[..n - 1] == Range(n - 1);
      assert Positions(mask) == Positions(m') + (if mask[n - 1] then [n - 1] else []);
    }
  }

  /** A mask with every flag set selects everything. */
  lemma {:induction false} PickAllSet<T>(mask: seq<bool>, xs: seq<T>)
    requires |mask| == |xs| && AllSet(mask)
    ensures Pick(mask, xs) == xs
    decreases |xs|
  {
    if |xs| > 0 {
      PickAllSet(mask[..|xs| - 1], xs[..|xs| - 1]);
    }
  }

  /**
    Selecting with `m1` and then with the `m2` flags of the survivors is
    selecting once with both masks.
   */
  lemma {:induction false} PickPick<T>(m1: seq<bool>, m2: seq<bool>, xs: seq<T>)
    requires |m1| == |m2| == |xs|
    ensures Pick(Pick(m1, m2), Pick(m1, xs)) == Pick(And(m1, m2), xs)
    decreases |xs|
  {
    var n := |xs|;
    if n > 0 {
      var a, b, x := m1[..n - 1], m2[..n - 1], xs[..n - 1];
      PickPick(a, b, x);
      assert And(m1, m2)[..n - 1] == And(a, b);
      var tail := if m1[n - 1] && m2[n - 1] then [xs[n - 1]] else [];
      assert Pick(And(m1, m2), xs) == Pick(And(a, b), x) + tail;
      if m1[n - 1] {
        assert Pick(m1, m2) == Pick(a, b) + [m2[n - 1]];
        assert Pick(m1, xs) == Pick(a, x) + [xs[n - 1]];
        PickAppend(Pick(a, b), Pick(a, x), [m2[n - 1]], [xs[n - 1]]);
        assert Pick([m2[n - 1]], [xs[n - 1]]) == Pick([], []) + tail;
        assert Pick(Pick(m1, m2), Pick(m1, xs)) == Pick(Pick(a, b), Pick(a, x)) + tail;
      } else {
        assert Pick(m1, m2) == Pick(a, b);
        assert Pick(m1, xs) == Pick(a, x);
      }
    }
  }

  /**
    The first selected item is the item at the first set index, and no
    flag before that index is set; something is selected exactly when
    some flag is set.
   */
  lemma FirstPicked<T>(mask: seq<bool>, xs: seq<T>)
    requires |mask| == |xs|
    ensures |Pick(mask, xs)| > 0 <==> exists j :: 0 <= j < |mask| && mask[j]
    ensures |Pick(mask, xs)| > 0 ==>
      var p := Positions(mask)[0];
      p < |xs| && mask[p] && Pick(mask, xs)[0] == xs[p] && forall q :: 0 <= q < p ==> !mask[q]
  {
    var P := Positions(mask);
    PickAt(mask, xs);
    PositionsSpec(mask);
    if |P| > 0 {
      assert P[0] in P;
      assert forall k :: 0 <= k < |P| ==> P[0] <= P[k];
    }
  }
}
