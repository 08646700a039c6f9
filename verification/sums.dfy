/** Finite sums and running (cumulative) sums of reals. */
module Sums {

  /** Sum of a sequence, peeling the last element (the order a running total is built in). */
  function Sum(s: seq<real>): real
  {
    if s == [] then 0.0 else Sum(s[..|s| - 1]) + s[|s| - 1]
  }

  /** k copies of x added up, i.e. the product k * x of a count and a real. The event
      loops multiply the number of waiting customers by the elapsed time; written as
      repeated addition it keeps the state proofs in linear arithmetic. */
  function Scaled(k: nat, x: real): real
  {
    if k == 0 then 0.0 else Scaled(k - 1, x) + x
  }

  ghost predicate AllNonNegative(s: seq<real>)
  {
    forall i :: 0 <= i < |s| ==> 0.0 <= s[i]
  }

  ghost predicate NonDecreasing(s: seq<real>)
  {
    forall i, j :: 0 <= i <= j < |s| ==> s[i] <= s[j]
  }

  /** Element i is the sum of the first i + 1 gaps: the arrival instants of a renewal
      process whose inter-arrival times are `gaps`, starting from time 0. */
  function CumSums(gaps: seq<real>): (r: seq<real>)
    ensures |r| == |gaps|
  {
    seq(|gaps|, i requires 0 <= i < |gaps| => Sum(gaps[..i + 1]))
  }

  lemma SumAppend(s: seq<real>, x: real)
    ensures Sum(s + [x]) == Sum(s) + x
  {
    assert (s + [x])[..|s + [x]| - 1] == s;
  }

  lemma SumPrefixStep(s: seq<real>, k: nat)
    requires k < |s|
    ensures Sum(s[..k + 1]) == Sum(s[..k]) + s[k]
  {
    assert s[..k + 1] == s[..k] + [s[k]];
    SumAppend(s[..k], s[k]);
  }

  /** Sum of a sequence peeling the first element instead. */
  lemma {:induction false} SumCons(x: real, s: seq<real>)
    ensures Sum([x] + s) == x + Sum(s)
    decreases |s|
  {
    if s == [] {
      assert [x] + s == [x];
      SumAppend([], x);
    } else {
      var t := s[..|s| - 1];
      assert s == t + [s[|s| - 1]];
      assert [x] + s == ([x] + t) + [s[|s| - 1]];
      SumAppend([x] + t, s[|s| - 1]);
      SumCons(x, t);
      SumAppend(t, s[|s| - 1]);
    }
  }

  lemma {:induction false} SumNonNegative(s: seq<real>)
    requires AllNonNegative(s)
    ensures 0.0 <= Sum(s)
    decreases |s|
  {
    if s != [] {
      SumNonNegative(s[..|s| - 1]);
    }
  }

  /** Running sums of non-negative gaps never decrease and start at or above zero. */
  lemma {:induction false} CumSumsNonDecreasing(gaps: seq<real>)
    requires AllNonNegative(gaps)
    ensures NonDecreasing(CumSums(gaps))
    ensures |gaps| > 0 ==> 0.0 <= CumSums(gaps)[0]
  {
    var c := CumSums(gaps);
    forall i, j | 0 <= i <= j < |c|
      ensures c[i] <= c[j]
    {
      CumSumsStep(gaps, i, j);
    }
    if |gaps| > 0 {
      SumPrefixStep(gaps, 0);
      assert gaps[..0] == [];
    }
  }

  lemma {:induction false} CumSumsStep(gaps: seq<real>, i: nat, j: nat)
    requires AllNonNegative(gaps)
    requires i <= j < |gaps|
    ensures Sum(gaps[..i + 1]) <= Sum(gaps[..j + 1])
    decreases j - i
  {
    if i < j {
      CumSumsStep(gaps, i, j - 1);
      SumPrefixStep(gaps, j);
    }
  }

  /** Extending the gaps by one appends one running sum: what an appending loop builds. */
  lemma CumSumsAppend(gaps: seq<real>, x: real)
    ensures CumSums(gaps + [x]) == CumSums(gaps) + [Sum(gaps) + x]
  {
    var g := gaps + [x];
    assert g[..|g|] == g;
    SumAppend(gaps, x);
    forall i | 0 <= i < |gaps|
      ensures CumSums(g)[i] == CumSums(gaps)[i]
    {
      assert g[..i + 1] == gaps[..i + 1];
    }
  }

  lemma {:induction false} ScaledIsProduct(k: nat, x: real)
    ensures Scaled(k, x) == k as real * x
  {
    if k > 0 {
      ScaledIsProduct(k - 1, x);
      assert (k - 1) as real * x + x == k as real * x;
    }
  }

  /** Scaling distributes over a difference: k*(a - b) == k*a - k*b. */
  lemma {:induction false} ScaledDifference(k: nat, a: real, b: real)
    ensures Scaled(k, a - b) == Scaled(k, a) - Scaled(k, b)
  {
    if k > 0 {
      ScaledDifference(k - 1, a, b);
    }
  }

  lemma {:induction false} ScaledZero(k: nat)
    ensures Scaled(k, 0.0) == 0.0
  {
    if k > 0 {
      ScaledZero(k - 1);
    }
  }

  lemma {:induction false} ScaledNonNegative(k: nat, x: real)
    requires 0.0 <= x
    ensures 0.0 <= Scaled(k, x)
  {
    if k > 0 {
      ScaledNonNegative(k - 1, x);
    }
  }
}
