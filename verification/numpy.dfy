/** The handful of Python and numpy primitives the segmenter is built from,
    with their semantics written out: float64 values are idealised as `real`,
    integers are unbounded. */
module Numpy {

  /** `numpy.round` to zero decimals: nearest integer, ties to the even one. */
  function RoundHalfEven(x: real): (r: int)
    ensures -0.5 <= x - r as real <= 0.5
    ensures (x - r as real == 0.5 || r as real - x == 0.5) ==> r % 2 == 0
  {
    var f := x.Floor;
    var frac := x - f as real;
    if frac < 0.5 then f
    else if frac > 0.5 then f + 1
    else if f % 2 == 0 then f
    else f + 1
  }

  /** On non-negative values, rounding to 0 means lying in [0, 1/2]: the tie
      at 1/2 goes to the even neighbour 0. */
  lemma RoundsToZeroIff(x: real)
    requires x >= 0.0
    ensures RoundHalfEven(x) == 0 <==> x <= 0.5
  {
  }

  /** Python's `int()` on a float: truncation toward zero. */
  function Trunc(x: real): (r: int)
    ensures x >= 0.0 ==> r as real <= x < r as real + 1.0
    ensures x < 0.0 ==> r as real - 1.0 < x <= r as real
  {
    if x >= 0.0 then x.Floor else -((-x).Floor)
  }

  /** An integral value survives `int()` unchanged. */
  lemma TruncIntegral(i: int)
    ensures Trunc(i as real) == i
  {
  }

  /** `ndarray.sum()` of an integer array (0 for an empty one). */
  function Sum(s: seq<int>): (r: int)
    ensures (forall i :: 0 <= i < |s| ==> s[i] >= 0) ==>
              0 <= r && forall i :: 0 <= i < |s| ==> s[i] <= r
  {
    if |s| == 0 then 0 else Sum(s[..|s| - 1]) + s[|s| - 1]
  }

  /** Extending a prefix by one element adds that element to the sum. */
  lemma SumPrefixStep(s: seq<int>, k: nat)
    requires k < |s|
    ensures Sum(s[..k + 1]) == Sum(s[..k]) + s[k]
  {
    assert s[..k + 1][..k] == s[..k];
  }

  /** Sums of longer prefixes of a non-negative array are no smaller. */
  lemma {:induction false} SumPrefixMonotone(s: seq<int>, i: nat, j: nat)
    requires i <= j <= |s|
    requires forall k :: 0 <= k < |s| ==> s[k] >= 0
    ensures Sum(s[..i]) <= Sum(s[..j])
    decreases j - i
  {
    if i < j {
      SumPrefixStep(s, j - 1);
      SumPrefixMonotone(s, i, j - 1);
    }
  }

  /** `numpy.diff`: differences of neighbours, one fewer than the input. */
  function Diff(xs: seq<int>): (r: seq<int>)
    ensures |xs| == 0 ==> |r| == 0
    ensures |xs| > 0 ==> |r| == |xs| - 1
    ensures forall i :: 0 <= i < |r| ==> xs[i] + r[i] == xs[i + 1]
  {
    if |xs| == 0 then [] else seq(|xs| - 1, i requires 0 <= i < |xs| - 1 => xs[i + 1] - xs[i])
  }

  /** `numpy.diff` is undone by a cumulative sum from the first element. */
  lemma {:induction false} DiffPrefixSums(xs: seq<int>, k: nat)
    requires k < |xs|
    ensures xs[0] + Sum(Diff(xs)[..k]) == xs[k]
  {
    if k > 0 {
      DiffPrefixSums(xs, k - 1);
      SumPrefixStep(Diff(xs), k - 1);
    }
  }

  /** `numpy.where(mask)[0]` for the mask `p` over `s`: the indices whose
      element satisfies `p`, in increasing order. */
  function IndicesWhere<T>(s: seq<T>, p: T -> bool): (r: seq<nat>)
    ensures forall j :: 0 <= j < |r| ==> r[j] < |s| && p(s[r[j]])
    ensures forall j, k :: 0 <= j < k < |r| ==> r[j] < r[k]
    ensures forall i :: 0 <= i < |s| && p(s[i]) ==> i in r
    ensures |r| <= |s|
    decreases |s|
  {
    if |s| == 0 then []
    else
      var init := s[..|s| - 1];
      var r0 := IndicesWhere(init, p);
      assert forall i :: 0 <= i < |init| ==> init[i] == s[i];
      r0 + (if p(s[|s| - 1]) then [|s| - 1] else [])
  }

  /** Taking one more element of `s` appends its index exactly when it
      satisfies `p`. */
  lemma IndicesWherePrefixStep<T>(s: seq<T>, p: T -> bool, k: nat)
    requires k < |s|
    ensures IndicesWhere(s[..k + 1], p)
            == IndicesWhere(s[..k], p) + (if p(s[k]) then [k] else [])
  {
    assert s[..k + 1][..k] == s[..k];
  }

  /** Python's adjustment of a slice bound against a length `n`: a negative
      bound counts from the end, and the result is clamped to [0, n]. */
  function ClampIndex(i: int, n: nat): (r: nat)
    ensures r <= n
    ensures 0 <= i <= n ==> r == i
    ensures i > n ==> r == n
    ensures -(n as int) <= i < 0 ==> r == i + n
    ensures i < -(n as int) ==> r == 0
  {
    if i < 0 then (if i + n < 0 then 0 else i + n)
    else if i > n then n
    else i
  }

  /** `s[lo:hi]` on a one-dimensional array; never fails. */
  function Slice<T>(s: seq<T>, lo: int, hi: int): (r: seq<T>)
    ensures |r| <= |s|
    ensures 0 <= lo <= hi <= |s| ==> r == s[lo..hi]
    ensures 0 <= lo <= |s| <= hi ==> r == s[lo..]
    ensures 0 <= hi <= lo ==> r == []
    ensures |s| <= lo ==> r == []
  {
    var l := ClampIndex(lo, |s|);
    var h := ClampIndex(hi, |s|);
    if l <= h then s[l..h] else []
  }

  /** Element-wise `array * factor`. */
  function ScaleBy(s: seq<real>, factor: real): (r: seq<real>)
    ensures |r| == |s|
    ensures forall i :: 0 <= i < |s| ==> r[i] == s[i] * factor
  {
    seq(|s|, i requires 0 <= i < |s| => s[i] * factor)
  }
}
