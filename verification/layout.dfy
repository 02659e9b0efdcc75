/** The segmenter on a stream laid out as the sensor writes it: every sweep's
    samples followed by one length marker holding that sweep's sample count.
    Under this layout the announced lengths are read back exactly, sweep 0
    holds its samples and its marker, and every later sweep loses its first
    sample and ends with its marker. */
module Layout {
  import opened Common
  import opened Numpy
  import opened Segmenter

  /** Index of the first sample of block `k`: the earlier blocks and their
      markers come before it. */
  function BlockStart(lengths: seq<int>, k: nat): int
    requires k <= |lengths|
  {
    Sum(lengths[..k]) + k
  }

  /** Index of marker `k`, directly after the samples of block `k`. */
  function MarkerIndex(lengths: seq<int>, k: nat): int
    requires k < |lengths|
  {
    Sum(lengths[..k + 1]) + k
  }

  /** `distances` is a sequence of blocks of `lengths[k]` samples, each
      followed by the marker `lengths[k]`, and no sample other than a marker
      falls inside the tolerance window around `numSamples`. */
  predicate MarkersFollowSweeps(lengths: seq<int>, distances: seq<real>, numSamples: real) {
    && (forall k :: 0 <= k < |lengths| ==> lengths[k] >= 0)
    && |distances| == Sum(lengths) + |lengths|
    && (forall k :: 0 <= k < |lengths| ==>
          && 0 <= MarkerIndex(lengths, k) < |distances|
          && distances[MarkerIndex(lengths, k)] == lengths[k] as real)
    && (forall i :: 0 <= i < |distances| && distances[i] in ToleranceWindow(numSamples) ==>
          exists k :: 0 <= k < |lengths| && MarkerIndex(lengths, k) == i)
  }

  /** With non-negative block lengths the markers come in stream order and
      the last one is the last sample. */
  lemma MarkerIndicesIncreasing(lengths: seq<int>)
    requires forall k :: 0 <= k < |lengths| ==> lengths[k] >= 0
    ensures forall j, k :: 0 <= j < k < |lengths| ==> MarkerIndex(lengths, j) < MarkerIndex(lengths, k)
    ensures forall k :: 0 <= k < |lengths| ==> 0 <= MarkerIndex(lengths, k) < Sum(lengths) + |lengths|
  {
    forall j, k | 0 <= j < k < |lengths|
      ensures MarkerIndex(lengths, j) < MarkerIndex(lengths, k)
    {
      SumPrefixMonotone(lengths, j + 1, k + 1);
    }
    forall k | 0 <= k < |lengths|
      ensures 0 <= MarkerIndex(lengths, k) < Sum(lengths) + |lengths|
    {
      SumPrefixMonotone(lengths, 0, k + 1);
      SumPrefixMonotone(lengths, k + 1, |lengths|);
      assert lengths[..|lengths|] == lengths;
    }
  }

  /** Two strictly increasing sequences with the same members are equal. */
  lemma {:induction false} IncreasingUnique(a: seq<int>, b: seq<int>)
    requires forall i, j :: 0 <= i < j < |a| ==> a[i] < a[j]
    requires forall i, j :: 0 <= i < j < |b| ==> b[i] < b[j]
    requires forall x :: x in a <==> x in b
    ensures a == b
    decreases |a|
  {
    if |a| > 0 {
      assert a[0] in a;
      assert |b| > 0;
    }
    if |b| > 0 {
      assert b[0] in b;
      assert |a| > 0;
    }
    if |a| > 0 {
      assert a[0] in b;
      assert b[0] in a;
      assert a[0] == b[0];
      forall x
        ensures x in a[1..] <==> x in b[1..]
      {
        if x in a[1..] {
          assert x in b && x != b[0];
        }
        if x in b[1..] {
          assert x in a && x != a[0];
        }
      }
      IncreasingUnique(a[1..], b[1..]);
    }
  }

  /** The positions of the markers a laid-out stream contains. */
  function MarkerIndices(lengths: seq<int>): (r: seq<int>)
    ensures |r| == |lengths|
    ensures forall k :: 0 <= k < |lengths| ==> r[k] == MarkerIndex(lengths, k)
  {
    seq(|lengths|, k requires 0 <= k < |lengths| => MarkerIndex(lengths, k))
  }

  /** Every sample the scan takes for a marker is one. */
  lemma OnlyMarkersFound(lengths: seq<int>, distances: seq<real>, numSamples: real, x: int)
    requires MarkersFollowSweeps(lengths, distances, numSamples)
    requires x in MarkerPositions(distances, numSamples)
    ensures x in MarkerIndices(lengths)
  {
    var p := MarkerPositions(distances, numSamples);
    var j :| 0 <= j < |p| && p[j] == x;
    assert distances[x] in ToleranceWindow(numSamples);
    var k :| 0 <= k < |lengths| && MarkerIndex(lengths, k) == x;
    assert MarkerIndices(lengths)[k] == x;
  }

  /** With an integral estimate within 2 of its length, every marker is
      taken by the scan. */
  lemma EveryMarkerFound(lengths: seq<int>, distances: seq<real>, n: int, k: nat)
    requires MarkersFollowSweeps(lengths, distances, n as real)
    requires k < |lengths|
    requires n - 2 <= lengths[k] <= n + 2
    ensures MarkerIndex(lengths, k) in MarkerPositions(distances, n as real)
  {
    var x := MarkerIndex(lengths, k);
    IntegralWindow(n, lengths[k] as real);
    assert distances[x] in ToleranceWindow(n as real);
  }

  /** With an integral estimate within 2 of every block length, the marker
      scan finds exactly the markers. */
  lemma MarkersFoundExactly(lengths: seq<int>, distances: seq<real>, n: int)
    requires forall k :: 0 <= k < |lengths| ==> n - 2 <= lengths[k] <= n + 2
    requires MarkersFollowSweeps(lengths, distances, n as real)
    ensures MarkerPositions(distances, n as real) == MarkerIndices(lengths)
  {
    var p := MarkerPositions(distances, n as real);
    var idx := MarkerIndices(lengths);
    MarkerIndicesIncreasing(lengths);
    forall x
      ensures x in p <==> x in idx
    {
      if x in p {
        OnlyMarkersFound(lengths, distances, n as real, x);
      }
      if x in idx {
        var k :| 0 <= k < |idx| && idx[k] == x;
        EveryMarkerFound(lengths, distances, n, k);
      }
    }
    IncreasingUnique(p, idx);
  }

  /** ... and reads back exactly the block lengths. */
  lemma MarkersReadBack(lengths: seq<int>, distances: seq<real>, n: int)
    requires forall k :: 0 <= k < |lengths| ==> n - 2 <= lengths[k] <= n + 2
    requires MarkersFollowSweeps(lengths, distances, n as real)
    ensures MarkerLengths(distances, n as real) == lengths
  {
    MarkersFoundExactly(lengths, distances, n);
    var p := MarkerPositions(distances, n as real);
    var r := MarkerLengths(distances, n as real);
    forall k | 0 <= k < |r|
      ensures r[k] == lengths[k]
    {
      assert p[k] == MarkerIndex(lengths, k);
      IntegralMarkerLength(distances, n as real, k, lengths[k]);
    }
  }

  /** A marker holding an integral value announces exactly that value. */
  lemma IntegralMarkerLength(distances: seq<real>, numSamples: real, k: nat, v: int)
    requires k < |MarkerPositions(distances, numSamples)|
    requires distances[MarkerPositions(distances, numSamples)[k]] == v as real
    ensures MarkerLengths(distances, numSamples)[k] == v
  {
  }

  /** The round trip on a laid-out stream: with an integral estimate within
      2 of every block length, the extraction succeeds, reads back exactly
      the block lengths, and record k is sweep k of those lengths (whose
      contents `LaidOutSweep` gives). */
  lemma MarkersFollowingSweepsRoundTrip(rejectNegative: bool, angles: seq<real>, distances: seq<real>,
                                        estimate: Estimator, lengths: seq<int>, n: int)
    requires ValidInput(rejectNegative, angles, distances)
    requires NominalLength(angles, estimate) == n as real
    requires forall k :: 0 <= k < |lengths| ==> n - 2 <= lengths[k] <= n + 2
    requires MarkersFollowSweeps(lengths, distances, n as real)
    ensures MarkerLengths(distances, NominalLength(angles, estimate)) == lengths
    ensures var r := Extract(rejectNegative, angles, distances, estimate);
            && r.Ok? && |r.value| == |lengths|
            && forall k :: 0 <= k < |lengths| ==> r.value[k] == SweepAt(angles, distances, lengths, k)
  {
    MarkersReadBack(lengths, distances, n);
    forall k | 0 <= k < |lengths|
      ensures Extract(rejectNegative, angles, distances, estimate).value[k] == SweepAt(angles, distances, lengths, k)
    {
      ExtractedRecord(rejectNegative, angles, distances, estimate, k);
    }
  }

  /** The bounds of sweep `k` on a laid-out stream: from the start of
      block `k` (one past it for k > 0) to just past marker `k`. */
  lemma LaidOutBounds(lengths: seq<int>, k: nat)
    requires forall j :: 0 <= j < |lengths| ==> lengths[j] >= 0
    requires k < |lengths|
    ensures var first := BlockStart(lengths, k) + (if k == 0 then 0 else 1);
            && SweepBounds(lengths, k) == (first, MarkerIndex(lengths, k) + 1)
            && 0 <= first <= MarkerIndex(lengths, k) + 1 <= Sum(lengths) + |lengths|
            && MarkerIndex(lengths, k) + 1 - first == lengths[k] + (if k == 0 then 1 else 0)
  {
    SweepBoundsLaidOut(lengths, k);
    PrefixSumsAround(lengths, k);
  }

  /** Sweep `k`'s bounds in terms of block starts and marker indices. */
  lemma SweepBoundsLaidOut(lengths: seq<int>, k: nat)
    requires k < |lengths|
    ensures SweepBounds(lengths, k)
            == (BlockStart(lengths, k) + (if k == 0 then 0 else 1), MarkerIndex(lengths, k) + 1)
  {
    assert lengths[..0] == [];
  }

  /** The prefix sums around index `k` of non-negative lengths. */
  lemma PrefixSumsAround(lengths: seq<int>, k: nat)
    requires forall j :: 0 <= j < |lengths| ==> lengths[j] >= 0
    requires k < |lengths|
    ensures 0 <= Sum(lengths[..k])
    ensures Sum(lengths[..k + 1]) == Sum(lengths[..k]) + lengths[k]
    ensures Sum(lengths[..k + 1]) <= Sum(lengths)
  {
    SumPrefixStep(lengths, k);
    assert Sum(lengths[..k]) >= 0 by {
      SumPrefixMonotone(lengths, 0, k);
      assert lengths[..0] == [];
    }
    assert Sum(lengths[..k + 1]) <= Sum(lengths) by {
      SumPrefixMonotone(lengths, k + 1, |lengths|);
      assert lengths[..|lengths|] == lengths;
    }
  }

  /** The record of sweep `k` of a laid-out stream: sweep 0 holds block 0
      and its marker; sweep k > 0 holds block k without its first sample,
      then marker k. */
  lemma LaidOutSweep(angles: seq<real>, distances: seq<real>, lengths: seq<int>, k: nat)
    requires |angles| == |distances| == Sum(lengths) + |lengths|
    requires forall j :: 0 <= j < |lengths| ==> lengths[j] >= 0
    requires k < |lengths|
    ensures var rec := SweepAt(angles, distances, lengths, k);
            var first := BlockStart(lengths, k) + (if k == 0 then 0 else 1);
            && 0 <= first <= MarkerIndex(lengths, k) + 1 <= |angles|
            && rec.angles == angles[first..MarkerIndex(lengths, k) + 1]
            && |rec.distances| == lengths[k] + (if k == 0 then 1 else 0)
            && (forall i :: 0 <= i < |rec.distances| ==>
                  rec.distances[i] * 1000.0 == distances[first + i])
  {
    LaidOutBounds(lengths, k);
  }

  /** A non-empty record of a laid-out stream ends with its marker, whose
      distance converted back to millimetres is the block's length. */
  lemma LaidOutSweepEndsWithMarker(angles: seq<real>, distances: seq<real>, lengths: seq<int>,
                                   numSamples: real, k: nat)
    requires MarkersFollowSweeps(lengths, distances, numSamples)
    requires |angles| == |distances|
    requires k < |lengths|
    ensures var d := SweepAt(angles, distances, lengths, k).distances;
            |d| > 0 ==> d[|d| - 1] * 1000.0 == lengths[k] as real
  {
    LaidOutSweep(angles, distances, lengths, k);
    var d := SweepAt(angles, distances, lengths, k).distances;
    if |d| > 0 {
      var first := BlockStart(lengths, k) + (if k == 0 then 0 else 1);
      assert first + (|d| - 1) == MarkerIndex(lengths, k) by {
        LaidOutBounds(lengths, k);
      }
    }
  }
}
