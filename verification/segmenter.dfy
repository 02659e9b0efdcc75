/** The sweep segmenter `ExtractSweepsFromMeasurements`, one definition for
    all three copies in the source; `rejectNegative` selects whether the copy
    refuses negative distances. */
module Segmenter {
  import opened Common
  import opened Numpy
  import Units

  /** The nominal-sweep-length estimate computed from the gaps between zero
      crossings (in the source, the left edge of the fullest bin of a
      10-bin histogram). */
  type Estimator = seq<int> -> real

  // ---------------------------------------------------------------- validation

  predicate AnglesInRange(angles: seq<real>) {
    forall i :: 0 <= i < |angles| ==> 0.0 <= angles[i] <= 360.0
  }

  predicate NonNegative(distances: seq<real>) {
    forall i :: 0 <= i < |distances| ==> distances[i] >= 0.0
  }

  /** What the input checks let through. */
  predicate ValidInput(rejectNegative: bool, angles: seq<real>, distances: seq<real>) {
    && |angles| == |distances|
    && |angles| > 0
    && (rejectNegative ==> NonNegative(distances))
    && AnglesInRange(angles)
  }

  /** The first input check that fails, if any, in the order the source
      checks them (the separate non-empty check on `distances` can never be
      the first to fail once the lengths agree, so it is folded in). */
  function Validate(rejectNegative: bool, angles: seq<real>, distances: seq<real>): (r: Option<Violation>)
    ensures r.None? <==> ValidInput(rejectNegative, angles, distances)
    ensures |angles| != |distances| <==> r == Some(LengthMismatch)
    ensures |angles| == |distances| == 0 <==> r == Some(EmptyArray)
    ensures |angles| == |distances| > 0 && rejectNegative && !NonNegative(distances) ==>
              r == Some(NegativeDistance)
    ensures r == Some(NegativeDistance) ==>
              rejectNegative && exists i :: 0 <= i < |distances| && distances[i] < 0.0
    ensures r == Some(AngleOutOfRange) ==>
              exists i :: 0 <= i < |angles| && !(0.0 <= angles[i] <= 360.0)
  {
    if |angles| != |distances| then Some(LengthMismatch)
    else if |angles| == 0 then Some(EmptyArray)
    else if rejectNegative && !NonNegative(distances) then Some(NegativeDistance)
    else if !AnglesInRange(angles) then Some(AngleOutOfRange)
    else None
  }

  // ------------------------------------------------ nominal sweep length

  predicate RoundsToZero(a: real) {
    RoundHalfEven(a) == 0
  }

  /** Indices whose angle rounds to 0, in increasing order. */
  function ZeroCrossings(angles: seq<real>): (r: seq<nat>)
    ensures forall i :: 0 <= i < |angles| ==> (i in r <==> RoundsToZero(angles[i]))
    ensures forall j :: 0 <= j < |r| ==> r[j] < |angles|
    ensures forall j, k :: 0 <= j < k < |r| ==> r[j] < r[k]
  {
    IndicesWhere(angles, RoundsToZero)
  }

  /** On validated angles a zero crossing is exactly an angle in [0, 1/2]. */
  lemma ZeroCrossingIffSmallAngle(angles: seq<real>, i: nat)
    requires AnglesInRange(angles)
    requires i < |angles|
    ensures i in ZeroCrossings(angles) <==> angles[i] <= 0.5
  {
    RoundsToZeroIff(angles[i]);
  }

  /** Sample counts between consecutive zero crossings. */
  function Gaps(angles: seq<real>): (r: seq<int>)
    ensures |ZeroCrossings(angles)| > 0 ==> |r| == |ZeroCrossings(angles)| - 1
    ensures |ZeroCrossings(angles)| == 0 ==> r == []
    ensures forall j :: 0 <= j < |r| ==> r[j] > 0
  {
    Diff(ZeroCrossings(angles))
  }

  /** The gaps rebuild every crossing from the first one. */
  lemma GapsRebuildCrossings(angles: seq<real>, k: nat)
    requires k < |ZeroCrossings(angles)|
    ensures ZeroCrossings(angles)[0] + Sum(Gaps(angles)[..k]) == ZeroCrossings(angles)[k]
  {
    DiffPrefixSums(ZeroCrossings(angles), k);
  }

  function NominalLength(angles: seq<real>, estimate: Estimator): real {
    estimate(Gaps(angles))
  }

  // ---------------------------------------------------------- length markers

  /** The marker values accepted around the nominal length `numSamples`. */
  function ToleranceWindow(numSamples: real): (w: seq<real>)
    ensures |w| == 5
    ensures forall j, k :: 0 <= j < k < |w| ==> w[j] < w[k]
    ensures forall x :: x in w <==>
              && numSamples - 2.0 <= x <= numSamples + 2.0
              && (x - numSamples).Floor as real == x - numSamples
  {
    var w := seq(5, k requires 0 <= k < 5 => (k - 2) as real + numSamples);
    forall x | numSamples - 2.0 <= x <= numSamples + 2.0 && (x - numSamples).Floor as real == x - numSamples
      ensures x in w
    {
      var f := (x - numSamples).Floor;
      assert -2 <= f <= 2;
      assert w[f + 2] == x;
    }
    w
  }

  /** With an integral nominal length the window is exactly the integers
      from `n - 2` to `n + 2`. */
  lemma IntegralWindow(n: int, x: real)
    ensures x in ToleranceWindow(n as real) <==> x.Floor as real == x && n - 2 <= x.Floor <= n + 2
  {
    var w := ToleranceWindow(n as real);
    if x in w {
      assert (x - n as real).Floor as real == x - n as real;
      assert x.Floor == (x - n as real).Floor + n;
    }
  }

  function MarkerTest(numSamples: real): real -> bool {
    d => d in ToleranceWindow(numSamples)
  }

  /** Positions of the length markers: samples whose distance lies in the
      tolerance window, in stream order. */
  function MarkerPositions(distances: seq<real>, numSamples: real): (r: seq<nat>)
    ensures forall i :: 0 <= i < |distances| ==>
              (i in r <==> distances[i] in ToleranceWindow(numSamples))
    ensures forall j :: 0 <= j < |r| ==> r[j] < |distances|
    ensures forall j, k :: 0 <= j < k < |r| ==> r[j] < r[k]
  {
    IndicesWhere(distances, MarkerTest(numSamples))
  }

  /** The sweep lengths the markers announce, `int(distance)` of each marker. */
  function MarkerLengths(distances: seq<real>, numSamples: real): (r: seq<int>)
    ensures |r| == |MarkerPositions(distances, numSamples)|
    ensures forall k :: 0 <= k < |r| ==>
              var d := distances[MarkerPositions(distances, numSamples)[k]];
              && (d >= 0.0 ==> r[k] as real <= d < r[k] as real + 1.0)
              && (d < 0.0 ==> r[k] as real - 1.0 < d <= r[k] as real)
  {
    var p := MarkerPositions(distances, numSamples);
    seq(|p|, k requires 0 <= k < |p| => Trunc(distances[p[k]]))
  }

  /** Scanning one more sample appends its length exactly when it is a marker. */
  lemma MarkerLengthsStep(distances: seq<real>, numSamples: real, i: nat)
    requires i < |distances|
    ensures MarkerLengths(distances[..i + 1], numSamples)
            == MarkerLengths(distances[..i], numSamples)
               + (if distances[i] in ToleranceWindow(numSamples) then [Trunc(distances[i])] else [])
  {
    IndicesWherePrefixStep(distances, MarkerTest(numSamples), i);
    var a := MarkerLengths(distances[..i + 1], numSamples);
    var b := MarkerLengths(distances[..i], numSamples)
             + (if distances[i] in ToleranceWindow(numSamples) then [Trunc(distances[i])] else []);
    assert |a| == |b|;
    forall k | 0 <= k < |a| ensures a[k] == b[k] {
    }
  }

  /** The marker scan: walks the distances in order, counting sweeps and
      collecting the length each marker announces. */
  method ScanMarkers(distances: seq<real>, numSamples: real) returns (numSweeps: nat, lengths: seq<int>)
    ensures numSweeps == |lengths| == |MarkerPositions(distances, numSamples)|
    ensures forall k :: 0 <= k < |lengths| ==>
              lengths[k] == Trunc(distances[MarkerPositions(distances, numSamples)[k]])
    ensures lengths == MarkerLengths(distances, numSamples)
  {
    numSweeps := 0;
    lengths := [];
    var window := ToleranceWindow(numSamples);
    for i := 0 to |distances|
      invariant numSweeps == |lengths|
      invariant lengths == MarkerLengths(distances[..i], numSamples)
    {
      MarkerLengthsStep(distances, numSamples, i);
      if distances[i] in window {
        numSweeps := numSweeps + 1;
        lengths := lengths + [Trunc(distances[i])];
      }
    }
    assert distances[..|distances|] == distances;
  }

  /** With an integral nominal length `n`, every announced length is the
      marker's own value and lies within two of `n`. */
  lemma MarkerLengthsNearNominal(distances: seq<real>, n: int, k: nat)
    requires k < |MarkerLengths(distances, n as real)|
    ensures MarkerLengths(distances, n as real)[k] as real
            == distances[MarkerPositions(distances, n as real)[k]]
    ensures n - 2 <= MarkerLengths(distances, n as real)[k] <= n + 2
  {
    var d := distances[MarkerPositions(distances, n as real)[k]];
    IntegralWindow(n, d);
    TruncIntegral(d.Floor);
  }

  /** Markers never announce a negative length when distances are non-negative. */
  lemma MarkerLengthsNonNegative(distances: seq<real>, numSamples: real)
    ensures NonNegative(distances) ==> forall k :: 0 <= k < |MarkerLengths(distances, numSamples)| ==>
              MarkerLengths(distances, numSamples)[k] >= 0
  {
  }

  // ------------------------------------------------------------ slice bounds

  /** `[minIndex, maxIndex)` of sweep `k`: sweep 0 starts at 0, a later sweep
      after the cumulative length of the earlier ones plus `k + 1`. */
  function SweepBounds(lengths: seq<int>, k: nat): (r: (int, int))
    requires k < |lengths|
    ensures (forall j :: 0 <= j < k ==> lengths[j] >= 0) ==> r.0 >= 0
    ensures lengths[k] >= 0 ==> r.0 <= r.1
  {
    SumPrefixStep(lengths, k);
    var minIndex := if k > 0 then Sum(lengths[..k]) + k + 1 else 0;
    var maxIndex := Sum(lengths[..k + 1]) + k + 1;
    (minIndex, maxIndex)
  }

  /** Sweep 0 spans one sample more than its marker announces; every later
      sweep spans exactly the announced length. */
  lemma SweepSpan(lengths: seq<int>, k: nat)
    requires k < |lengths|
    ensures k == 0 ==> SweepBounds(lengths, k) == (0, lengths[0] + 1)
    ensures k > 0 ==> SweepBounds(lengths, k).1 - SweepBounds(lengths, k).0 == lengths[k]
  {
    SumPrefixStep(lengths, k);
  }

  /** Exactly one index lies between one sweep's end and the next one's start. */
  lemma OneIndexSkipped(lengths: seq<int>, k: nat)
    requires k + 1 < |lengths|
    ensures SweepBounds(lengths, k + 1).0 == SweepBounds(lengths, k).1 + 1
  {
  }

  /** The last sweep ends after all announced lengths plus one index per sweep. */
  lemma LastSweepEnd(lengths: seq<int>)
    requires |lengths| > 0
    ensures SweepBounds(lengths, |lengths| - 1).1 == Sum(lengths) + |lengths|
  {
    assert lengths[..|lengths|] == lengths;
  }

  /** With non-negative lengths the sweeps are ordered and disjoint: an
      earlier sweep ends strictly before a later one starts. */
  lemma {:induction false} SweepsInOrder(lengths: seq<int>, j: nat, k: nat)
    requires j < k < |lengths|
    requires forall i :: 0 <= i < |lengths| ==> lengths[i] >= 0
    ensures SweepBounds(lengths, j).0 <= SweepBounds(lengths, j).1
    ensures SweepBounds(lengths, j).1 < SweepBounds(lengths, k).0
  {
    SweepSpan(lengths, j);
    SumPrefixMonotone(lengths, j + 1, k);
  }

  /** Up to the end of the last sweep, every index lies in some sweep's
      bounds or is the one index skipped just before a later sweep. */
  lemma EveryIndexCoveredOrSkipped(lengths: seq<int>, j: int)
    requires |lengths| > 0
    requires 0 <= j < SweepBounds(lengths, |lengths| - 1).1
    ensures || (exists k :: 0 <= k < |lengths|
                         && SweepBounds(lengths, k).0 <= j < SweepBounds(lengths, k).1)
            || (exists k :: 0 < k < |lengths| && j == SweepBounds(lengths, k).0 - 1)
  {
    var k := 0;
    while SweepBounds(lengths, k).1 <= j
      invariant 0 <= k < |lengths|
      invariant k > 0 ==> SweepBounds(lengths, k - 1).1 <= j
      decreases |lengths| - k
    {
      k := k + 1;
    }
    if k > 0 {
      OneIndexSkipped(lengths, k - 1);
    }
  }

  // ----------------------------------------------------------------- records

  /** The mm-to-m factor the records are scaled by. */
  function MillimetresToMetres(): (f: real)
    ensures f == 0.001
  {
    Units.MillimetreMetreScales();
    Units.GetUnitConversionScale("mm", "m").value
  }

  /** The record cut from `[minIndex, maxIndex)`: the angles unchanged, the
      distances converted to metres. */
  function RecordBetween(angles: seq<real>, distances: seq<real>, minIndex: int, maxIndex: int)
    : (r: SweepRecord)
    ensures |angles| == |distances| ==> |r.angles| == |r.distances|
    ensures r.sweepId.None? && r.coordinates.None?
    ensures 0 <= minIndex <= maxIndex <= |angles| == |distances| ==>
              && r.angles == angles[minIndex..maxIndex]
              && |r.distances| == maxIndex - minIndex
              && forall i :: 0 <= i < maxIndex - minIndex ==> r.distances[i] * 1000.0 == distances[minIndex + i]
    ensures 0 <= minIndex <= |angles| == |distances| < maxIndex ==>
              && r.angles == angles[minIndex..]
              && |r.distances| == |angles| - minIndex
              && forall i :: 0 <= i < |angles| - minIndex ==> r.distances[i] * 1000.0 == distances[minIndex + i]
    ensures |angles| == |distances| <= minIndex ==> r.angles == [] && r.distances == []
    ensures 0 <= maxIndex <= minIndex ==> r.angles == [] && r.distances == []
  {
    SweepRecord(
      Slice(angles, minIndex, maxIndex),
      ScaleBy(Slice(distances, minIndex, maxIndex), MillimetresToMetres()),
      None, None)
  }

  /** The record of sweep `k`. */
  function SweepAt(angles: seq<real>, distances: seq<real>, lengths: seq<int>, k: nat): (r: SweepRecord)
    requires k < |lengths|
    ensures |angles| == |distances| ==> |r.angles| == |r.distances|
    ensures r.sweepId.None? && r.coordinates.None?
  {
    var (minIndex, maxIndex) := SweepBounds(lengths, k);
    RecordBetween(angles, distances, minIndex, maxIndex)
  }

  /** One step of the record loop: from the sum of the earlier lengths, the
      loop's bounds are those of sweep `k`, and the sum grows by `lengths[k]`. */
  lemma RunningBounds(lengths: seq<int>, k: nat, before: int)
    requires k < |lengths|
    requires before == Sum(lengths[..k])
    ensures SweepBounds(lengths, k) == (if k > 0 then before + k + 1 else 0, before + lengths[k] + k + 1)
    ensures before + lengths[k] == Sum(lengths[..k + 1])
  {
    SumPrefixStep(lengths, k);
  }

  /** Appending the record of the next sweep keeps the records built so far
      equal to the sweeps' records. */
  lemma AppendRecord(angles: seq<real>, distances: seq<real>, lengths: seq<int>,
                     records: seq<SweepRecord>, record: SweepRecord)
    requires |records| < |lengths|
    requires forall j :: 0 <= j < |records| ==> records[j] == SweepAt(angles, distances, lengths, j)
    requires record == SweepAt(angles, distances, lengths, |records|)
    ensures forall j :: 0 <= j < |records| + 1 ==>
              (records + [record])[j] == SweepAt(angles, distances, lengths, j)
  {
    forall j | 0 <= j < |records| + 1
      ensures (records + [record])[j] == SweepAt(angles, distances, lengths, j)
    {
      if j < |records| {
        assert (records + [record])[j] == records[j];
      }
    }
  }

  /** Builds one record per announced length, keeping the running sum of the
      lengths already used. */
  method BuildRecords(angles: seq<real>, distances: seq<real>, lengths: seq<int>)
    returns (records: seq<SweepRecord>)
    ensures |records| == |lengths|
    ensures forall k :: 0 <= k < |lengths| ==> records[k] == SweepAt(angles, distances, lengths, k)
  {
    records := [];
    var before := 0;  // sum of the lengths of the sweeps already built
    for k := 0 to |lengths|
      invariant |records| == k
      invariant before == Sum(lengths[..k])
      invariant forall j :: 0 <= j < k ==> records[j] == SweepAt(angles, distances, lengths, j)
    {
      RunningBounds(lengths, k, before);
      var minIndex := if k > 0 then before + k + 1 else 0;
      var maxIndex := before + lengths[k] + k + 1;
      var record := RecordBetween(angles, distances, minIndex, maxIndex);
      assert record == SweepAt(angles, distances, lengths, k);
      AppendRecord(angles, distances, lengths, records, record);
      records := records + [record];
      before := before + lengths[k];
    }
  }

  // -------------------------------------------------------------- extraction

  /** The whole segmenter as a function of its inputs. */
  function Extract(rejectNegative: bool, angles: seq<real>, distances: seq<real>, estimate: Estimator)
    : (r: Result<seq<SweepRecord>>)
    ensures r.Ok? <==> ValidInput(rejectNegative, angles, distances)
    ensures r.Err? ==> r.error == ValidationError(Validate(rejectNegative, angles, distances).value)
    ensures r.Ok? ==>
              |r.value| == |MarkerPositions(distances, NominalLength(angles, estimate))|
    ensures r.Ok? ==> forall k :: 0 <= k < |r.value| ==>
              && |r.value[k].angles| == |r.value[k].distances|
              && r.value[k].sweepId.None?
              && r.value[k].coordinates.None?
  {
    match Validate(rejectNegative, angles, distances)
    case Some(v) => Err(ValidationError(v))
    case None =>
      var lengths := MarkerLengths(distances, NominalLength(angles, estimate));
      Ok(seq(|lengths|, k requires 0 <= k < |lengths| => SweepAt(angles, distances, lengths, k)))
  }

  /** The imperative algorithm in the source's order: validate, find the
      crossings and gaps, estimate, scan for markers, build the records. The
      record loop keeps a running sum where the source recomputes each
      prefix sum; `BuildRecords` shows the two agree. */
  method ExtractSweepsFromMeasurements(
    rejectNegative: bool, angles: seq<real>, distances: seq<real>, estimate: Estimator)
    returns (r: Result<seq<SweepRecord>>)
    ensures r == Extract(rejectNegative, angles, distances, estimate)
  {
    var violation := Validate(rejectNegative, angles, distances);
    if violation.Some? {
      return Err(ValidationError(violation.value));
    }
    var crossings := ZeroCrossings(angles);
    var gaps := Diff(crossings);
    var numSamples := estimate(gaps);
    var numSweeps, lengths := ScanMarkers(distances, numSamples);
    var records := BuildRecords(angles, distances, lengths);
    assert records == seq(|lengths|, k requires 0 <= k < |lengths| => SweepAt(angles, distances, lengths, k));
    r := Ok(records);
  }

  /** Where a sweep's bounds lie inside the stream its record holds exactly
      those angles, and those distances divided by 1000. */
  lemma RecordSlices(rejectNegative: bool, angles: seq<real>, distances: seq<real>,
                     estimate: Estimator, k: nat)
    requires ValidInput(rejectNegative, angles, distances)
    requires k < |MarkerLengths(distances, NominalLength(angles, estimate))|
    requires var (lo, hi) := SweepBounds(MarkerLengths(distances, NominalLength(angles, estimate)), k);
             0 <= lo <= hi <= |angles|
    ensures var (lo, hi) := SweepBounds(MarkerLengths(distances, NominalLength(angles, estimate)), k);
            var record := Extract(rejectNegative, angles, distances, estimate).value[k];
            && record.angles == angles[lo..hi]
            && |record.distances| == hi - lo
            && forall i :: 0 <= i < hi - lo ==> record.distances[i] * 1000.0 == distances[lo + i]
  {
    ExtractedRecord(rejectNegative, angles, distances, estimate, k);
  }

  /** Record `k` of a successful extraction is the record of sweep `k`'s bounds. */
  lemma ExtractedRecord(rejectNegative: bool, angles: seq<real>, distances: seq<real>,
                        estimate: Estimator, k: nat)
    requires ValidInput(rejectNegative, angles, distances)
    requires k < |MarkerLengths(distances, NominalLength(angles, estimate))|
    ensures var r := Extract(rejectNegative, angles, distances, estimate);
            && r.Ok? && k < |r.value|
            && r.value[k] == SweepAt(angles, distances, MarkerLengths(distances, NominalLength(angles, estimate)), k)
  {
  }

  /** A last sweep whose bounds run past the stream is cut at the end. */
  lemma LastSweepClamped(rejectNegative: bool, angles: seq<real>, distances: seq<real>,
                         estimate: Estimator, k: nat)
    requires ValidInput(rejectNegative, angles, distances)
    requires k < |MarkerLengths(distances, NominalLength(angles, estimate))|
    requires var (lo, hi) := SweepBounds(MarkerLengths(distances, NominalLength(angles, estimate)), k);
             0 <= lo <= |angles| < hi
    ensures var (lo, hi) := SweepBounds(MarkerLengths(distances, NominalLength(angles, estimate)), k);
            var record := Extract(rejectNegative, angles, distances, estimate).value[k];
            && record.angles == angles[lo..]
            && |record.distances| == |angles| - lo
            && forall i :: 0 <= i < |angles| - lo ==> record.distances[i] * 1000.0 == distances[lo + i]
  {
    ExtractedRecord(rejectNegative, angles, distances, estimate, k);
  }

  /** A sweep that starts at or past the end of the stream (after a marker
      that appears by coincidence inside a sweep), or whose bounds meet or
      cross (a later block of length 0), has an empty record. */
  lemma SweepPastStreamEmpty(rejectNegative: bool, angles: seq<real>, distances: seq<real>,
                             estimate: Estimator, k: nat)
    requires ValidInput(rejectNegative, angles, distances)
    requires k < |MarkerLengths(distances, NominalLength(angles, estimate))|
    requires var bounds := SweepBounds(MarkerLengths(distances, NominalLength(angles, estimate)), k);
             bounds.0 >= |angles| || 0 <= bounds.1 <= bounds.0
    ensures var record := Extract(rejectNegative, angles, distances, estimate).value[k];
            record.angles == [] && record.distances == []
  {
    ExtractedRecord(rejectNegative, angles, distances, estimate, k);
  }

  /** Sweep 0 holds one sample more than its marker announces: the sample at
      index L0, which is the marker itself when the marker follows its sweep. */
  lemma FirstSweepHoldsExtraSample(rejectNegative: bool, angles: seq<real>, distances: seq<real>,
                                   estimate: Estimator)
    requires ValidInput(rejectNegative, angles, distances)
    requires |MarkerLengths(distances, NominalLength(angles, estimate))| > 0
    requires 0 <= MarkerLengths(distances, NominalLength(angles, estimate))[0] < |angles|
    ensures var l0 := MarkerLengths(distances, NominalLength(angles, estimate))[0];
            var record := Extract(rejectNegative, angles, distances, estimate).value[0];
            && |record.angles| == l0 + 1
            && record.angles[l0] == angles[l0]
            && record.distances[l0] * 1000.0 == distances[l0]
  {
    SweepSpan(MarkerLengths(distances, NominalLength(angles, estimate)), 0);
  }
}
