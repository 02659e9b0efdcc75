/** Concrete inputs from the source's test suite, boundary inputs at the
    angle limit, and short streams of sweeps followed by their length
    markers, worked out on the model. */
module Scenarios {
  import opened Common
  import opened Segmenter
  import LidarUtils
  import LidarAnalysis
  import Join
  import Layout

  lemma EmptyArraysRejected(estimate: Estimator)
    ensures LidarUtils.ExtractSweepsFromMeasurements([], [], estimate) == Err(ValidationError(EmptyArray))
  {
  }

  lemma DifferentLengthsRejected(estimate: Estimator)
    ensures LidarUtils.ExtractSweepsFromMeasurements([0.0, 90.0, 180.0], [1.0, 2.0], estimate)
            == Err(ValidationError(LengthMismatch))
  {
  }

  lemma AngleBeyondFullTurnRejected(estimate: Estimator)
    ensures LidarUtils.ExtractSweepsFromMeasurements([0.0, 90.0, 360.0, 450.0], [1.0, 2.0, 3.0, 4.0], estimate)
            == Err(ValidationError(AngleOutOfRange))
  {
    assert !AnglesInRange([0.0, 90.0, 360.0, 450.0]) by {
      assert [0.0, 90.0, 360.0, 450.0][3] == 450.0;
    }
  }

  /** A boundary input: an angle just past a full turn. */
  lemma AngleJustPastFullTurnRejected(estimate: Estimator)
    ensures LidarUtils.ExtractSweepsFromMeasurements([0.0, 360.0001], [1.0, 2.0], estimate)
            == Err(ValidationError(AngleOutOfRange))
  {
    assert !AnglesInRange([0.0, 360.0001]) by {
      assert [0.0, 360.0001][1] == 360.0001;
    }
  }

  /** A boundary input: an angle of exactly a full turn. */
  lemma FullTurnAccepted(estimate: Estimator)
    ensures LidarUtils.ExtractSweepsFromMeasurements([0.0, 360.0], [1.0, 2.0], estimate).Ok?
  {
  }

  /** Only the library copy refuses a negative distance. */
  lemma NegativeDistanceOnlyLibraryRejects(estimate: Estimator)
    ensures LidarUtils.ExtractSweepsFromMeasurements([0.0, 90.0, 180.0, 270.0], [1.0, 2.0, -3.0, 4.0], estimate)
            == Err(ValidationError(NegativeDistance))
    ensures LidarAnalysis.ExtractSweepsFromMeasurements([0.0, 90.0, 180.0, 270.0], [1.0, 2.0, -3.0, 4.0], estimate).Ok?
  {
    assert !NonNegative([1.0, 2.0, -3.0, 4.0]) by {
      assert [1.0, 2.0, -3.0, 4.0][2] == -3.0;
    }
  }

  // A short stream: three samples, then the marker 3.

  lemma ExampleStreamValid()
    ensures ValidInput(true, [0.0, 120.0, 240.0, 3.0], [10.0, 10.0, 10.0, 3.0])
  {
  }

  lemma ExampleRounding()
    ensures RoundsToZero(0.0)
    ensures !RoundsToZero(120.0) && !RoundsToZero(240.0) && !RoundsToZero(3.0)
  {
    Numpy.RoundsToZeroIff(0.0);
    Numpy.RoundsToZeroIff(120.0);
    Numpy.RoundsToZeroIff(240.0);
    Numpy.RoundsToZeroIff(3.0);
  }

  lemma ExampleCrossingMask()
    ensures Numpy.IndicesWhere([0.0, 120.0, 240.0, 3.0], RoundsToZero) == [0]
  {
    var angles := [0.0, 120.0, 240.0, 3.0];
    ExampleRounding();
    Numpy.IndicesWherePrefixStep(angles, RoundsToZero, 0);
    Numpy.IndicesWherePrefixStep(angles, RoundsToZero, 1);
    Numpy.IndicesWherePrefixStep(angles, RoundsToZero, 2);
    Numpy.IndicesWherePrefixStep(angles, RoundsToZero, 3);
    assert angles[..4] == angles;
  }

  lemma ExampleZeroCrossings()
    ensures ZeroCrossings([0.0, 120.0, 240.0, 3.0]) == [0]
  {
    ExampleCrossingMask();
  }

  lemma ExampleNoGaps()
    ensures Gaps([0.0, 120.0, 240.0, 3.0]) == []
  {
    ExampleZeroCrossings();
  }

  lemma ExampleMarkers()
    ensures MarkerPositions([10.0, 10.0, 10.0, 3.0], 3.0) == [3]
  {
    var distances := [10.0, 10.0, 10.0, 3.0];
    assert ToleranceWindow(3.0) == [1.0, 2.0, 3.0, 4.0, 5.0];
    var three := MarkerTest(3.0);
    assert !three(10.0) && three(3.0);
    Numpy.IndicesWherePrefixStep(distances, three, 0);
    Numpy.IndicesWherePrefixStep(distances, three, 1);
    Numpy.IndicesWherePrefixStep(distances, three, 2);
    Numpy.IndicesWherePrefixStep(distances, three, 3);
    assert distances[..4] == distances;
  }

  lemma ExampleNoMarkersAroundZero()
    ensures MarkerPositions([10.0, 10.0, 10.0, 3.0], 0.0) == []
  {
    var distances := [10.0, 10.0, 10.0, 3.0];
    assert ToleranceWindow(0.0) == [-2.0, -1.0, 0.0, 1.0, 2.0];
    var zero := MarkerTest(0.0);
    assert !zero(10.0) && !zero(3.0);
    Numpy.IndicesWherePrefixStep(distances, zero, 0);
    Numpy.IndicesWherePrefixStep(distances, zero, 1);
    Numpy.IndicesWherePrefixStep(distances, zero, 2);
    Numpy.IndicesWherePrefixStep(distances, zero, 3);
    assert distances[..4] == distances;
  }

  lemma ExampleRecord()
    ensures SweepAt([0.0, 120.0, 240.0, 3.0], [10.0, 10.0, 10.0, 3.0], [3], 0)
            == SweepRecord([0.0, 120.0, 240.0, 3.0], [0.01, 0.01, 0.01, 0.003], None, None)
  {
    Numpy.SumPrefixStep([3], 0);
    assert SweepBounds([3], 0) == (0, 4);
    var distances := [10.0, 10.0, 10.0, 3.0];
    assert Numpy.Slice(distances, 0, 4) == distances;
    assert Numpy.ScaleBy(distances, 0.001) == [0.01, 0.01, 0.01, 0.003];
  }

  /** With a nominal length of 3 the single sweep holds all four samples,
      the marker included. */
  lemma MarkerAfterSweepIsKept()
    ensures LidarUtils.ExtractSweepsFromMeasurements(
              [0.0, 120.0, 240.0, 3.0], [10.0, 10.0, 10.0, 3.0], _ => 3.0)
            == Ok([SweepRecord([0.0, 120.0, 240.0, 3.0], [0.01, 0.01, 0.01, 0.003], None, None)])
  {
    var angles, distances := [0.0, 120.0, 240.0, 3.0], [10.0, 10.0, 10.0, 3.0];
    var estimate: Estimator := _ => 3.0;
    ExampleStreamValid();
    ExampleMarkers();
    ExampleRecord();
    var lengths := [3];
    assert MarkerLengths(distances, NominalLength(angles, estimate)) == lengths;
    var records := seq(|lengths|, k requires 0 <= k < |lengths| => SweepAt(angles, distances, lengths, k));
    assert Extract(true, angles, distances, estimate) == Ok(records);
    assert records == [SweepAt(angles, distances, lengths, 0)];
  }

  /** The same stream has a single zero crossing, so the gap list is empty.
      numpy's histogram of an empty list reports the left edge 0, the window
      becomes {-2, ..., 2} and no sample is a marker. */
  lemma SingleCrossingFindsNoSweep()
    ensures LidarUtils.ExtractSweepsFromMeasurements(
              [0.0, 120.0, 240.0, 3.0], [10.0, 10.0, 10.0, 3.0], g => if |g| == 0 then 0.0 else 3.0)
            == Ok([])
  {
    var angles, distances := [0.0, 120.0, 240.0, 3.0], [10.0, 10.0, 10.0, 3.0];
    var estimate: Estimator := g => if |g| == 0 then 0.0 else 3.0;
    ExampleStreamValid();
    ExampleNoGaps();
    ExampleNoMarkersAroundZero();
    assert NominalLength(angles, estimate) == 0.0;
  }

  // Two sweeps of three samples, each followed by the marker 3.

  const TwoSweepAngles: seq<real> := [0.0, 120.0, 240.0, 300.0, 0.0, 120.0, 240.0, 300.0]
  const TwoSweepDistances: seq<real> := [10.0, 10.0, 10.0, 3.0, 20.0, 20.0, 20.0, 3.0]

  /** numpy's histogram of the single gap 4 spans [3.5, 4.5] in ten bins;
      the gap falls in the bin [4.0, 4.1), whose left edge 4.0 becomes the
      nominal length. This estimator gives that value on that gap list. */
  function TwoSweepEstimate(gaps: seq<int>): real {
    if gaps == [4] then 4.0 else 0.0
  }

  lemma TwoSweepAnglesInRange()
    ensures AnglesInRange(TwoSweepAngles)
  {
  }

  lemma TwoSweepCrossingAt(i: nat)
    requires i < |TwoSweepAngles|
    ensures i in ZeroCrossings(TwoSweepAngles) <==> i == 0 || i == 4
  {
    TwoSweepAnglesInRange();
    ZeroCrossingIffSmallAngle(TwoSweepAngles, i);
    if i == 0 || i == 4 {
      assert TwoSweepAngles[i] == 0.0;
    } else {
      assert TwoSweepAngles[i] >= 120.0;
    }
  }

  lemma TwoSweepCrossings()
    ensures ZeroCrossings(TwoSweepAngles) == [0, 4]
    ensures Gaps(TwoSweepAngles) == [4]
  {
    var z := ZeroCrossings(TwoSweepAngles);
    forall x
      ensures x in z <==> x in [0, 4]
    {
      if x in z {
        var j :| 0 <= j < |z| && z[j] == x;
        TwoSweepCrossingAt(x);
      }
      if x in [0, 4] {
        TwoSweepCrossingAt(x);
      }
    }
    Layout.IncreasingUnique(z, [0, 4]);
  }

  lemma TwoSweepSums()
    ensures Numpy.Sum([3, 3]) == 6
    ensures Layout.MarkerIndex([3, 3], 0) == 3
    ensures Layout.MarkerIndex([3, 3], 1) == 7
    ensures Layout.BlockStart([3, 3], 0) == 0
    ensures Layout.BlockStart([3, 3], 1) == 4
  {
    var lengths := [3, 3];
    assert lengths[..0] == [] && lengths[..1] == [3] && lengths[..2] == lengths && [3][..0] == [];
  }

  lemma TwoSweepWindowAt(i: nat)
    requires i < |TwoSweepDistances|
    ensures TwoSweepDistances[i] in ToleranceWindow(4.0) <==> i == 3 || i == 7
  {
    IntegralWindow(4, TwoSweepDistances[i]);
    if i == 3 || i == 7 {
      assert TwoSweepDistances[i] == 3.0;
    } else {
      assert TwoSweepDistances[i] >= 10.0;
    }
  }

  lemma TwoSweepMarkerAt(k: nat)
    requires k < 2
    ensures 0 <= Layout.MarkerIndex([3, 3], k) < |TwoSweepDistances|
    ensures TwoSweepDistances[Layout.MarkerIndex([3, 3], k)] == 3.0
  {
    if k == 0 {
      assert Layout.MarkerIndex([3, 3], 0) == 3 by {
        TwoSweepSums();
      }
      assert TwoSweepDistances[3] == 3.0;
    } else {
      assert k == 1;
      assert Layout.MarkerIndex([3, 3], 1) == 7 by {
        TwoSweepSums();
      }
      assert TwoSweepDistances[7] == 3.0;
    }
  }

  lemma TwoSweepMarkersFound()
    ensures forall i :: 0 <= i < |TwoSweepDistances| && TwoSweepDistances[i] in ToleranceWindow(4.0) ==>
              exists k :: 0 <= k < |[3, 3]| && Layout.MarkerIndex([3, 3], k) == i
  {
    var lengths, d := [3, 3], TwoSweepDistances;
    forall i | 0 <= i < |d| && d[i] in ToleranceWindow(4.0)
      ensures exists k :: 0 <= k < |lengths| && Layout.MarkerIndex(lengths, k) == i
    {
      TwoSweepWindowAt(i);
      TwoSweepSums();
      if i == 3 {
        assert Layout.MarkerIndex(lengths, 0) == i;
      } else {
        assert Layout.MarkerIndex(lengths, 1) == i;
      }
    }
  }

  lemma TwoSweepMarkersPlaced()
    ensures forall k :: 0 <= k < |[3, 3]| ==>
              && 0 <= Layout.MarkerIndex([3, 3], k) < |TwoSweepDistances|
              && TwoSweepDistances[Layout.MarkerIndex([3, 3], k)] == [3, 3][k] as real
  {
    forall k | 0 <= k < |[3, 3]|
      ensures 0 <= Layout.MarkerIndex([3, 3], k) < |TwoSweepDistances|
      ensures TwoSweepDistances[Layout.MarkerIndex([3, 3], k)] == [3, 3][k] as real
    {
      TwoSweepMarkerAt(k);
    }
  }

  lemma TwoSweepLayout()
    ensures Layout.MarkersFollowSweeps([3, 3], TwoSweepDistances, 4.0)
  {
    TwoSweepMarkersFound();
    TwoSweepMarkersPlaced();
    assert |TwoSweepDistances| == Numpy.Sum([3, 3]) + |[3, 3]| by {
      TwoSweepSums();
    }
  }

  lemma TwoSweepBounds()
    ensures SweepBounds([3, 3], 0) == (0, 4)
    ensures SweepBounds([3, 3], 1) == (5, 8)
  {
    var lengths := [3, 3];
    assert lengths[..1] == [3] && lengths[..2] == lengths;
    TwoSweepSums();
  }

  lemma TwoSweepFirstRecord()
    ensures SweepAt(TwoSweepAngles, TwoSweepDistances, [3, 3], 0)
            == SweepRecord([0.0, 120.0, 240.0, 300.0], [0.01, 0.01, 0.01, 0.003], None, None)
  {
    TwoSweepBounds();
    var rec := RecordBetween(TwoSweepAngles, TwoSweepDistances, 0, 4);
    assert rec.angles == TwoSweepAngles[0..4];
    assert rec.distances == [0.01, 0.01, 0.01, 0.003] by {
      assert |rec.distances| == 4;
      assert rec.distances[0] * 1000.0 == 10.0;
      assert rec.distances[1] * 1000.0 == 10.0;
      assert rec.distances[2] * 1000.0 == 10.0;
      assert rec.distances[3] * 1000.0 == 3.0;
    }
  }

  lemma TwoSweepSecondRecord()
    ensures SweepAt(TwoSweepAngles, TwoSweepDistances, [3, 3], 1)
            == SweepRecord([120.0, 240.0, 300.0], [0.02, 0.02, 0.003], None, None)
  {
    TwoSweepBounds();
    var rec := RecordBetween(TwoSweepAngles, TwoSweepDistances, 5, 8);
    assert rec.angles == TwoSweepAngles[5..8];
    assert rec.distances == [0.02, 0.02, 0.003] by {
      assert |rec.distances| == 3;
      assert rec.distances[0] * 1000.0 == 20.0;
      assert rec.distances[1] * 1000.0 == 20.0;
      assert rec.distances[2] * 1000.0 == 3.0;
    }
  }

  lemma TwoSweepValid()
    ensures ValidInput(true, TwoSweepAngles, TwoSweepDistances)
    ensures NominalLength(TwoSweepAngles, TwoSweepEstimate) == 4.0
  {
    TwoSweepAnglesInRange();
    TwoSweepCrossings();
  }

  lemma TwoSweepExtracted()
    ensures var r := Extract(true, TwoSweepAngles, TwoSweepDistances, TwoSweepEstimate);
            && r.Ok? && |r.value| == 2
            && r.value[0] == SweepAt(TwoSweepAngles, TwoSweepDistances, [3, 3], 0)
            && r.value[1] == SweepAt(TwoSweepAngles, TwoSweepDistances, [3, 3], 1)
  {
    TwoSweepValid();
    TwoSweepLayout();
    Layout.MarkersFollowingSweepsRoundTrip(true, TwoSweepAngles, TwoSweepDistances, TwoSweepEstimate, [3, 3], 4);
  }

  /** With a nominal length of 4, as the histogram gives for this stream,
      each record ends with its marker and the second record misses its
      block's first sample (the second zero crossing). */
  lemma MarkersAfterSweepsShiftLaterSweeps()
    ensures LidarUtils.ExtractSweepsFromMeasurements(TwoSweepAngles, TwoSweepDistances, TwoSweepEstimate)
            == Ok([SweepRecord([0.0, 120.0, 240.0, 300.0], [0.01, 0.01, 0.01, 0.003], None, None),
                   SweepRecord([120.0, 240.0, 300.0], [0.02, 0.02, 0.003], None, None)])
  {
    var r := Extract(true, TwoSweepAngles, TwoSweepDistances, TwoSweepEstimate);
    TwoSweepExtracted();
    TwoSweepFirstRecord();
    TwoSweepSecondRecord();
    PairOf(r.value);
  }

  lemma PairOf<T>(s: seq<T>)
    requires |s| == 2
    ensures s == [s[0], s[1]]
  {
  }

  /** Two sweeps and a two-entry flight path: each sweep gets its position;
      an id past the list is a lookup failure. */
  lemma JoinTwoSweeps(a: SweepRecord, b: SweepRecord)
    ensures Join.JoinFlightPath([a, b], [0, 1], [(1.0, 2.0), (3.0, 4.0)])
            == Ok([a.(sweepId := Some(0), coordinates := Some((1.0, 2.0))),
                   b.(sweepId := Some(1), coordinates := Some((3.0, 4.0)))])
    ensures Join.JoinFlightPath([a, b], [5], [(1.0, 2.0), (3.0, 4.0)]) == Err(LookupError(5))
  {
    var ids: seq<UInt8> := [0, 1];
    var path: seq<Point> := [(1.0, 2.0), (3.0, 4.0)];
    assert Join.Listed(ids, 0) && Join.Listed(ids, 1) by {
      assert ids[0] == 0 && ids[1] == 1;
    }
    var r := Join.JoinFlightPath([a, b], ids, path);
    assert r.Ok?;
    assert r.value[0] == Join.Attach(a, 0, path[0]);
    assert r.value[1] == Join.Attach(b, 1, path[1]);
    assert r.value == [Join.Attach(a, 0, path[0]), Join.Attach(b, 1, path[1])];
    var bad: seq<UInt8> := [5];
    assert !Join.Resolvable(bad[0], [a, b], path);
  }
}
