/** `libs/lidarutils.py`: the copy of the segmenter the tests exercise, the
    only one that refuses negative distances. */
module LidarUtils {
  import opened Common
  import opened Segmenter

  function ExtractSweepsFromMeasurements(angles: seq<real>, distances: seq<real>, estimate: Estimator)
    : (r: Result<seq<SweepRecord>>)
    ensures r.Ok? <==> |angles| == |distances| > 0 && NonNegative(distances) && AnglesInRange(angles)
    ensures |angles| == |distances| > 0 && !NonNegative(distances) ==>
              r == Err(ValidationError(NegativeDistance))
    ensures r.Ok? ==>
              |r.value| == |MarkerPositions(distances, NominalLength(angles, estimate))|
    ensures r.Ok? ==> forall k :: 0 <= k < |MarkerLengths(distances, NominalLength(angles, estimate))| ==>
              MarkerLengths(distances, NominalLength(angles, estimate))[k] >= 0
  {
    MarkerLengthsNonNegative(distances, NominalLength(angles, estimate));
    Extract(true, angles, distances, estimate)
  }

  /** In this copy the sweeps never overlap and come in stream order: the
      announced lengths are non-negative, so each sweep ends before the next
      begins. */
  lemma SweepsDisjointInOrder(angles: seq<real>, distances: seq<real>, estimate: Estimator, j: nat, k: nat)
    requires ExtractSweepsFromMeasurements(angles, distances, estimate).Ok?
    requires j < k < |MarkerLengths(distances, NominalLength(angles, estimate))|
    ensures var lengths := MarkerLengths(distances, NominalLength(angles, estimate));
            SweepBounds(lengths, j).0 <= SweepBounds(lengths, j).1 < SweepBounds(lengths, k).0
  {
    var lengths := MarkerLengths(distances, NominalLength(angles, estimate));
    SweepsInOrder(lengths, j, k);
  }
}
