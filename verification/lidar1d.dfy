/** `lidar1D.py`: a copy of the segmenter without the negative-distance check;
    its driver segments and stops. */
module Lidar1D {
  import opened Common
  import opened Segmenter
  import LidarUtils

  function ExtractSweepsFromMeasurements(angles: seq<real>, distances: seq<real>, estimate: Estimator)
    : (r: Result<seq<SweepRecord>>)
    ensures r.Ok? <==> |angles| == |distances| > 0 && AnglesInRange(angles)
    ensures r.Ok? ==>
              |r.value| == |MarkerPositions(distances, NominalLength(angles, estimate))|
    ensures r.Ok? ==> forall k :: 0 <= k < |r.value| ==>
              |r.value[k].angles| == |r.value[k].distances|
  {
    Extract(false, angles, distances, estimate)
  }

  /** On non-negative distances this copy and the library copy produce the
      same sweeps; on negative ones only the library copy refuses. */
  lemma AgreesWithLibraryCopy(angles: seq<real>, distances: seq<real>, estimate: Estimator)
    ensures NonNegative(distances) ==>
              ExtractSweepsFromMeasurements(angles, distances, estimate)
              == LidarUtils.ExtractSweepsFromMeasurements(angles, distances, estimate)
    ensures |angles| == |distances| > 0 && AnglesInRange(angles) && !NonNegative(distances) ==>
              && ExtractSweepsFromMeasurements(angles, distances, estimate).Ok?
              && LidarUtils.ExtractSweepsFromMeasurements(angles, distances, estimate)
                 == Err(ValidationError(NegativeDistance))
  {
  }
}
