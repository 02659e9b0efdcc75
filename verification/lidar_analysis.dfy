/** `lidar_analysis.py`: a copy of the segmenter without the negative-distance
    check, and a driver that joins its sweeps with the flight path. */
module LidarAnalysis {
  import opened Common
  import opened Segmenter
  import Join
  import LidarUtils

  function ExtractSweepsFromMeasurements(angles: seq<real>, distances: seq<real>, estimate: Estimator)
    : (r: Result<seq<SweepRecord>>)
    ensures r.Ok? <==> |angles| == |distances| > 0 && AnglesInRange(angles)
    ensures r.Ok? ==>
              |r.value| == |MarkerPositions(distances, NominalLength(angles, estimate))|
  {
    Extract(false, angles, distances, estimate)
  }

  /** On non-negative distances this copy and the library copy produce the
      same sweeps; on negative ones only the library copy refuses. */
  lemma AgreesWithLibraryCopy(angles: seq<real>, distances: seq<real>, estimate: Estimator)
    ensures NonNegative(distances) ==>
              ExtractSweepsFromMeasurements(angles, distances, estimate)
              == LidarUtils.ExtractSweepsFromMeasurements(angles, distances, estimate)
    ensures |angles| == |distances| > 0 && AnglesInRange(angles) && !NonNegative(distances) ==>
              && ExtractSweepsFromMeasurements(angles, distances, estimate).Ok?
              && LidarUtils.ExtractSweepsFromMeasurements(angles, distances, estimate)
                 == Err(ValidationError(NegativeDistance))
  {
  }

  /** The driver after reading the files: segment, then attach to sweep `id`
      the id itself and the flight-path position at index `id`. */
  function CombineWithFlightPath(angles: seq<real>, distances: seq<real>, estimate: Estimator,
                                 sweepIds: seq<UInt8>, pathCoordinates: seq<Point>)
    : (r: Result<seq<SweepRecord>>)
    ensures r.Ok? <==>
              && |angles| == |distances| > 0 && AnglesInRange(angles)
              && forall j :: 0 <= j < |sweepIds| ==>
                   && sweepIds[j] < |MarkerPositions(distances, NominalLength(angles, estimate))|
                   && sweepIds[j] < |pathCoordinates|
    ensures r.Ok? ==> |r.value| == |MarkerPositions(distances, NominalLength(angles, estimate))|
    ensures r.Ok? ==> forall j :: 0 <= j < |sweepIds| ==>
              && r.value[sweepIds[j]].sweepId == Some(sweepIds[j] as int)
              && r.value[sweepIds[j]].coordinates == Some(pathCoordinates[sweepIds[j]])
  {
    var sweeps :- ExtractSweepsFromMeasurements(angles, distances, estimate);
    var joined := Join.JoinFlightPath(sweeps, sweepIds, pathCoordinates);
    assert joined.Ok? ==> forall j :: 0 <= j < |sweepIds| ==> Join.Listed(sweepIds, sweepIds[j]);
    joined
  }
}
