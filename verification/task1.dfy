/** `task1.py`: the driver that segments with the library copy and joins the
    sweeps with the flight path. */
module Task1 {
  import opened Common
  import opened Segmenter
  import Join
  import LidarUtils

  function CombineWithFlightPath(angles: seq<real>, distances: seq<real>, estimate: Estimator,
                                 sweepIds: seq<UInt8>, pathCoordinates: seq<Point>)
    : (r: Result<seq<SweepRecord>>)
    ensures r.Ok? <==>
              && |angles| == |distances| > 0 && NonNegative(distances) && AnglesInRange(angles)
              && forall j :: 0 <= j < |sweepIds| ==>
                   && sweepIds[j] < |MarkerPositions(distances, NominalLength(angles, estimate))|
                   && sweepIds[j] < |pathCoordinates|
    ensures r.Ok? ==> |r.value| == |MarkerPositions(distances, NominalLength(angles, estimate))|
    ensures r.Ok? ==> forall i :: 0 <= i < |r.value| ==>
              if Join.Listed(sweepIds, i)
              then r.value[i].sweepId == Some(i) && r.value[i].coordinates == Some(pathCoordinates[i])
              else r.value[i].sweepId.None? && r.value[i].coordinates.None?
  {
    var sweeps :- LidarUtils.ExtractSweepsFromMeasurements(angles, distances, estimate);
    Join.JoinFlightPath(sweeps, sweepIds, pathCoordinates)
  }
}
