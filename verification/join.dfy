/** The sweep/position join in the drivers' `main`: for every sweep id of the
    flight path, the record at that index gets the id and the position the
    path gives at that same index. */
module Join {
  import opened Common

  /** `i` occurs among the flight path's sweep ids. */
  predicate Listed(sweepIds: seq<UInt8>, i: int) {
    exists j :: 0 <= j < |sweepIds| && sweepIds[j] == i
  }

  /** Both list lookups of the join succeed for `id`. */
  predicate Resolvable(id: int, sweeps: seq<SweepRecord>, coordinates: seq<Point>) {
    id < |sweeps| && id < |coordinates|
  }

  /** The dictionary update of one record. */
  function Attach(record: SweepRecord, id: int, position: Point): (r: SweepRecord)
    ensures r.angles == record.angles && r.distances == record.distances
    ensures r.sweepId == Some(id) && r.coordinates == Some(position)
  {
    record.(sweepId := Some(id), coordinates := Some(position))
  }

  /** An id is listed when it heads the list or is listed in the rest. */
  lemma ListedCons(sweepIds: seq<UInt8>)
    requires |sweepIds| > 0
    ensures forall i :: Listed(sweepIds, i) <==> i == sweepIds[0] as int || Listed(sweepIds[1..], i)
  {
    forall i | Listed(sweepIds, i) && i != sweepIds[0] as int ensures Listed(sweepIds[1..], i) {
      var j :| 0 <= j < |sweepIds| && sweepIds[j] == i;
      assert sweepIds[1..][j - 1] == i;
    }
    forall i | Listed(sweepIds[1..], i) ensures Listed(sweepIds, i) {
      var j :| 0 <= j < |sweepIds[1..]| && sweepIds[1..][j] == i;
      assert sweepIds[j + 1] == i;
    }
  }

  /** The join loop. An id past the end of either list raises (the record
      lookup first); the raise aborts the driver, so no list is returned. */
  function JoinFlightPath(sweeps: seq<SweepRecord>, sweepIds: seq<UInt8>, coordinates: seq<Point>)
    : (r: Result<seq<SweepRecord>>)
    ensures r.Ok? <==> forall j :: 0 <= j < |sweepIds| ==> Resolvable(sweepIds[j], sweeps, coordinates)
    ensures r.Err? ==> exists j :: && 0 <= j < |sweepIds|
                                   && r.error == LookupError(sweepIds[j])
                                   && !Resolvable(sweepIds[j], sweeps, coordinates)
                                   && forall i :: 0 <= i < j ==> Resolvable(sweepIds[i], sweeps, coordinates)
    ensures r.Ok? ==> |r.value| == |sweeps|
    ensures r.Ok? ==> forall i :: 0 <= i < |sweeps| ==>
              && r.value[i].angles == sweeps[i].angles
              && r.value[i].distances == sweeps[i].distances
    ensures r.Ok? ==> forall i :: 0 <= i < |sweeps| ==>
              r.value[i] == if Listed(sweepIds, i) then Attach(sweeps[i], i, coordinates[i]) else sweeps[i]
    decreases |sweepIds|
  {
    if |sweepIds| == 0 then Ok(sweeps)
    else
      var id := sweepIds[0] as int;
      if !Resolvable(id, sweeps, coordinates) then Err(LookupError(id))
      else
        var updated := sweeps[id := Attach(sweeps[id], id, coordinates[id])];
        var rest := JoinFlightPath(updated, sweepIds[1..], coordinates);
        ListedCons(sweepIds);
        if rest.Err? then
          var j :| && 0 <= j < |sweepIds[1..]|
                   && rest.error == LookupError(sweepIds[1..][j])
                   && !Resolvable(sweepIds[1..][j], updated, coordinates)
                   && forall i :: 0 <= i < j ==> Resolvable(sweepIds[1..][i], updated, coordinates);
          assert sweepIds[j + 1] == sweepIds[1..][j];
          rest
        else
          rest
  }

  /** The join's outcome depends only on which ids occur: any reordering or
      repetition of the flight path's ids gives the same records. */
  lemma JoinIgnoresOrderAndRepetition(sweeps: seq<SweepRecord>, ids1: seq<UInt8>, ids2: seq<UInt8>,
                                      coordinates: seq<Point>)
    requires forall i :: Listed(ids1, i) <==> Listed(ids2, i)
    ensures JoinFlightPath(sweeps, ids1, coordinates).Ok? == JoinFlightPath(sweeps, ids2, coordinates).Ok?
    ensures JoinFlightPath(sweeps, ids1, coordinates).Ok? ==>
              JoinFlightPath(sweeps, ids1, coordinates).value == JoinFlightPath(sweeps, ids2, coordinates).value
  {
    var r1, r2 := JoinFlightPath(sweeps, ids1, coordinates), JoinFlightPath(sweeps, ids2, coordinates);
    if r1.Ok? {
      forall j | 0 <= j < |ids2| ensures Resolvable(ids2[j], sweeps, coordinates) {
        assert Listed(ids2, ids2[j]);
        var k :| 0 <= k < |ids1| && ids1[k] == ids2[j];
      }
      assert r2.Ok?;
      assert r1.value == r2.value;
    } else if r2.Ok? {
      forall j | 0 <= j < |ids1| ensures Resolvable(ids1[j], sweeps, coordinates) {
        assert Listed(ids1, ids1[j]);
        var k :| 0 <= k < |ids2| && ids2[k] == ids1[j];
      }
      assert false;
    }
  }
}
