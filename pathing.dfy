/** The nearest-obstacle readout of the display loop: readings with no
    return are dropped, the closest remaining reading is reported with its
    angle normalised to a compass bearing. */
module Pathing {
  import opened Util
  import opened LidarScan

  predicate HasReturn(p: Point) {
    p.distance > 0.0
  }

  /** `valid_points`: the readings with a positive distance, in scan order. */
  function ValidPoints(data: Scan): Scan {
    Filter(data, HasReturn)
  }

  /** The valid points are exactly the readings with a return, in scan order. */
  lemma ValidPointsExact(data: Scan, more: Scan)
    ensures forall p :: p in ValidPoints(data) <==> p in data && p.distance > 0.0
    ensures ValidPoints(data + more) == ValidPoints(data) + ValidPoints(more)
  {
    forall p
      ensures p in ValidPoints(data) <==> p in data && p.distance > 0.0
    {
      FilterMembership(data, HasReturn, p);
    }
    FilterConcat(data, more, HasReturn);
  }

  /** `min(points, key=lambda x: x[1])`: the position of the first reading
      of least distance, or -1 for no readings (where Python's `min` raises,
      which the caller avoids). */
  function NearestIndex(points: Scan): (i: int)
    ensures -1 <= i < |points|
    ensures i == -1 <==> points == []
  {
    if points == [] then -1
    else
      var rest := NearestIndex(points[1..]);
      if rest == -1 || points[0].distance <= points[1 + rest].distance then 0
      else 1 + rest
  }

  /** The nearest reading is no farther than any reading, and strictly nearer
      than every reading before it: ties go to the earliest. */
  lemma {:induction false} NearestIsFirstMinimum(points: Scan)
    requires points != []
    ensures forall j :: 0 <= j < |points| ==> points[NearestIndex(points)].distance <= points[j].distance
    ensures forall j :: 0 <= j < NearestIndex(points) ==> points[NearestIndex(points)].distance < points[j].distance
  {
    var rest := points[1..];
    if rest != [] {
      NearestIsFirstMinimum(rest);
      var r := NearestIndex(rest);
      assert forall j :: 1 <= j < |points| ==> points[j] == rest[j - 1];
    }
  }

  const AngleOffset := 0.0

  /** What the display loop writes over the frame for the current scan. */
  datatype Readout =
    | WaitingForLidar                          // "Waiting for LIDAR..."
    | NoValidPoints                            // nothing is written
    | Nearest(distance: real, angle: real)     // "Nearest: ... mm", "Angle: ... deg"

  /** The body of the display loop for one copy of `lidar_data`. */
  function ReadoutOf(data: Scan): (r: Readout)
    ensures r.WaitingForLidar? <==> data == []
    ensures r.Nearest? ==> 0.0 <= r.angle < 360.0 && r.distance > 0.0
  {
    if data == [] then WaitingForLidar
    else
      var valid := ValidPoints(data);
      if valid == [] then NoValidPoints
      else
        var nearest := valid[NearestIndex(valid)];
        assert nearest in valid;
        Nearest(nearest.distance, Mod360(nearest.angle - AngleOffset))
  }

  /** A nearest reading is reported exactly when some reading has a return;
      it is a reading of the scan, no farther than any reading with a return,
      and its bearing is its angle modulo 360. */
  lemma ReadoutReportsNearest(data: Scan)
    ensures ReadoutOf(data).Nearest? <==> exists p :: p in data && p.distance > 0.0
    ensures ReadoutOf(data).Nearest? ==>
      exists p :: p in data && p.distance == ReadoutOf(data).distance && p.distance > 0.0 &&
        ReadoutOf(data).angle == Mod360(p.angle) &&
        forall q :: q in data && q.distance > 0.0 ==> p.distance <= q.distance
  {
    ValidPointsExact(data, []);
    var valid := ValidPoints(data);
    if valid != [] {
      NearestIsFirstMinimum(valid);
      var p := valid[NearestIndex(valid)];
      assert p in valid;
      forall q | q in data && q.distance > 0.0
        ensures p.distance <= q.distance
      {
        var j :| 0 <= j < |valid| && valid[j] == q;
      }
    } else if data != [] {
      forall p | p in data
        ensures p.distance <= 0.0
      {
      }
    }
  }
}
