/** The RPLidar reader thread: measurements arrive one by one and are grouped
    into full 360-degree scans; the last complete scan is published for the
    display loop. */
module LidarScan {
  import opened Util

  /** One tuple of `iter_measures()`: the start-of-rotation flag, the signal
      quality, the angle in degrees and the distance in millimetres. */
  datatype Measure = Measure(newScan: bool, quality: int, angle: real, distance: real)

  /** An `(angle, distance)` pair as stored in a scan. */
  datatype Point = Point(angle: real, distance: real)

  type Scan = seq<Point>

  function PointOf(m: Measure): Point {
    Point(m.angle, m.distance)
  }

  /** The measurements with their quality dropped, in arrival order. */
  function Points(ms: seq<Measure>): (ps: Scan)
    ensures |ps| == |ms|
    ensures forall i :: 0 <= i < |ms| ==> ps[i] == PointOf(ms[i])
  {
    seq(|ms|, i requires 0 <= i < |ms| => PointOf(ms[i]))
  }

  /** Scans joined in order. */
  function Flatten(scans: seq<Scan>): Scan {
    if scans == [] then [] else Flatten(scans[..|scans| - 1]) + scans[|scans| - 1]
  }

  /** The scans completed so far and the scan being filled. */
  datatype Segmentation = Segmentation(published: seq<Scan>, current: Scan)

  /** What the reader loop has built after consuming `ms`: a measurement that
      starts a rotation closes the current scan, unless that scan is empty,
      and is then appended to the (new) current scan. */
  function Segment(ms: seq<Measure>): Segmentation
    decreases |ms|
  {
    if ms == [] then Segmentation([], [])
    else
      var s := Segment(ms[..|ms| - 1]);
      var m := ms[|ms| - 1];
      if m.newScan && s.current != [] then Segmentation(s.published + [s.current], [PointOf(m)])
      else Segmentation(s.published, s.current + [PointOf(m)])
  }

  predicate IsNewScan(m: Measure) {
    m.newScan
  }

  /** No scan the reader closes is empty, and the scan in progress is empty
      only before the first measurement. */
  lemma {:induction false} SegmentScansNonEmpty(ms: seq<Measure>)
    ensures forall k :: 0 <= k < |Segment(ms).published| ==> Segment(ms).published[k] != []
    ensures Segment(ms).current == [] <==> ms == []
    decreases |ms|
  {
    if ms != [] {
      SegmentScansNonEmpty(ms[..|ms| - 1]);
    }
  }

  /** The closed scans followed by the scan in progress are exactly the
      consumed points, in arrival order. */
  lemma {:induction false} SegmentKeepsStream(ms: seq<Measure>)
    ensures Flatten(Segment(ms).published) + Segment(ms).current == Points(ms)
    decreases |ms|
  {
    if ms != [] {
      var prefix := ms[..|ms| - 1];
      var m := ms[|ms| - 1];
      SegmentKeepsStream(prefix);
      var s := Segment(prefix);
      assert Points(ms) == Points(prefix) + [PointOf(m)];
      if m.newScan && s.current != [] {
        var pub := s.published + [s.current];
        assert pub[..|pub| - 1] == s.published;
      }
    }
  }

  /** One scan is closed per start-of-rotation measurement after the first
      measurement. */
  lemma {:induction false} SegmentCountsRotations(ms: seq<Measure>)
    requires ms != []
    ensures |Segment(ms).published| == |Filter(ms[1..], IsNewScan)|
    decreases |ms|
  {
    var prefix := ms[..|ms| - 1];
    var m := ms[|ms| - 1];
    if prefix == [] {
      assert ms[1..] == [];
    } else {
      SegmentCountsRotations(prefix);
      SegmentScansNonEmpty(prefix);
      assert ms[1..] == prefix[1..] + [m];
      FilterConcat(prefix[1..], [m], IsNewScan);
    }
  }

  /** Every scan after the first begins with a start-of-rotation measurement:
      the measurement at the position where that scan starts. */
  lemma {:induction false} SegmentScansStartRotations(ms: seq<Measure>)
    ensures forall k :: 1 <= k <= |Segment(ms).published| ==>
      (|Flatten(Segment(ms).published[..k])| < |ms| && ms[|Flatten(Segment(ms).published[..k])|].newScan)
    decreases |ms|
  {
    if ms != [] {
      var prefix := ms[..|ms| - 1];
      var m := ms[|ms| - 1];
      SegmentScansStartRotations(prefix);
      SegmentKeepsStream(prefix);
      var s := Segment(prefix);
      var pub := Segment(ms).published;
      if m.newScan && s.current != [] {
        assert pub == s.published + [s.current];
        forall k | 1 <= k <= |pub|
          ensures |Flatten(pub[..k])| < |ms| && ms[|Flatten(pub[..k])|].newScan
        {
          if k < |pub| {
            assert pub[..k] == s.published[..k];
            assert ms[|Flatten(pub[..k])|] == prefix[|Flatten(pub[..k])|];
          } else {
            assert pub[..k] == pub;
            assert pub[..|pub| - 1] == s.published;
          }
        }
      } else {
        assert pub == s.published;
        forall k | 1 <= k <= |pub|
          ensures |Flatten(pub[..k])| < |ms| && ms[|Flatten(pub[..k])|].newScan
        {
          assert ms[|Flatten(pub[..k])|] == prefix[|Flatten(pub[..k])|];
        }
      }
    }
  }

  /** `lidar_data` after the scans `published`, starting from `initial`. */
  function LastPublished(published: seq<Scan>, initial: Scan): Scan {
    if published == [] then initial else published[|published| - 1]
  }

  /** The number of measurements the loop consumes when `lidar_running` is
      first seen false before measurement `stopAt`. */
  function Consumed(measures: seq<Measure>, stopAt: nat): nat {
    Min(stopAt, |measures|)
  }

  /** The shared `lidar_data` the display loop reads under `lidar_lock`. */
  class LidarFeed {
    var lidarData: Scan

    constructor ()
      ensures lidarData == []
    {
      lidarData := [];
    }

    /** The measurement loop of `lidar_thread`. `measures` is what
        `iter_measures()` yields; `lidar_running` is observed false from
        measurement `stopAt` on (never, when `stopAt >= |measures|`). */
    method LidarThread(measures: seq<Measure>, stopAt: nat)
      modifies this
      ensures lidarData == LastPublished(Segment(measures[..Consumed(measures, stopAt)]).published, old(lidarData))
    {
      var currentScan: Scan := [];
      ghost var published: seq<Scan> := [];
      var i := 0;
      while i < |measures|
        invariant 0 <= i <= |measures| && i <= stopAt
        invariant Segment(measures[..i]) == Segmentation(published, currentScan)
        invariant lidarData == LastPublished(published, old(lidarData))
      {
        if i >= stopAt {
          break;
        }
        var m := measures[i];
        assert measures[..i + 1][..i] == measures[..i];
        if m.newScan && currentScan != [] {
          lidarData := currentScan;
          published := published + [currentScan];
          currentScan := [];
        }
        currentScan := currentScan + [PointOf(m)];
        i := i + 1;
      }
    }
  }

  /** Whatever the stream, the published data is a complete scan: it is
      never empty unless nothing was ever published, and it never holds the
      partial scan in progress when the loop stops. */
  lemma PublishedScanNeverEmpty(measures: seq<Measure>, stopAt: nat, initial: Scan)
    requires initial != []
    ensures LastPublished(Segment(measures[..Consumed(measures, stopAt)]).published, initial) != []
  {
    SegmentScansNonEmpty(measures[..Consumed(measures, stopAt)]);
  }

  /** `angle % 360` on Python floats, for a positive modulus. */
  function Mod360(a: real): (r: real)
    ensures 0.0 <= r < 360.0
    ensures ((a - r) / 360.0).Floor as real == (a - r) / 360.0
  {
    var k := (a / 360.0).Floor;
    a - 360.0 * k as real
  }

  /** Angles a full turn apart normalise to the same value. */
  lemma Mod360FullTurn(a: real)
    ensures Mod360(a + 360.0) == Mod360(a)
  {
    assert ((a + 360.0) / 360.0).Floor == (a / 360.0).Floor + 1;
  }

  /** Normalising an angle that is already in range leaves it unchanged. */
  lemma Mod360InRange(a: real)
    requires 0.0 <= a < 360.0
    ensures Mod360(a) == a
  {
    assert (a / 360.0).Floor == 0;
  }
}
