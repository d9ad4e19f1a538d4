/** The camera view's lidar graphics: the danger colour of a distance, the
    frame edge and position a lidar angle is drawn at, and the marker the
    radar overlay draws for one reading. Pixel rounding and drawing are not
    modelled; positions are real numbers. */
module CameraOverlay {
  import opened LidarScan

  /** An OpenCV colour, in blue-green-red order. */
  datatype Bgr = Bgr(b: int, g: int, r: int)

  const DangerZone := 500.0
  const CautionZone := 1000.0

  const Gray := Bgr(50, 50, 50)
  const Red := Bgr(0, 0, 255)
  const Yellow := Bgr(0, 200, 255)
  const Green := Bgr(0, 255, 0)

  /** `get_danger_color(distance)`. */
  function DangerColour(distance: real): (c: Bgr)
    ensures c == Gray <==> distance == 0.0
    ensures c == Red <==> distance != 0.0 && distance < DangerZone
    ensures c == Yellow <==> DangerZone <= distance < CautionZone
    ensures c == Green <==> CautionZone <= distance
  {
    if distance == 0.0 then Gray
    else if distance < DangerZone then Red
    else if distance < CautionZone then Yellow
    else Green
  }

  /** Nearer readings never get a calmer colour: for positive distances the
      bands are ordered red, yellow, green. */
  lemma DangerBandsOrdered(d1: real, d2: real)
    requires 0.0 < d1 <= d2
    ensures DangerColour(d2) == Red ==> DangerColour(d1) == Red
    ensures DangerColour(d1) == Green ==> DangerColour(d2) == Green
  {
  }

  datatype Edge = Top | Right | Bottom | Left

  /** Where a lidar angle lands on the frame border: the edge and how far
      along the edge, as a fraction. */
  datatype Placement = Placement(edge: Edge, progress: real)

  predicate InTop(a: real) { 315.0 <= a || a < 45.0 }
  predicate InRight(a: real) { 45.0 <= a < 135.0 }
  predicate InBottom(a: real) { 135.0 <= a < 225.0 }
  predicate InLeft(a: real) { 225.0 <= a < 315.0 }

  /** The sector branches of `draw_danger_border`, after `angle % 360`. */
  function Place(angle: real): (p: Placement)
    ensures 0.0 <= p.progress < 1.0
    ensures p.edge == Top <==> InTop(Mod360(angle))
    ensures p.edge == Right <==> InRight(Mod360(angle))
    ensures p.edge == Bottom <==> InBottom(Mod360(angle))
    ensures p.edge == Left <==> InLeft(Mod360(angle))
  {
    var a := Mod360(angle);
    if 315.0 <= a || a < 45.0 then
      Placement(Top, if a >= 315.0 then (a - 315.0) / 90.0 else (a + 45.0) / 90.0)
    else if 45.0 <= a < 135.0 then Placement(Right, (a - 45.0) / 90.0)
    else if 135.0 <= a < 225.0 then Placement(Bottom, (a - 135.0) / 90.0)
    else Placement(Left, (a - 225.0) / 90.0)
  }

  /** Every normalised angle lies in exactly one of the four sectors. */
  lemma SectorsPartition(a: real)
    requires 0.0 <= a < 360.0
    ensures InTop(a) || InRight(a) || InBottom(a) || InLeft(a)
    ensures !(InTop(a) && InRight(a)) && !(InTop(a) && InBottom(a)) && !(InTop(a) && InLeft(a))
    ensures !(InRight(a) && InBottom(a)) && !(InRight(a) && InLeft(a)) && !(InBottom(a) && InLeft(a))
  {
  }

  /** Within a sector the progress grows with the angle. The top edge runs
      from 315 degrees, at progress 0, through 0 degrees, at progress one
      half, to 45 degrees. */
  lemma ProgressIncreases(a: real, b: real)
    requires 0.0 <= a < 360.0 && 0.0 <= b < 360.0
    ensures Place(315.0).progress == 0.0 && Place(0.0).progress == 0.5
    ensures !InTop(a) && !InTop(b) && Place(a).edge == Place(b).edge && a < b ==>
      Place(a).progress < Place(b).progress
    ensures InTop(a) && InTop(b) && a < b && (b < 45.0 || 315.0 <= a) ==>
      Place(a).progress < Place(b).progress
    ensures 315.0 <= a && b < 45.0 ==> Place(a).progress < Place(b).progress
  {
    Mod360InRange(a);
    Mod360InRange(b);
    Mod360InRange(315.0);
    Mod360InRange(0.0);
  }

  /** The pixel offset along its edge at which a placement is drawn in a
      frame `w` wide and `h` high; the bottom and left edges run backwards. */
  function Offset(p: Placement, w: real, h: real): real {
    match p.edge
    case Top => p.progress * w
    case Right => p.progress * h
    case Bottom => (1.0 - p.progress) * w
    case Left => (1.0 - p.progress) * h
  }

  /** On the bottom and left edges a larger angle is drawn nearer the start
      of the edge: 180 degrees is the middle of the bottom edge. */
  lemma ReversedEdges(a: real, b: real, w: real, h: real)
    requires 0.0 <= a < b < 360.0 && w > 0.0 && h > 0.0
    requires Place(a).edge == Place(b).edge && (Place(a).edge == Bottom || Place(a).edge == Left)
    ensures Offset(Place(b), w, h) < Offset(Place(a), w, h)
    ensures Offset(Place(180.0), w, h) == w / 2.0
  {
    ProgressIncreases(a, b);
    Mod360InRange(180.0);
  }

  const MaxDistance := 4000.0
  const RadarRadius := 100.0

  /** Python's `int()` on a float: truncation toward zero. */
  function Trunc(x: real): (n: int)
    ensures 0.0 <= x ==> n as real <= x < n as real + 1.0
    ensures x < 0.0 ==> n as real - 1.0 < x <= n as real
    ensures (if n < 0 then -n else n) as real <= (if x < 0.0 then -x else x)
  {
    if x >= 0.0 then x.Floor else -((-x).Floor)
  }

  /** What the radar overlay draws for one reading. */
  datatype Mark =
    | Rim                               // a cross on the rim: no return
    | Dot(scale: real, colour: Bgr)     // a dot at `scale` pixels from the centre
    | NoMark                            // beyond the display range

  /** One iteration of the loop of `draw_lidar_overlay`. */
  function OverlayMark(distance: real): (m: Mark)
    ensures m.Rim? <==> distance == 0.0
    ensures m.Dot? <==> distance != 0.0 && distance < MaxDistance
    ensures m.NoMark? <==> MaxDistance <= distance
  {
    if distance == 0.0 then Rim
    else if distance < MaxDistance then
      var intensity := Trunc(255.0 * (1.0 - distance / MaxDistance));
      Dot(distance / MaxDistance * RadarRadius, Bgr(0, 255 - intensity, intensity))
    else NoMark
  }

  /** A reading in range is drawn inside the radar circle, in a colour whose
      green and red parts sum to 255, and nearer readings are redder. */
  lemma OverlayDotProperties(d1: real, d2: real)
    requires 0.0 < d1 <= d2 < MaxDistance
    ensures 0.0 < OverlayMark(d1).scale <= OverlayMark(d2).scale < RadarRadius
    ensures 0 <= OverlayMark(d2).colour.r <= OverlayMark(d1).colour.r <= 255
    ensures OverlayMark(d1).colour.g + OverlayMark(d1).colour.r == 255
  {
    var x1 := 255.0 * (1.0 - d1 / MaxDistance);
    var x2 := 255.0 * (1.0 - d2 / MaxDistance);
    assert 0.0 < x2 <= x1 < 255.0;
    assert x2.Floor <= x1.Floor;
  }
}
