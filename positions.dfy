/** From a LiDAR scan to candidate object positions, and the choice of the
    one position that labels a training row.  The polar-to-cartesian
    conversion (cos/sin of the angle) is outside the model: every scan point
    arrives with its cartesian coordinates already attached. */
module LidarPositions {
  import opened Wrappers
  import opened Sequences

  /** A scan record (`quality`, `distance`) with the x, y the trigonometry
      gives it, in centimetres relative to the LiDAR. */
  datatype ScanPoint = ScanPoint(quality: int, distance: int, x: int, y: int)

  /** The `(x, y, quality, distance)` tuples the collectors store. */
  datatype Position = Position(x: int, y: int, quality: int, distance: int)

  // ---------------------------------------------------------------------
  // Direct-control collector: only what lies beyond the box's front line

  /** A point is kept when it has a quality, a distance and lies beyond the
      front line. */
  predicate InFront(p: ScanPoint, frontLineY: int) {
    p.quality > 0 && p.distance > 0 && p.y > frontLineY
  }

  function FrontFilter(frontLineY: int): ScanPoint -> bool {
    p => InFront(p, frontLineY)
  }

  /** X is kept; Y becomes the distance in front of the line. */
  function ShiftToFront(p: ScanPoint, frontLineY: int): Position {
    Position(p.x, p.y - frontLineY, p.quality, p.distance)
  }

  function FrontShift(frontLineY: int): ScanPoint -> Position {
    p => ShiftToFront(p, frontLineY)
  }

  /** The positions the direct-control collector makes of a scan. */
  function FrontPositions(scan: seq<ScanPoint>, frontLineY: int): seq<Position> {
    Select(scan, FrontFilter(frontLineY), FrontShift(frontLineY))
  }

  /** `_process_lidar_scan` of the direct-control collector. */
  method ProcessScanFront(scan: seq<ScanPoint>, frontLineY: int) returns (positions: seq<Position>)
    ensures positions == FrontPositions(scan, frontLineY)
  {
    positions := [];
    for i := 0 to |scan|
      invariant positions == FrontPositions(scan[..i], frontLineY)
    {
      var p := scan[i];
      SelectSnoc(scan[..i], p, FrontFilter(frontLineY), FrontShift(frontLineY));
      assert scan[..i + 1] == scan[..i] + [p];
      if p.quality > 0 && p.distance > 0 {
        if p.y > frontLineY {
          positions := positions + [Position(p.x, p.y - frontLineY, p.quality, p.distance)];
        }
      }
    }
    assert scan[..|scan|] == scan;
  }

  /** The scan point a front-relative position was made from. */
  function Unshift(pos: Position, frontLineY: int): ScanPoint {
    ScanPoint(pos.quality, pos.distance, pos.x, pos.y + frontLineY)
  }

  /** A position is produced exactly when the point it comes from is in the
      scan with a quality, a distance and a Y beyond the front line; every
      produced Y is positive, and there are at most as many positions as
      points. */
  lemma FrontPositionsExact(scan: seq<ScanPoint>, frontLineY: int)
    ensures |FrontPositions(scan, frontLineY)| <= |scan|
    ensures forall k :: 0 <= k < |FrontPositions(scan, frontLineY)| ==> FrontPositions(scan, frontLineY)[k].y > 0
    ensures forall pos :: pos in FrontPositions(scan, frontLineY) <==>
      Unshift(pos, frontLineY) in scan && InFront(Unshift(pos, frontLineY), frontLineY)
  {
    var keep, f := FrontFilter(frontLineY), FrontShift(frontLineY);
    var r := FrontPositions(scan, frontLineY);
    SelectIsFilter(scan, keep, f);
    forall k | 0 <= k < |r| ensures r[k].y > 0 {
      var j := Chosen(scan, keep)[k];
      assert keep(scan[j]);
    }
    forall pos
      ensures pos in r <==> Unshift(pos, frontLineY) in scan && InFront(Unshift(pos, frontLineY), frontLineY)
    {
      SelectMembership(scan, keep, f, pos);
      if Unshift(pos, frontLineY) in scan && InFront(Unshift(pos, frontLineY), frontLineY) {
        var j :| 0 <= j < |scan| && scan[j] == Unshift(pos, frontLineY);
        assert keep(scan[j]) && f(scan[j]) == pos;
      }
    }
  }

  /** The nearest point to the front line: the first position of least Y,
      or none for an empty list. */
  function NearestToFrontLine(positions: seq<Position>): (r: Option<Position>)
    ensures r.None? <==> positions == []
    ensures r.Some? ==> exists i :: (0 <= i < |positions| && positions[i] == r.value
      && (forall j :: 0 <= j < |positions| ==> r.value.y <= positions[j].y)
      && (forall j :: 0 <= j < i ==> r.value.y < positions[j].y))
  {
    if positions == [] then None
    else
      var i := FirstMinIndex(positions, (p: Position) => p.y);
      Some(positions[i])
  }

  // ---------------------------------------------------------------------
  // Library-based collector: every valid point, and a field-of-view choice

  predicate Valid(p: ScanPoint) {
    p.quality > 0 && p.distance > 0
  }

  function ValidFilter(): ScanPoint -> bool {
    p => Valid(p)
  }

  function AsPosition(): ScanPoint -> Position {
    (p: ScanPoint) => Position(p.x, p.y, p.quality, p.distance)
  }

  /** The positions the library-based collector makes of a scan. */
  function ValidPositions(scan: seq<ScanPoint>): seq<Position> {
    Select(scan, ValidFilter(), AsPosition())
  }

  /** `_process_lidar_scan` of the library-based collector. */
  method ProcessScanAll(scan: seq<ScanPoint>) returns (positions: seq<Position>)
    ensures positions == ValidPositions(scan)
  {
    positions := [];
    for i := 0 to |scan|
      invariant positions == ValidPositions(scan[..i])
    {
      var p := scan[i];
      SelectSnoc(scan[..i], p, ValidFilter(), AsPosition());
      assert scan[..i + 1] == scan[..i] + [p];
      if p.quality > 0 && p.distance > 0 {
        positions := positions + [Position(p.x, p.y, p.quality, p.distance)];
      }
    }
    assert scan[..|scan|] == scan;
  }

  /** Exactly the points with a quality and a distance are kept, in scan
      order: the k-th position is the k-th valid point. */
  lemma ValidPositionsExact(scan: seq<ScanPoint>)
    ensures |ValidPositions(scan)| == |Chosen(scan, ValidFilter())|
    ensures forall k :: 0 <= k < |ValidPositions(scan)| ==>
      var p := scan[Chosen(scan, ValidFilter())[k]];
      Valid(p) && ValidPositions(scan)[k] == Position(p.x, p.y, p.quality, p.distance)
    ensures forall j :: 0 <= j < |scan| && Valid(scan[j]) ==> j in Chosen(scan, ValidFilter())
  {
    SelectIsFilter(scan, ValidFilter(), AsPosition());
    ChosenComplete(scan, ValidFilter());
  }

  /** Where a sensor sits and looks, in the collector's configuration. */
  datatype SensorPose = SensorPose(x: int, y: int, angle: int, fov: int)

  /** `abs((angle - sensor_angle + 180) % 360 - 180)`, with Python's `%`,
      which for the positive divisor 360 agrees with Dafny's. */
  function AngleDiff(angle: int, sensorAngle: int): (d: int)
    ensures 0 <= d <= 180
  {
    var m := (angle - sensorAngle + 180) % 360 - 180;
    if m < 0 then -m else m
  }

  function Abs(x: int): nat { if x < 0 then -x else x }

  /** The normalised difference is the circular distance between the two
      angles: the least |angle - sensorAngle - 360k| over all whole turns k. */
  lemma AngleDiffIsCircularDistance(angle: int, sensorAngle: int)
    ensures exists k :: AngleDiff(angle, sensorAngle) == Abs(angle - sensorAngle - 360 * k)
    ensures forall k :: AngleDiff(angle, sensorAngle) <= Abs(angle - sensorAngle - 360 * k)
  {
    var delta := angle - sensorAngle;
    var q := (delta + 180) / 360;
    var m := (delta + 180) % 360;
    assert delta + 180 == 360 * q + m;
    assert AngleDiff(angle, sensorAngle) == Abs(delta - 360 * q);
    forall k ensures AngleDiff(angle, sensorAngle) <= Abs(delta - 360 * k) {
      var e := delta - 360 * k;
      assert e == (m - 180) + 360 * (q - k);
      if q - k >= 1 {
        assert 360 * (q - k) >= 360;
      } else if q - k <= -1 {
        assert 360 * (q - k) <= -360;
      }
    }
  }

  /** A position is in a sensor's field of view when the normalised
      bearing difference is at most half the field of view. */
  predicate InFieldOfView(p: Position, pose: SensorPose, bearing: (int, int) -> int) {
    2 * AngleDiff(bearing(p.x - pose.x, p.y - pose.y), pose.angle) <= pose.fov
  }

  function FovFilter(pose: SensorPose, bearing: (int, int) -> int): Position -> bool {
    p => InFieldOfView(p, pose, bearing)
  }

  /** A candidate keeps x, y and quality; its fourth field is the range
      from the sensor. */
  function AsCandidate(pose: SensorPose, range: (int, int) -> int): Position -> Position {
    (p: Position) => Position(p.x, p.y, p.quality, range(p.x - pose.x, p.y - pose.y))
  }

  function Candidates(positions: seq<Position>, pose: SensorPose, bearing: (int, int) -> int,
                      range: (int, int) -> int): seq<Position>
  {
    Select(positions, FovFilter(pose, bearing), AsCandidate(pose, range))
  }

  function ByDistance(): Position -> int {
    (p: Position) => p.distance
  }

  /** `_find_relevant_object` of the library-based collector.  `bearing`
      (degrees of `arctan2(dy, dx)`) and `range` (`sqrt(dx² + dy²)`) are
      the trigonometry, given from outside. */
  method FindRelevantObject(sensorId: int, positions: seq<Position>, poses: map<int, SensorPose>,
                            bearing: (int, int) -> int, range: (int, int) -> int)
    returns (r: Option<Position>)
    ensures sensorId !in poses ==> r == MinBy(positions, ByDistance())
    ensures sensorId in poses ==> r == MinBy(Candidates(positions, poses[sensorId], bearing, range), ByDistance())
  {
    if sensorId !in poses {
      return MinBy(positions, ByDistance());
    }
    var pose := poses[sensorId];
    var candidates: seq<Position> := [];
    for i := 0 to |positions|
      invariant candidates == Candidates(positions[..i], pose, bearing, range)
    {
      var p := positions[i];
      SelectSnoc(positions[..i], p, FovFilter(pose, bearing), AsCandidate(pose, range));
      assert positions[..i + 1] == positions[..i] + [p];
      var dx := p.x - pose.x;
      var dy := p.y - pose.y;
      var angleDiff := AngleDiff(bearing(dx, dy), pose.angle);
      if 2 * angleDiff <= pose.fov {
        candidates := candidates + [Position(p.x, p.y, p.quality, range(dx, dy))];
      }
    }
    assert positions[..|positions|] == positions;
    r := MinBy(candidates, ByDistance());
  }

  /** With a configured sensor, an object is reported exactly when some
      position lies in the field of view, and it is a candidate of least
      range. */
  lemma FindRelevantObjectInView(positions: seq<Position>, pose: SensorPose,
                                 bearing: (int, int) -> int, range: (int, int) -> int)
    ensures MinBy(Candidates(positions, pose, bearing, range), ByDistance()).Some? <==>
      exists j :: 0 <= j < |positions| && InFieldOfView(positions[j], pose, bearing)
    ensures forall c :: c in Candidates(positions, pose, bearing, range) <==>
      exists j :: 0 <= j < |positions| && InFieldOfView(positions[j], pose, bearing)
        && c == Position(positions[j].x, positions[j].y, positions[j].quality,
                         range(positions[j].x - pose.x, positions[j].y - pose.y))
  {
    var keep, f := FovFilter(pose, bearing), AsCandidate(pose, range);
    var cs := Candidates(positions, pose, bearing, range);
    forall c ensures c in cs <==> exists j :: (0 <= j < |positions| && InFieldOfView(positions[j], pose, bearing)
        && c == Position(positions[j].x, positions[j].y, positions[j].quality,
                         range(positions[j].x - pose.x, positions[j].y - pose.y)))
    {
      SelectMembership(positions, keep, f, c);
    }
    if exists j :: 0 <= j < |positions| && InFieldOfView(positions[j], pose, bearing) {
      var j :| 0 <= j < |positions| && InFieldOfView(positions[j], pose, bearing);
      SelectMembership(positions, keep, f, f(positions[j]));
    }
  }
}
