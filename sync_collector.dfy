/** The synchronised collector of ultrasonic echo profiles and LiDAR
    positions, in both of its versions: the direct-control one, which
    decodes the RPLIDAR byte stream itself and keeps only what lies beyond
    the box's front line, and the library-based one, which receives whole
    scans and labels each row with the object in the sensor's field of view.
    The two share the ultrasonic line check, the matching thread and the
    row format; `Variant` says which one is meant. */
module SyncCollector {
  import opened Wrappers
  import opened Text
  import opened Rplidar
  import opened Serial
  import opened ScanSegmentation
  import opened Sequences
  import opened LidarPositions
  import opened Matching
  import opened DirectControl
  import opened UltrasonicLines

  datatype Variant =
    /** data_collector_with_lidar_r2.py: `front_line_y` from the configuration. */
    | FrontLine(frontLineY: int)
    /** data_collector_with_lidar.py: the configured sensor poses, by sensor
        id, and the trigonometry (bearing in degrees, range) as functions of
        the offset from the sensor. */
    | FieldOfView(poses: map<int, SensorPose>, bearing: (int, int) -> int, range: (int, int) -> int)

  /** `sync.window_ms`, `sync.buffer_size`, `sensors.count`. */
  datatype Config = Config(windowMs: int, bufferSize: nat, sensorCount: int, variant: Variant)

  // ---------------------------------------------------------------------
  // Ultrasonic lines

  function ArrivalIsData(): ((string, int)) -> bool {
    (a: (string, int)) => IsDataLine(a.0)
  }

  function AsUltrasonicEntry(): ((string, int)) -> UltrasonicEntry {
    (a: (string, int)) => UltrasonicEntry(a.1, a.0, Split(a.0, ','))
  }

  /** What the ultrasonic thread queues from lines arriving at the given
      host times: the data lines, in arrival order. */
  function QueuedLines(arrivals: seq<(string, int)>): seq<UltrasonicEntry> {
    Select(arrivals, ArrivalIsData(), AsUltrasonicEntry())
  }

  // ---------------------------------------------------------------------
  // LiDAR scans

  /** Where the trigonometry puts a record: its x, y in centimetres. */
  function ToScanPoint(m: Measurement, project: Measurement -> (int, int)): ScanPoint {
    ScanPoint(m.quality, m.distanceQ2, project(m).0, project(m).1)
  }

  function ScanPoints(ms: seq<Measurement>, project: Measurement -> (int, int)): seq<ScanPoint> {
    seq(|ms|, k requires 0 <= k < |ms| => ToScanPoint(ms[k], project))
  }

  /** The queue entry a closed scan of the direct-control reader becomes:
      stamped with the host clock read once the closing record has been
      read (`start` is where the records begin in the stream). */
  function ScanEntry(s: ClosedScan, frontLineY: int, project: Measurement -> (int, int),
                     clock: nat -> int, start: nat): LidarEntry
  {
    LidarEntry(clock(start + PacketSize * (s.closedAt + 1)),
               FrontPositions(ScanPoints(s.points, project), frontLineY), |s.points|)
  }

  function HasFrontPositions(frontLineY: int, project: Measurement -> (int, int)): ClosedScan -> bool {
    (s: ClosedScan) => FrontPositions(ScanPoints(s.points, project), frontLineY) != []
  }

  function AsFrontEntry(frontLineY: int, project: Measurement -> (int, int), clock: nat -> int, start: nat)
    : ClosedScan -> LidarEntry
  {
    (s: ClosedScan) => ScanEntry(s, frontLineY, project, clock, start)
  }

  /** The closed scans the direct-control reader queues: those with a
      position beyond the front line, in stream order. */
  function QueuedFrontScans(closed: seq<ClosedScan>, frontLineY: int, project: Measurement -> (int, int),
                            clock: nat -> int, start: nat): seq<LidarEntry>
  {
    Select(closed, HasFrontPositions(frontLineY, project), AsFrontEntry(frontLineY, project, clock, start))
  }

  /** One record through the reader: a queue entry is added exactly when
      the record closes a scan with a position beyond the front line. */
  lemma FeedQueued(seg: Segmenter, m: Measurement, frontLineY: int, project: Measurement -> (int, int),
                   clock: nat -> int, start: nat)
    ensures var closing := ClosedScan(seg.current, seg.seen);
      QueuedFrontScans(Feed(seg, m).closed, frontLineY, project, clock, start) ==
        QueuedFrontScans(seg.closed, frontLineY, project, clock, start)
        + if m.startFlag && |seg.current| > 0 && FrontPositions(ScanPoints(seg.current, project), frontLineY) != []
          then [ScanEntry(closing, frontLineY, project, clock, start)] else []
  {
    if m.startFlag && |seg.current| > 0 {
      SelectSnoc(seg.closed, ClosedScan(seg.current, seg.seen), HasFrontPositions(frontLineY, project),
                 AsFrontEntry(frontLineY, project, clock, start));
    }
  }

  /** A scan is queued exactly when one of its records has a quality, a
      distance and lies beyond the front line. */
  lemma FrontScanQueuedIff(points: seq<ScanPoint>, frontLineY: int)
    ensures FrontPositions(points, frontLineY) != [] <==> exists k :: 0 <= k < |points| && InFront(points[k], frontLineY)
  {
    FrontPositionsExact(points, frontLineY);
    var r := FrontPositions(points, frontLineY);
    if r != [] {
      assert r[0] in r;
      var k :| 0 <= k < |points| && points[k] == Unshift(r[0], frontLineY);
      assert InFront(points[k], frontLineY);
    }
    if exists k :: 0 <= k < |points| && InFront(points[k], frontLineY) {
      var k :| 0 <= k < |points| && InFront(points[k], frontLineY);
      assert Unshift(ShiftToFront(points[k], frontLineY), frontLineY) == points[k];
      assert ShiftToFront(points[k], frontLineY) in r;
    }
  }

  function HasValidPositions(): ((int, seq<ScanPoint>)) -> bool {
    (s: (int, seq<ScanPoint>)) => ValidPositions(s.1) != []
  }

  function AsLibraryEntry(): ((int, seq<ScanPoint>)) -> LidarEntry {
    (s: (int, seq<ScanPoint>)) => LidarEntry(s.0, ValidPositions(s.1), |s.1|)
  }

  /** The scans the library-based reader queues, from scans delivered at
      the given host times: those with a valid point, in delivery order. */
  function QueuedLibraryScans(scans: seq<(int, seq<ScanPoint>)>): seq<LidarEntry> {
    Select(scans, HasValidPositions(), AsLibraryEntry())
  }

  /** A scan is queued exactly when one of its records has a quality and a
      distance. */
  lemma LibraryScanQueuedIff(points: seq<ScanPoint>)
    ensures ValidPositions(points) != [] <==> exists k :: 0 <= k < |points| && Valid(points[k])
  {
    ValidPositionsExact(points);
    var idx := Chosen(points, ValidFilter());
    if ValidPositions(points) != [] {
      assert Valid(points[idx[0]]);
    }
    if exists k :: 0 <= k < |points| && Valid(points[k]) {
      var k :| 0 <= k < |points| && Valid(points[k]);
      assert k in idx;
    }
  }

  // ---------------------------------------------------------------------
  // Training rows

  /** A CSV cell: a number, or the empty cell Python writes for `None`. */
  datatype Cell = Num(value: int) | Missing

  const EchoReadings: nat := 240
  const RowWidth: nat := 248

  const LeadingColumns: seq<string> := ["system_timestamp", "arduino_timestamp_ms", "sensor_id"]
  const TrailingColumns: seq<string> := ["lidar_x", "lidar_y", "lidar_quality", "lidar_distance", "num_objects"]

  function EchoName(i: nat): string {
    "echo_r" + NatToString(i)
  }

  /** The header line of the training file. */
  function Header(): (h: seq<string>)
    ensures |h| == RowWidth
  {
    LeadingColumns + seq(EchoReadings, k requires 0 <= k < EchoReadings => EchoName(k + 1)) + TrailingColumns
  }

  lemma NatToStringInjective(a: nat, b: nat)
    requires NatToString(a) == NatToString(b)
    ensures a == b
  {
    DigitsValueOfNat(a);
    DigitsValueOfNat(b);
  }

  /** The column headed `echo_r{i}`, and the field of the line holding
      the i-th reading. */
  function EchoColumn(i: nat): nat { 2 + i }
  function EchoField(i: nat): nat { 1 + i }

  lemma FixedColumnsDistinct()
    ensures forall i, j :: 0 <= i < j < |LeadingColumns + TrailingColumns| ==>
      (LeadingColumns + TrailingColumns)[i] != (LeadingColumns + TrailingColumns)[j]
    ensures forall i :: 0 <= i < |LeadingColumns + TrailingColumns| ==> (LeadingColumns + TrailingColumns)[i][0] != 'e'
  {
    var fixed := LeadingColumns + TrailingColumns;
    var lengths := [16, 20, 9, 7, 7, 13, 14, 11];
    assert forall k :: 0 <= k < 8 ==> |fixed[k]| == lengths[k];
    assert fixed[3][6] != fixed[4][6];
  }

  /** Where each column's name comes from: the fixed names before and
      after the echo columns, and `echo_r{k-2}` at column k in between. */
  lemma HeaderLayout()
    ensures forall k :: 0 <= k < 3 ==> Header()[k] == (LeadingColumns + TrailingColumns)[k]
    ensures forall k :: 3 + EchoReadings <= k < RowWidth ==>
      Header()[k] == (LeadingColumns + TrailingColumns)[k - EchoReadings]
    ensures forall k :: 3 <= k < 3 + EchoReadings ==> Header()[k] == EchoName(k - 2)
  {
  }

  lemma EchoNamesDistinct(i: nat, j: nat)
    requires i != j
    ensures EchoName(i) != EchoName(j)
  {
    if EchoName(i) == EchoName(j) {
      assert EchoName(i)[6..] == NatToString(i);
      assert EchoName(j)[6..] == NatToString(j);
      NatToStringInjective(i, j);
    }
  }

  lemma HeaderPairDistinct(i: nat, j: nat)
    requires i < j < RowWidth
    ensures Header()[i] != Header()[j]
  {
    var h := Header();
    var fixed := LeadingColumns + TrailingColumns;
    HeaderLayout();
    FixedColumnsDistinct();
    var echoI, echoJ := 3 <= i < 3 + EchoReadings, 3 <= j < 3 + EchoReadings;
    if echoI && echoJ {
      EchoNamesDistinct(i - 2, j - 2);
    } else if echoI {
      assert h[i][0] == 'e';
      assert h[j] == fixed[j - EchoReadings];
    } else if echoJ {
      assert h[j][0] == 'e';
      assert h[i] == fixed[i];
    } else {
      var fi := if i < 3 then i else i - EchoReadings;
      var fj := if j < 3 then j else j - EchoReadings;
      assert h[i] == fixed[fi] && h[j] == fixed[fj] && fi < fj;
    }
  }


  /** Column EchoColumn(i) is named `echo_r{i}`, and no two columns share a
      name. */
  lemma HeaderColumns()
    ensures forall i :: 1 <= i <= EchoReadings ==> Header()[EchoColumn(i)] == EchoName(i)
    ensures forall i, j :: 0 <= i < j < RowWidth ==> Header()[i] != Header()[j]
  {
    HeaderLayout();
    forall i, j | 0 <= i < j < RowWidth ensures Header()[i] != Header()[j] {
      HeaderPairDistinct(i, j);
    }
  }

  /** Python's `a % b`: the remainder takes the divisor's sign, and `a`
      differs from it by a multiple of `b`. */
  function PyMod(a: int, b: int): (r: int)
    requires b != 0
    ensures b > 0 ==> 0 <= r < b
    ensures b < 0 ==> b < r <= 0
    ensures (a - r) % b == 0
  {
    var m := a % b;
    MultipleMod(a / b, b);
    MultipleMod(a / b - 1, b);
    if b < 0 && m != 0 then m + b else m
  }

  /** `(matched_samples % sensors.count) + 1`: the sensor a row is
      credited to. */
  function SensorId(matched: nat, count: int): (id: int)
    requires count != 0
    ensures count > 0 ==> 1 <= id <= count
  {
    PyMod(matched, count) + 1
  }

  /** A multiple of `b` leaves no remainder. */
  lemma MultipleMod(q: int, b: int)
    requires b != 0
    ensures (q * b) % b == 0
  {
    var d := (q * b) / b;
    assert (q - d) * b == (q * b) % b;
    MulAwayFromZero(q - d, b);
  }

  /** A non-zero multiple of `b` is at least as far from 0 as `b`. */
  lemma MulAwayFromZero(k: int, b: int)
    ensures k > 0 && b > 0 ==> k * b >= b
    ensures k > 0 && b < 0 ==> k * b <= b
    ensures k < 0 && b > 0 ==> k * b <= -b
    ensures k < 0 && b < 0 ==> k * b >= -b
  {
    if k > 0 && b > 0 {
      MulAtLeast(k, b);
    } else if k > 0 && b < 0 {
      MulAtLeast(k, -b);
      assert k * -b == -(k * b);
    } else if k < 0 && b > 0 {
      MulAtLeast(-k, b);
      assert -k * b == -(k * b);
    } else if k < 0 && b < 0 {
      MulAtLeast(-k, -b);
      assert -k * -b == k * b;
    }
  }

  lemma MulAtLeast(d: int, c: int)
    requires d >= 1 && c > 0
    ensures d * c >= c
  {
    assert d * c == (d - 1) * c + c;
    assert (d - 1) * c >= 0;
  }

  /** The remainder is determined by any quotient that leaves it in range. */
  lemma ModUnique(x: int, c: int, q: int, r: int)
    requires c > 0 && 0 <= r < c && x == q * c + r
    ensures x % c == r
  {
    var q', r' := x / c, x % c;
    assert x == q' * c + r';
    assert (q' - q) * c == r - r' by {
      assert q' * c - q * c == (q' - q) * c;
    }
    assert (q - q') * c == r' - r by {
      assert q * c - q' * c == (q - q') * c;
    }
    if q' > q {
      MulAtLeast(q' - q, c);
      assert false;
    } else if q' < q {
      MulAtLeast(q - q', c);
      assert false;
    }
  }

  /** Row after row the sensor id cycles 1, 2, ..., count, 1, ... */
  lemma SensorIdRoundRobin(matched: nat, count: int)
    requires count > 0
    ensures SensorId(0, count) == 1
    ensures SensorId(matched + 1, count) == if SensorId(matched, count) == count then 1 else SensorId(matched, count) + 1
  {
    ModUnique(0, count, 0, 0);
    var q, r := matched / count, matched % count;
    assert matched == q * count + r;
    if r == count - 1 {
      ModUnique(matched + 1, count, q + 1, 0);
    } else {
      ModUnique(matched + 1, count, q, r + 1);
    }
  }

  /** The object that labels a row. */
  function RelevantObject(variant: Variant, sensorId: int, positions: seq<Position>): Option<Position> {
    match variant
    case FrontLine(_) => NearestToFrontLine(positions)
    case FieldOfView(poses, bearing, range) =>
      if sensorId !in poses then MinBy(positions, ByDistance())
      else MinBy(Candidates(positions, poses[sensorId], bearing, range), ByDistance())
  }

  /** A training row before it is written out: the line's arrival time,
      the Arduino's timestamp, the sensor id, the echo readings, the
      labelling object (if any) and the number of positions. */
  datatype Row = Row(systemTimestamp: int, arduinoTimestamp: int, sensorId: int, echo: seq<int>,
                     closest: Option<Position>, numObjects: nat)

  function ObjectCells(obj: Option<Position>): seq<Cell> {
    match obj
    case Some(p) => [Num(p.x), Num(p.y), Num(p.quality), Num(p.distance)]
    case None => [Missing, Missing, Missing, Missing]
  }

  function EchoCells(echo: seq<int>): seq<Cell> {
    seq(|echo|, k requires 0 <= k < |echo| => Num(echo[k]))
  }

  /** The CSV cells of a row, in the header's column order; `None` is
      written as an empty cell. */
  function Cells(row: Row): seq<Cell> {
    [Num(row.systemTimestamp), Num(row.arduinoTimestamp), Num(row.sensorId)] + EchoCells(row.echo)
    + ObjectCells(row.closest) + [Num(row.numObjects)]
  }

  /** The row `_save_training_sample` writes for a pair, or the exception
      that ends the matching thread instead: it fails exactly when a field
      of the line is missing or not an integer, or there are no sensors. */
  function SampleRow(us: UltrasonicEntry, lidar: LidarEntry, matched: nat, config: Config)
    : (r: Result<Row, SaveError>)
    ensures r.Ok? <==> AllParse(us.parts, 1, 1 + EchoReadings) && config.sensorCount != 0
    ensures r.Ok? ==> |us.parts| >= 2 + EchoReadings && |r.value.echo| == EchoReadings
  {
    ParseFieldsMeaning(us.parts, 1, 1 + EchoReadings);
    match ParseFields(us.parts, 1, 1 + EchoReadings)
    case Err(e) => Err(e)
    case Ok(fields) =>
      var last := fields[EchoReadings];
      if config.sensorCount == 0 then Err(ZeroSensorCount)
      else
        var sensorId := SensorId(matched, config.sensorCount);
        var positions := lidar.positions;
        var closest := if positions != [] then RelevantObject(config.variant, sensorId, positions) else None;
        Ok(Row(us.timestamp, fields[0], sensorId, fields[1..], closest, |positions|))
  }

  /** What a saved row holds, column by column, and that it lines up with
      the header: the line's timestamp, the Arduino's timestamp, the sensor
      id, under `echo_r{i}` the i-th reading, the labelling object (four
      empty cells when there is none) and the number of positions. */
  lemma SampleRowCells(us: UltrasonicEntry, lidar: LidarEntry, matched: nat, config: Config)
    requires SampleRow(us, lidar, matched, config).Ok?
    ensures var row := Cells(SampleRow(us, lidar, matched, config).value);
      && |row| == |Header()|
      && row[0] == Num(us.timestamp)
      && row[1].Num? && ParseInt(us.parts[1]) == Some(row[1].value)
      && row[2] == Num(SensorId(matched, config.sensorCount))
      && (forall i :: 1 <= i <= EchoReadings ==>
            Header()[EchoColumn(i)] == EchoName(i)
            && row[EchoColumn(i)].Num? && ParseInt(us.parts[EchoField(i)]) == Some(row[EchoColumn(i)].value))
      && row[3 + EchoReadings..RowWidth - 1] ==
           ObjectCells(if lidar.positions == [] then None
                       else RelevantObject(config.variant, SensorId(matched, config.sensorCount), lidar.positions))
      && row[RowWidth - 1] == Num(|lidar.positions|)
  {
    HeaderColumns();
    var r := SampleRow(us, lidar, matched, config).value;
    SampleRowFields(us, lidar, matched, config);
    CellsLayout(r);
    forall i | 1 <= i <= EchoReadings
      ensures Cells(r)[EchoColumn(i)] == Num(r.echo[i - 1]) && ParseInt(us.parts[EchoField(i)]) == Some(r.echo[i - 1])
    {
    }
  }

  /** Where each field of a saved row comes from. */
  lemma SampleRowFields(us: UltrasonicEntry, lidar: LidarEntry, matched: nat, config: Config)
    requires SampleRow(us, lidar, matched, config).Ok?
    ensures var r := SampleRow(us, lidar, matched, config).value;
      && |us.parts| >= 2 + EchoReadings && |r.echo| == EchoReadings
      && r.systemTimestamp == us.timestamp
      && ParseInt(us.parts[1]) == Some(r.arduinoTimestamp)
      && r.sensorId == SensorId(matched, config.sensorCount)
      && (forall i :: 1 <= i <= EchoReadings ==> ParseInt(us.parts[EchoField(i)]) == Some(r.echo[i - 1]))
      && r.closest == (if lidar.positions == [] then None
                       else RelevantObject(config.variant, SensorId(matched, config.sensorCount), lidar.positions))
      && r.numObjects == |lidar.positions|
  {
    ParseFieldsMeaning(us.parts, 1, 1 + EchoReadings);
    var fields := ParseFields(us.parts, 1, 1 + EchoReadings).value;
    var r := SampleRow(us, lidar, matched, config).value;
    assert r.echo == fields[1..];
    forall i | 1 <= i <= EchoReadings ensures ParseInt(us.parts[EchoField(i)]) == Some(r.echo[i - 1]) {
      assert r.echo[i - 1] == fields[i];
    }
  }

  /** The cells of a row with the full echo profile, column by column. */
  lemma CellsLayout(r: Row)
    requires |r.echo| == EchoReadings
    ensures var row := Cells(r);
      && |row| == RowWidth
      && row[0] == Num(r.systemTimestamp) && row[1] == Num(r.arduinoTimestamp) && row[2] == Num(r.sensorId)
      && (forall i :: 1 <= i <= EchoReadings ==> row[EchoColumn(i)] == Num(r.echo[i - 1]))
      && row[3 + EchoReadings..RowWidth - 1] == ObjectCells(r.closest)
      && row[RowWidth - 1] == Num(r.numObjects)
  {
    var row := Cells(r);
    var cells := EchoCells(r.echo);
    assert row[3..3 + EchoReadings] == cells;
    forall i | 1 <= i <= EchoReadings ensures row[EchoColumn(i)] == Num(r.echo[i - 1]) {
      assert row[EchoColumn(i)] == cells[i - 1];
    }
  }


  // ---------------------------------------------------------------------
  // The matching thread

  /** What the matching thread has written: the `matched_samples` counter
      and the rows after the header. */
  datatype Saved = Saved(matched: nat, rows: seq<Row>)

  /** The matching thread's state: both queues, both buffers and what has
      been written. */
  datatype SyncState = SyncState(usQueue: seq<UltrasonicEntry>, lidarQueue: seq<LidarEntry>,
                                 usBuffer: seq<UltrasonicEntry>, lidarBuffer: seq<LidarEntry>,
                                 saved: Saved)

  predicate Bounded(st: SyncState, maxlen: nat) {
    |st.usBuffer| <= maxlen && |st.lidarBuffer| <= maxlen
  }

  /** Take the oldest entry of each non-empty queue into its buffer. */
  function Take(st: SyncState, maxlen: nat): (r: SyncState)
    requires Bounded(st, maxlen)
    ensures Bounded(r, maxlen)
  {
    var st1 := if st.usQueue == [] then st
      else st.(usQueue := st.usQueue[1..], usBuffer := BoundedAppend(st.usBuffer, st.usQueue[0], maxlen));
    if st1.lidarQueue == [] then st1
    else st1.(lidarQueue := st1.lidarQueue[1..], lidarBuffer := BoundedAppend(st1.lidarBuffer, st1.lidarQueue[0], maxlen))
  }

  /** Save the pairs in order; the first failing save stops the thread.
      Every saved pair adds one row of the header's width and one to the
      counter; earlier rows stay as they were. */
  function SaveAll(pairs: seq<(UltrasonicEntry, LidarEntry)>, saved: Saved, config: Config): (r: (Saved, bool))
    ensures r.0.matched >= saved.matched && |r.0.rows| == |saved.rows| + (r.0.matched - saved.matched)
    ensures saved.rows <= r.0.rows
    ensures forall k :: |saved.rows| <= k < |r.0.rows| ==> |r.0.rows[k].echo| == EchoReadings
    ensures r.1 ==> r.0.matched == saved.matched + |pairs|
    decreases |pairs|
  {
    if pairs == [] then (saved, true)
    else
      match SampleRow(pairs[0].0, pairs[0].1, saved.matched, config)
      case Err(_) => (saved, false)
      case Ok(row) => SaveAll(pairs[1..], Saved(saved.matched + 1, saved.rows + [row]), config)
  }

  /** One step of SaveAll, from position i of the pairs. */
  lemma SaveAllAt(pairs: seq<(UltrasonicEntry, LidarEntry)>, i: nat, saved: Saved, config: Config)
    requires i < |pairs|
    ensures var row := SampleRow(pairs[i].0, pairs[i].1, saved.matched, config);
      row.Err? ==> SaveAll(pairs[i..], saved, config) == (saved, false)
    ensures var row := SampleRow(pairs[i].0, pairs[i].1, saved.matched, config);
      row.Ok? ==> SaveAll(pairs[i..], saved, config) ==
                  SaveAll(pairs[i + 1..], Saved(saved.matched + 1, saved.rows + [row.value]), config)
  {
    var rest := pairs[i..];
    assert rest[0] == pairs[i] && rest[1..] == pairs[i + 1..];
    var row := SampleRow(pairs[i].0, pairs[i].1, saved.matched, config);
    assert SaveAll(rest, saved, config) ==
      match row
      case Err(_) => (saved, false)
      case Ok(r) => SaveAll(pairs[i + 1..], Saved(saved.matched + 1, saved.rows + [r]), config);
  }

  /** The matching thread once both producers have stopped: take, match,
      save, until both queues are empty or a save fails.  The buffers never
      exceed `buffer_size`, and when the thread completes both queues are
      drained; rows are only ever appended, one per matched sample, each of
      the header's width. */
  function SyncRun(st: SyncState, config: Config): (r: (SyncState, bool))
    requires Bounded(st, config.bufferSize)
    ensures Bounded(r.0, config.bufferSize)
    ensures r.1 ==> r.0.usQueue == [] && r.0.lidarQueue == []
    ensures r.0.saved.matched >= st.saved.matched
    ensures |r.0.saved.rows| == |st.saved.rows| + (r.0.saved.matched - st.saved.matched)
    ensures st.saved.rows <= r.0.saved.rows
    ensures forall k :: |st.saved.rows| <= k < |r.0.saved.rows| ==> |r.0.saved.rows[k].echo| == EchoReadings
    decreases |st.usQueue| + |st.lidarQueue|, 0
  {
    if st.usQueue == [] && st.lidarQueue == [] then (st, true)
    else
      var taken := Take(st, config.bufferSize);
      var pass := GreedyMatch(taken.usBuffer, taken.lidarBuffer, config.windowMs);
      Continue(pass.pairs, taken.(usBuffer := pass.ultrasonic, lidarBuffer := pass.lidar), config)
  }

  /** Save the pairs of one pass, then carry on with the next. */
  function Continue(pairs: seq<(UltrasonicEntry, LidarEntry)>, st: SyncState, config: Config): (r: (SyncState, bool))
    requires Bounded(st, config.bufferSize)
    ensures Bounded(r.0, config.bufferSize)
    ensures r.1 ==> r.0.usQueue == [] && r.0.lidarQueue == []
    ensures r.0.saved.matched >= st.saved.matched
    ensures |r.0.saved.rows| == |st.saved.rows| + (r.0.saved.matched - st.saved.matched)
    ensures st.saved.rows <= r.0.saved.rows
    ensures forall k :: |st.saved.rows| <= k < |r.0.saved.rows| ==> |r.0.saved.rows[k].echo| == EchoReadings
    decreases |st.usQueue| + |st.lidarQueue|, 1
  {
    var saved := SaveAll(pairs, st.saved, config);
    if saved.1 then SyncRun(st.(saved := saved.0), config)
    else (st.(saved := saved.0), false)
  }

  // ---------------------------------------------------------------------
  // The collector

  class SynchronizedCollector {
    const config: Config
    var ultrasonicQueue: seq<UltrasonicEntry>
    var lidarQueue: seq<LidarEntry>
    /** The `stats` counters. */
    var ultrasonicSamples: nat
    var lidarScans: nat
    var matchedSamples: nat
    var unmatchedUltrasonic: nat
    var unmatchedLidar: nat
    /** The training file's rows after the header. */
    var rows: seq<Row>

    constructor (config: Config)
      ensures this.config == config
      ensures ultrasonicQueue == [] && lidarQueue == [] && rows == []
      ensures ultrasonicSamples == 0 && lidarScans == 0 && matchedSamples == 0
      ensures unmatchedUltrasonic == 0 && unmatchedLidar == 0
    {
      this.config := config;
      ultrasonicQueue, lidarQueue, rows := [], [], [];
      ultrasonicSamples, lidarScans, matchedSamples := 0, 0, 0;
      unmatchedUltrasonic, unmatchedLidar := 0, 0;
    }

    /** One line through `collect_ultrasonic_data`: queued, and counted,
        exactly when it is a data line; anything else changes nothing. */
    method CollectUltrasonicLine(line: string, timestamp: int)
      modifies this`ultrasonicQueue, this`ultrasonicSamples
      ensures IsDataLine(line) ==>
        && ultrasonicQueue == old(ultrasonicQueue) + [UltrasonicEntry(timestamp, line, Split(line, ','))]
        && ultrasonicSamples == old(ultrasonicSamples) + 1
      ensures !IsDataLine(line) ==>
        ultrasonicQueue == old(ultrasonicQueue) && ultrasonicSamples == old(ultrasonicSamples)
    {
      if StartsWith(line, "S,") {
        var parts := Split(line, ',');
        if |parts| >= MinFields {
          ultrasonicQueue := ultrasonicQueue + [UltrasonicEntry(timestamp, line, parts)];
          ultrasonicSamples := ultrasonicSamples + 1;
        }
      }
    }

    /** The ultrasonic thread over the lines that arrive, each with the
        host time of its arrival. */
    method CollectUltrasonicData(arrivals: seq<(string, int)>)
      modifies this`ultrasonicQueue, this`ultrasonicSamples
      ensures ultrasonicQueue == old(ultrasonicQueue) + QueuedLines(arrivals)
      ensures ultrasonicSamples == old(ultrasonicSamples) + |QueuedLines(arrivals)|
    {
      for i := 0 to |arrivals|
        invariant ultrasonicQueue == old(ultrasonicQueue) + QueuedLines(arrivals[..i])
        invariant ultrasonicSamples == old(ultrasonicSamples) + |QueuedLines(arrivals[..i])|
      {
        SelectSnoc(arrivals[..i], arrivals[i], ArrivalIsData(), AsUltrasonicEntry());
        assert arrivals[..i + 1] == arrivals[..i] + [arrivals[i]];
        CollectUltrasonicLine(arrivals[i].0, arrivals[i].1);
      }
      assert arrivals[..|arrivals|] == arrivals;
    }

    /** The LiDAR thread of the library-based collector, over the scans the
        library delivers, each with the host time of its delivery: a scan
        is queued, and counted, exactly when it has a valid point. */
    method CollectLidarScans(scans: seq<(int, seq<ScanPoint>)>)
      requires config.variant.FieldOfView?
      modifies this`lidarQueue, this`lidarScans
      ensures lidarQueue == old(lidarQueue) + QueuedLibraryScans(scans)
      ensures lidarScans == old(lidarScans) + |QueuedLibraryScans(scans)|
    {
      for i := 0 to |scans|
        invariant lidarQueue == old(lidarQueue) + QueuedLibraryScans(scans[..i])
        invariant lidarScans == old(lidarScans) + |QueuedLibraryScans(scans[..i])|
      {
        var (timestamp, scan) := scans[i];
        SelectSnoc(scans[..i], scans[i], HasValidPositions(), AsLibraryEntry());
        assert scans[..i + 1] == scans[..i] + [scans[i]];
        var positions := ProcessScanAll(scan);
        if |positions| > 0 {
          lidarQueue := lidarQueue + [LidarEntry(timestamp, positions, |scan|)];
          lidarScans := lidarScans + 1;
        }
      }
      assert scans[..|scans|] == scans;
    }

    /** The loop body of the direct-control LiDAR thread for one full
        record, read once `now` bytes of the stream have been read: a start
        flag closes the scan being collected, if it has records, and queues
        it when it has a position beyond the front line; then the record
        joins the scan being collected. */
    method AcceptRecord(ghost seg: Segmenter, current: seq<Measurement>, m: Measurement,
                        project: Measurement -> (int, int), clock: nat -> int, now: nat,
                        ghost start: nat, ghost queue0: seq<LidarEntry>, ghost scans0: int)
      returns (current': seq<Measurement>)
      requires config.variant.FrontLine? && current == seg.current
      requires now == start + PacketSize * (seg.seen + 1)
      requires lidarQueue == queue0 + QueuedFrontScans(seg.closed, config.variant.frontLineY, project, clock, start)
      requires lidarScans == scans0 + |QueuedFrontScans(seg.closed, config.variant.frontLineY, project, clock, start)|
      modifies this`lidarQueue, this`lidarScans
      ensures current' == Feed(seg, m).current
      ensures lidarQueue == queue0 + QueuedFrontScans(Feed(seg, m).closed, config.variant.frontLineY, project, clock, start)
      ensures lidarScans == scans0 + |QueuedFrontScans(Feed(seg, m).closed, config.variant.frontLineY, project, clock, start)|
    {
      var frontLineY := config.variant.frontLineY;
      FeedQueued(seg, m, frontLineY, project, clock, start);
      current' := current;
      if m.startFlag && |current| > 0 {
        var timestamp := clock(now);
        var positions := ProcessScanFront(ScanPoints(current, project), frontLineY);
        if |positions| > 0 {
          assert LidarEntry(timestamp, positions, |current|)
              == ScanEntry(ClosedScan(current, seg.seen), frontLineY, project, clock, start);
          lidarQueue := lidarQueue + [LidarEntry(timestamp, positions, |current|)];
          lidarScans := lidarScans + 1;
        }
        current' := [];
      }
      current' := current' + [m];
    }

    /** The LiDAR thread of the direct-control collector over everything
        the device sends from the scan request on: check the descriptor
        (a failed check ends the thread), then read 5-byte records, skipping
        a short read, and queue, and count, each scan closed by a start flag
        that has a position beyond the front line.  `project` is the
        trigonometry; `clock(n)` is the host time once n bytes of the stream
        have been read, so a scan is stamped when its closing record has
        been read. */
    method CollectLidarDirect(port: SerialPort, project: Measurement -> (int, int), clock: nat -> int)
      returns (r: Result<(), DescriptorError>)
      requires config.variant.FrontLine? && port.Valid()
      modifies port`cursor, this`lidarQueue, this`lidarScans
      ensures port.Valid()
      ensures r == CheckScanDescriptor(port.data[old(port.cursor)..Min(old(port.cursor) + DescriptorSize, |port.data|)])
      ensures r.Err? ==> lidarQueue == old(lidarQueue) && lidarScans == old(lidarScans)
      ensures r.Ok? ==>
        var start := old(port.cursor) + DescriptorSize;
        var queued := QueuedFrontScans(ScansOf(port.data[start..]), config.variant.frontLineY, project, clock, start);
        && port.cursor == |port.data|
        && lidarQueue == old(lidarQueue) + queued
        && lidarScans == old(lidarScans) + |queued|
    {
      r := StartScanDirect(port);
      if r.Err? {
        return;
      }
      ReadFrontScans(port, project, clock);
    }

    /** The record loop of the direct-control LiDAR thread, from the first
        record to the end of the stream. */
    method ReadFrontScans(port: SerialPort, project: Measurement -> (int, int), clock: nat -> int)
      requires config.variant.FrontLine? && port.Valid()
      modifies port`cursor, this`lidarQueue, this`lidarScans
      ensures port.Valid() && port.cursor == |port.data|
      ensures var queued := QueuedFrontScans(ScansOf(port.data[old(port.cursor)..]), config.variant.frontLineY,
                                             project, clock, old(port.cursor));
        && lidarQueue == old(lidarQueue) + queued
        && lidarScans == old(lidarScans) + |queued|
    {
      ghost var start := port.cursor;
      ghost var consumed: seq<Byte> := [];
      ghost var seg := Initial;
      ghost var queue0, scans0 := lidarQueue, lidarScans;
      var current: seq<Measurement> := [];
      while port.cursor < |port.data|
        invariant port.Valid() && start <= port.cursor
        invariant consumed == port.data[start..port.cursor]
        invariant |consumed| % PacketSize == 0 || port.cursor == |port.data|
        invariant |consumed| % PacketSize == 0 ==> |consumed| == PacketSize * seg.seen
        invariant seg == Segment(Packets(consumed)) && current == seg.current
        invariant lidarQueue == queue0 + QueuedFrontScans(seg.closed, config.variant.frontLineY, project, clock, start)
        invariant lidarScans == scans0 + |QueuedFrontScans(seg.closed, config.variant.frontLineY, project, clock, start)|
        decreases |port.data| - port.cursor
      {
        ghost var before := port.cursor;
        var data := port.Read(PacketSize);
        SliceConcat(port.data, start, before, port.cursor);
        if |data| != PacketSize {
          PacketsShort(consumed, data);
          consumed := consumed + data;
          continue;
        }
        var m := DecodeMeasurement(data);
        PacketsSnoc(consumed, data);
        SegmentSnoc(Packets(consumed), m);
        consumed := consumed + data;
        current := AcceptRecord(seg, current, m, project, clock, port.cursor, start, queue0, scans0);
        seg := Feed(seg, m);
      }
      assert consumed == port.data[start..];
    }

    /** The matching thread's state, with its two local buffers. */
    ghost function State(usBuffer: seq<UltrasonicEntry>, lidarBuffer: seq<LidarEntry>): SyncState
      reads this
    {
      SyncState(ultrasonicQueue, lidarQueue, usBuffer, lidarBuffer, Saved(matchedSamples, rows))
    }

    /** `_save_training_sample`: write the pair's row, or raise. */
    method SaveTrainingSample(us: UltrasonicEntry, lidar: LidarEntry) returns (r: Result<Row, SaveError>)
      modifies this`rows
      ensures r == SampleRow(us, lidar, matchedSamples, config)
      ensures rows == old(rows) + if r.Ok? then [r.value] else []
    {
      r := SampleRow(us, lidar, matchedSamples, config);
      if r.Ok? {
        rows := rows + [r.value];
      }
    }

    /** The save loop of `synchronize_and_save`: one row and one count per
        pair, until a save raises. */
    method SavePairs(pairs: seq<(UltrasonicEntry, LidarEntry)>) returns (ok: bool)
      modifies this`rows, this`matchedSamples
      ensures (Saved(matchedSamples, rows), ok) == SaveAll(pairs, Saved(old(matchedSamples), old(rows)), config)
    {
      ghost var goal := SaveAll(pairs, Saved(matchedSamples, rows), config);
      var i := 0;
      while i < |pairs|
        invariant i <= |pairs|
        invariant SaveAll(pairs[i..], Saved(matchedSamples, rows), config) == goal
      {
        ghost var before := Saved(matchedSamples, rows);
        SaveAllAt(pairs, i, before, config);
        var r := SaveTrainingSample(pairs[i].0, pairs[i].1);
        if r.Err? {
          assert Saved(matchedSamples, rows) == before;
          return false;
        }
        matchedSamples := matchedSamples + 1;
        i := i + 1;
      }
      assert pairs[i..] == [];
      ok := true;
    }

    /** One turn of the matching loop: take from the queues, match, save. */
    method SyncIteration(usBuffer: seq<UltrasonicEntry>, lidarBuffer: seq<LidarEntry>)
      returns (ok: bool, usBuffer': seq<UltrasonicEntry>, lidarBuffer': seq<LidarEntry>)
      requires |usBuffer| <= config.bufferSize && |lidarBuffer| <= config.bufferSize
      requires |ultrasonicQueue| > 0 || |lidarQueue| > 0
      modifies this`ultrasonicQueue, this`lidarQueue, this`matchedSamples, this`rows
      ensures |usBuffer'| <= config.bufferSize && |lidarBuffer'| <= config.bufferSize
      ensures |ultrasonicQueue| + |lidarQueue| < old(|ultrasonicQueue| + |lidarQueue|)
      ensures SyncRun(old(State(usBuffer, lidarBuffer)), config) ==
        if ok then SyncRun(State(usBuffer', lidarBuffer'), config) else (State(usBuffer', lidarBuffer'), false)
    {
      ghost var before := State(usBuffer, lidarBuffer);
      usBuffer', lidarBuffer' := usBuffer, lidarBuffer;
      if |ultrasonicQueue| > 0 {
        usBuffer' := BoundedAppend(usBuffer', ultrasonicQueue[0], config.bufferSize);
        ultrasonicQueue := ultrasonicQueue[1..];
      }
      if |lidarQueue| > 0 {
        lidarBuffer' := BoundedAppend(lidarBuffer', lidarQueue[0], config.bufferSize);
        lidarQueue := lidarQueue[1..];
      }
      ghost var taken := Take(before, config.bufferSize);
      assert taken == State(usBuffer', lidarBuffer');
      var pairs;
      pairs, usBuffer', lidarBuffer' := MatchPass(usBuffer', lidarBuffer', config.windowMs);
      ghost var matchedState := State(usBuffer', lidarBuffer');
      assert SyncRun(before, config) == Continue(pairs, matchedState, config);
      ok := SavePairs(pairs);
      assert State(usBuffer', lidarBuffer') == matchedState.(saved := Saved(matchedSamples, rows));
    }

    /** The loop of `synchronize_and_save`, from empty buffers: iterate
        until both queues are empty or a save raises, ending where SyncRun
        ends. */
    method RunMatching() returns (ok: bool, usBuffer: seq<UltrasonicEntry>, lidarBuffer: seq<LidarEntry>)
      modifies this`ultrasonicQueue, this`lidarQueue, this`matchedSamples, this`rows
      ensures SyncRun(old(State([], [])), config) == (State(usBuffer, lidarBuffer), ok)
    {
      usBuffer, lidarBuffer := [], [];
      ghost var goal := SyncRun(State(usBuffer, lidarBuffer), config);
      while |ultrasonicQueue| > 0 || |lidarQueue| > 0
        invariant |usBuffer| <= config.bufferSize && |lidarBuffer| <= config.bufferSize
        invariant SyncRun(State(usBuffer, lidarBuffer), config) == goal
        decreases |ultrasonicQueue| + |lidarQueue|
      {
        ok, usBuffer, lidarBuffer := SyncIteration(usBuffer, lidarBuffer);
        if !ok {
          return;
        }
      }
      ok := true;
    }

    /** `synchronize_and_save` once both producers have stopped: the
        thread's queues, counter and file end as SyncRun says; when it
        completes, the unmatched counters are what is left in the buffers,
        and when a save raises they are not set. */
    method SynchronizeAndSave() returns (completed: bool)
      modifies this`ultrasonicQueue, this`lidarQueue, this`matchedSamples, this`rows,
               this`unmatchedUltrasonic, this`unmatchedLidar
      ensures var r := SyncRun(SyncState(old(ultrasonicQueue), old(lidarQueue), [], [],
                                         Saved(old(matchedSamples), old(rows))), config);
        && completed == r.1
        && ultrasonicQueue == r.0.usQueue && lidarQueue == r.0.lidarQueue
        && matchedSamples == r.0.saved.matched && rows == r.0.saved.rows
        && unmatchedUltrasonic == (if completed then |r.0.usBuffer| else old(unmatchedUltrasonic))
        && unmatchedLidar == (if completed then |r.0.lidarBuffer| else old(unmatchedLidar))
    {
      ghost var initial := State([], []);
      var usBuffer, lidarBuffer;
      completed, usBuffer, lidarBuffer := RunMatching();
      ghost var final := State(usBuffer, lidarBuffer);
      assert SyncRun(initial, config) == (final, completed);
      assert final.usQueue == ultrasonicQueue && final.lidarQueue == lidarQueue;
      assert final.saved == Saved(matchedSamples, rows);
      if completed {
        unmatchedUltrasonic := |usBuffer|;
        unmatchedLidar := |lidarBuffer|;
      }
    }
  }
}
