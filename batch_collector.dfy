/** The stand-alone ultrasonic collector: it starts the Arduino with an
    acknowledged command, turns each data line into a record of per-sensor
    readings, and writes the records out in batches.  The output files are
    a ghost sink of records; the CSV layout of a batch is given by
    FieldNames and CsvRow. */
module BatchCollector {
  import opened Wrappers
  import opened Text
  import opened Sequences

  // ---------------------------------------------------------------------
  // Commands and acknowledgements

  /** `send_command`'s result is acknowledged when there is a response and
      it contains the expected `ACK:` text. */
  predicate Acknowledged(response: Option<string>, ack: string) {
    response.Some? && Contains(response.value, ack)
  }

  function StartCommand(samples: int): string {
    "START:" + IntToString(samples)
  }

  function ConfigCommand(samples: int): string {
    "CONFIG:" + IntToString(samples)
  }

  /** The device reads the sample count back from the command text. */
  lemma CommandCarriesSamples(samples: int)
    ensures StartsWith(StartCommand(samples), "START:")
    ensures ParseInt(StartCommand(samples)[|"START:"|..]) == Some(samples)
    ensures StartsWith(ConfigCommand(samples), "CONFIG:")
    ensures ParseInt(ConfigCommand(samples)[|"CONFIG:"|..]) == Some(samples)
  {
    ParseIntToString(samples);
    assert StartCommand(samples)[|"START:"|..] == IntToString(samples);
    assert ConfigCommand(samples)[|"CONFIG:"|..] == IntToString(samples);
  }

  /** A response is acknowledged whatever surrounds the `ACK:` text, and
      never when there is no response or it is shorter than the text. */
  lemma AcknowledgedWhen(before: string, ack: string, after: string)
    ensures Acknowledged(Some(before + ack + after), ack)
    ensures !Acknowledged(None, ack)
    ensures |before| < |ack| ==> !Acknowledged(Some(before), ack)
  {
    var s := before + ack + after;
    assert s[|before|..|before| + |ack|] == ack;
    assert OccursAt(s, ack, |before|);
    if |before| < |ack| {
      ContainsShorter(before, ack);
    }
  }

  // ---------------------------------------------------------------------
  // Records

  /** A queued record: the host time of parsing (an ISO string in the
      source), the Arduino's timestamp and one list of readings per
      sensor. */
  datatype Entry = Entry(systemTimestamp: int, arduinoTimestampMs: int, sensorReadings: seq<seq<int>>)

  /** `[int(v) for v in fields]`, or None where `int` raises. */
  function ParseAll(fields: seq<string>): (r: Option<seq<int>>)
    ensures r.Some? <==> forall k :: 0 <= k < |fields| ==> ParseInt(fields[k]).Some?
    ensures r.Some? ==> |r.value| == |fields|
    ensures r.Some? ==> forall k :: 0 <= k < |fields| ==> r.value[k] == ParseInt(fields[k]).value
  {
    if fields == [] then Some([])
    else
      var init := fields[..|fields| - 1];
      match ParseAll(init)
      case None =>
        assert exists k :: 0 <= k < |init| && ParseInt(init[k]).None?;
        None
      case Some(vs) =>
        match ParseInt(fields[|fields| - 1])
        case None => None
        case Some(v) => Some(vs + [v])
  }

  /** `all_values[i * r : i * r + r]` */
  function Chunk(values: seq<int>, i: int, r: int): seq<int> {
    PySlice(values, i * r, i * r + r)
  }

  /** The per-sensor lists: one slice per sensor in `range(num_sensors)`. */
  function Chunks(values: seq<int>, numSensors: int, r: int): (chunks: seq<seq<int>>)
    ensures |chunks| == if numSensors > 0 then numSensors else 0
  {
    seq(if numSensors > 0 then numSensors else 0, i requires 0 <= i => Chunk(values, i, r))
  }

  /** What `_parse_sensor_data` makes of a line at host time `now`: nothing
      when it has fewer than three fields or a field after the first that
      `int` rejects, else a record of the timestamp and the reshaped
      readings. */
  function ParseLine(line: string, now: int, numSensors: int, r: int): Option<Entry> {
    var parts := Split(line, ',');
    if |parts| < 3 then None
    else match ParseInt(parts[1])
      case None => None
      case Some(timestamp) =>
        match ParseAll(parts[2..])
        case None => None
        case Some(values) => Some(Entry(now, timestamp, Chunks(values, numSensors, r)))
  }

  /** A line yields a record exactly when it has at least three fields and
      every field after the first is an integer. */
  lemma ParseLineAccepts(line: string, now: int, numSensors: int, r: int)
    ensures var parts := Split(line, ',');
      ParseLine(line, now, numSensors, r).Some? <==>
        |parts| >= 3 && forall k :: 1 <= k < |parts| ==> ParseInt(parts[k]).Some?
  {
    var parts := Split(line, ',');
    if |parts| >= 3 {
      var rest := parts[2..];
      assert forall k :: 2 <= k < |parts| ==> parts[k] == rest[k - 2];
      if forall k :: 1 <= k < |parts| ==> ParseInt(parts[k]).Some? {
        assert forall k :: 0 <= k < |rest| ==> ParseInt(rest[k]).Some?;
      }
    }
  }

  /** The record carries the host time, field 1 as the Arduino timestamp,
      and the values of the remaining fields cut into one list per
      sensor. */
  lemma ParseLineRecord(line: string, now: int, numSensors: int, r: int)
    requires ParseLine(line, now, numSensors, r).Some?
    ensures var parts := Split(line, ',');
      var e := ParseLine(line, now, numSensors, r).value;
      && |parts| >= 3
      && e.systemTimestamp == now
      && Some(e.arduinoTimestampMs) == ParseInt(parts[1])
      && |ParseAll(parts[2..]).value| == |parts| - 2
      && e.sensorReadings == Chunks(ParseAll(parts[2..]).value, numSensors, r)
  {
  }

  /** With a non-negative `readings_per_trigger` r, list i holds the
      readings from i·r on, min(r, max(0, len − i·r)) of them. */
  lemma ChunksLayout(values: seq<int>, numSensors: int, r: nat)
    ensures forall i :: 0 <= i < |Chunks(values, numSensors, r)| ==>
      |Chunks(values, numSensors, r)[i]| == ChunkLength(|values|, i, r)
    ensures forall i, j :: 0 <= i < |Chunks(values, numSensors, r)| && 0 <= j < |Chunks(values, numSensors, r)[i]| ==>
      i * r + j < |values| && Chunks(values, numSensors, r)[i][j] == values[i * r + j]
  {
    forall i | 0 <= i < |Chunks(values, numSensors, r)|
      ensures |Chunks(values, numSensors, r)[i]| == ChunkLength(|values|, i, r)
      ensures forall j :: 0 <= j < |Chunks(values, numSensors, r)[i]| ==>
        i * r + j < |values| && Chunks(values, numSensors, r)[i][j] == values[i * r + j]
    {
      ChunkShape(values, i, r);
    }
  }

  /** min(r, max(0, len − i·r)) */
  function ChunkLength(len: nat, i: nat, r: nat): nat {
    if len <= i * r then 0 else if len - i * r < r then len - i * r else r
  }

  lemma ChunkShape(values: seq<int>, i: nat, r: nat)
    ensures |Chunk(values, i, r)| == ChunkLength(|values|, i, r)
    ensures forall j :: 0 <= j < |Chunk(values, i, r)| ==> i * r + j < |values| && Chunk(values, i, r)[j] == values[i * r + j]
  {
    var a := i * r;
    var c := Chunk(values, i, r);
    assert c == PySlice(values, a, a + r);
    SliceShape(values, a, r);
    assert |c| == ChunkLength(|values|, i, r);
    forall j | 0 <= j < |c| ensures a + j < |values| && c[j] == values[a + j] {
    }
  }

  /** The slice [a, a + r) of the readings, as `values[a:a + r]` sees it. */
  lemma SliceShape(values: seq<int>, a: nat, r: nat)
    ensures var slice := PySlice(values, a, a + r);
      && |slice| == (if |values| <= a then 0 else if |values| - a < r then |values| - a else r)
      && forall j :: 0 <= j < |slice| ==> a + j < |values| && slice[j] == values[a + j]
  {
    NonNegativeSlice(values, a, a + r);
    if |PySlice(values, a, a + r)| > 0 {
      assert ClampIndex(a, |values|) == a;
    }
  }

  /** The chunks, read one after the other, give back the readings they
      cover: all of them when the line carries at least num_sensors · r. */
  lemma {:induction false} ChunksFlatten(values: seq<int>, n: nat, r: nat)
    ensures Concat(Chunks(values, n, r)) == values[..Covered(|values|, n * r)]
  {
    if n > 0 {
      var m := n - 1;
      var a := m * r;
      ChunksFlatten(values, m, r);
      ChunksSnoc(values, m, r);
      ConcatSnoc(Chunks(values, m, r), PySlice(values, a, a + r));
      SliceAfterPrefix(values, a, r);
      MulSucc(m, r);
    }
  }

  lemma MulSucc(m: nat, r: nat)
    ensures (m + 1) * r == m * r + r
  {
  }

  lemma ConcatSnoc(ss: seq<seq<int>>, s: seq<int>)
    ensures Concat(ss + [s]) == Concat(ss) + s
  {
    assert (ss + [s])[..|ss|] == ss;
  }

  lemma ChunksSnoc(values: seq<int>, n: nat, r: nat)
    ensures Chunks(values, n + 1, r) == Chunks(values, n, r) + [PySlice(values, n * r, n * r + r)]
  {
    var chunks := Chunks(values, n + 1, r);
    assert chunks[..n] == Chunks(values, n, r);
    assert chunks == chunks[..n] + [chunks[n]];
  }

  /** min(len, upTo) */
  function Covered(len: nat, upTo: nat): nat {
    if len < upTo then len else upTo
  }

  /** The slice [a, a + r) continues the prefix of length a. */
  lemma SliceAfterPrefix(values: seq<int>, a: nat, r: nat)
    ensures values[..Covered(|values|, a)] + PySlice(values, a, a + r) == values[..Covered(|values|, a + r)]
  {
    if a < |values| {
      var upTo := if |values| < a + r then |values| else a + r;
      assert PySlice(values, a, a + r) == values[a..upTo];
      assert values[..a] + values[a..upTo] == values[..upTo];
    }
  }

  /** The sequences of a sequence, one after the other. */
  function Concat(ss: seq<seq<int>>): seq<int> {
    if ss == [] then [] else Concat(ss[..|ss| - 1]) + ss[|ss| - 1]
  }

  /** The record a line read at host time `now` queues, if any: only lines
      starting with "S," are parsed. */
  predicate Queues(a: (string, int), numSensors: int, r: int) {
    StartsWith(a.0, "S,") && ParseLine(a.0, a.1, numSensors, r).Some?
  }

  function QueuesFilter(numSensors: int, r: int): ((string, int)) -> bool {
    (a: (string, int)) => Queues(a, numSensors, r)
  }

  function AsRecord(numSensors: int, r: int): ((string, int)) -> Entry {
    (a: (string, int)) => match ParseLine(a.0, a.1, numSensors, r) case Some(e) => e case None => Entry(a.1, 0, [])
  }

  /** The records queued from lines read at the given host times. */
  function QueuedRecords(lines: seq<(string, int)>, numSensors: int, r: int): seq<Entry> {
    Select(lines, QueuesFilter(numSensors, r), AsRecord(numSensors, r))
  }

  // ---------------------------------------------------------------------
  // The CSV layout of a batch

  /** `sensor_{i+1}_reading_{j+1}` */
  function FieldName(i: nat, j: nat): string {
    "sensor_" + NatToString(i + 1) + "_reading_" + NatToString(j + 1)
  }

  /** Position of (i, j) in a sensor-major grid with r columns. */
  function GridPos(i: nat, j: nat, r: nat): nat {
    i * r + j
  }

  /** `f(i, j)` for i in range(n), for j in range(r), sensor-major. */
  function Grid<T>(n: nat, r: nat, f: (nat, nat) -> T): seq<T> {
    if n == 0 then [] else Grid(n - 1, r, f) + seq(r, j requires 0 <= j => f(n - 1, j))
  }

  lemma MulMono(a: nat, b: nat, r: nat)
    requires a <= b
    ensures a * r <= b * r
  {
  }

  lemma {:induction false} GridIndex<T>(n: nat, r: nat, f: (nat, nat) -> T)
    ensures |Grid(n, r, f)| == n * r
    ensures forall i, j :: 0 <= i < n && 0 <= j < r ==> GridPos(i, j, r) < n * r && Grid(n, r, f)[GridPos(i, j, r)] == f(i, j)
  {
    if n > 0 {
      GridIndex(n - 1, r, f);
      var g := Grid(n, r, f);
      var prev := Grid(n - 1, r, f);
      assert n * r == (n - 1) * r + r;
      forall i, j | 0 <= i < n && 0 <= j < r
        ensures GridPos(i, j, r) < n * r && g[GridPos(i, j, r)] == f(i, j)
      {
        if i < n - 1 {
          MulMono(i + 1, n - 1, r);
          assert (i + 1) * r == i * r + r;
          assert g[GridPos(i, j, r)] == prev[GridPos(i, j, r)];
        } else {
          assert GridPos(i, j, r) == (n - 1) * r + j;
        }
      }
    }
  }

  function FieldNames(n: nat, r: nat): seq<string> {
    ["system_timestamp", "arduino_timestamp_ms"] + Grid(n, r, FieldName)
  }

  /** The header names the two timestamps, then n · r readings in
      sensor-major order. */
  lemma FieldNamesLayout(n: nat, r: nat)
    ensures |FieldNames(n, r)| == 2 + n * r
    ensures FieldNames(n, r)[0] == "system_timestamp" && FieldNames(n, r)[1] == "arduino_timestamp_ms"
    ensures forall i, j :: 0 <= i < n && 0 <= j < r ==>
      2 + GridPos(i, j, r) < |FieldNames(n, r)| && FieldNames(n, r)[2 + GridPos(i, j, r)] == FieldName(i, j)
  {
    GridIndex(n, r, FieldName);
  }

  /** A CSV cell: a value, or the empty text `DictWriter` writes for a
      field the record lacks. */
  datatype Field = Value(value: int) | Blank

  /** The record has a reading at sensor i, position j. */
  predicate HasReading(e: Entry, i: nat, j: nat) {
    i < |e.sensorReadings| && j < |e.sensorReadings[i]|
  }

  function Reading(e: Entry, i: nat, j: nat): Field {
    if HasReading(e, i, j) then Value(e.sensorReadings[i][j]) else Blank
  }

  /** Every reading of the record has a column in an n × r header;
      `DictWriter` raises ValueError otherwise. */
  predicate Fits(e: Entry, n: nat, r: nat) {
    forall i :: 0 <= i < |e.sensorReadings| ==>
      (e.sensorReadings[i] == [] || i < n) && |e.sensorReadings[i]| <= r
  }

  /** A record fits exactly when each of its readings has a column. */
  lemma FitsMeans(e: Entry, n: nat, r: nat)
    ensures Fits(e, n, r) <==> forall i: nat, j: nat :: HasReading(e, i, j) ==> i < n && j < r
  {
    if !Fits(e, n, r) {
      var i :| 0 <= i < |e.sensorReadings| && !((e.sensorReadings[i] == [] || i < n) && |e.sensorReadings[i]| <= r);
      if e.sensorReadings[i] != [] && i >= n {
        assert HasReading(e, i, 0);
      } else {
        assert HasReading(e, i, |e.sensorReadings[i]| - 1);
      }
    }
  }

  function ReadingOf(e: Entry): (nat, nat) -> Field {
    (i: nat, j: nat) => Reading(e, i, j)
  }

  /** The row `writer.writerow` writes for a record under an n × r header. */
  function CsvRow(e: Entry, n: nat, r: nat): seq<Field> {
    [Value(e.systemTimestamp), Value(e.arduinoTimestampMs)] + Grid(n, r, ReadingOf(e))
  }

  /** Each row lines up with the header: under `sensor_{i+1}_reading_{j+1}`
      stands reading j of sensor i, or an empty cell when the record has no
      such reading. */
  lemma CsvRowLayout(e: Entry, n: nat, r: nat)
    ensures |CsvRow(e, n, r)| == |FieldNames(n, r)|
    ensures CsvRow(e, n, r)[0] == Value(e.systemTimestamp) && CsvRow(e, n, r)[1] == Value(e.arduinoTimestampMs)
    ensures forall i, j :: 0 <= i < n && 0 <= j < r ==>
      2 + GridPos(i, j, r) < |FieldNames(n, r)|
      && FieldNames(n, r)[2 + GridPos(i, j, r)] == FieldName(i, j)
      && CsvRow(e, n, r)[2 + GridPos(i, j, r)] == (if HasReading(e, i, j) then Value(e.sensorReadings[i][j]) else Blank)
  {
    FieldNamesLayout(n, r);
    GridIndex(n, r, ReadingOf(e));
  }

  /** The shape `_write_csv` takes from the first record of the batch. */
  function Shape(first: Entry): (nat, nat)
    requires first.sensorReadings != []
  {
    (|first.sensorReadings|, |first.sensorReadings[0]|)
  }

  /** How a CSV write of a non-empty batch fails: IndexError when the first
      record has no sensors, ValueError at the first record with a reading
      the header has no column for. */
  datatype CsvError = NoSensors | UnknownField(record: nat)

  /** How far a CSV write of the batch gets: the number of leading records
      written, and the error that stops it, if any. */
  function CsvOutcome(batch: seq<Entry>): (r: (nat, Option<CsvError>))
    requires batch != []
    ensures r.0 <= |batch|
    ensures batch[0].sensorReadings == [] ==> r == (0, Some(NoSensors))
    ensures batch[0].sensorReadings != [] ==>
      var (n, w) := Shape(batch[0]);
      && (forall k :: 0 <= k < r.0 ==> Fits(batch[k], n, w))
      && (r.1.None? <==> r.0 == |batch|)
      && (r.1.Some? ==> !Fits(batch[r.0], n, w) && r.1 == Some(UnknownField(r.0)))
  {
    if batch[0].sensorReadings == [] then (0, Some(NoSensors))
    else
      var (n, w) := Shape(batch[0]);
      FitsPrefix(batch, n, w)
  }

  function FitsPrefix(batch: seq<Entry>, n: nat, w: nat): (r: (nat, Option<CsvError>))
    ensures r.0 <= |batch|
    ensures forall k :: 0 <= k < r.0 ==> Fits(batch[k], n, w)
    ensures r.1.None? <==> r.0 == |batch|
    ensures r.1.Some? ==> r.0 < |batch| && !Fits(batch[r.0], n, w) && r.1 == Some(UnknownField(r.0))
  {
    if batch == [] then (0, None)
    else
      var r := FitsPrefix(batch[..|batch| - 1], n, w);
      if r.1.Some? then r
      else if Fits(batch[|batch| - 1], n, w) then (|batch|, None)
      else (|batch| - 1, Some(UnknownField(|batch| - 1)))
  }

  /** The first record's own readings always fit its header. */
  lemma FirstRecordFits(batch: seq<Entry>)
    requires batch != [] && batch[0].sensorReadings != []
    requires forall i :: 0 <= i < |batch[0].sensorReadings| ==>
               |batch[0].sensorReadings[i]| <= |batch[0].sensorReadings[0]|
    ensures CsvOutcome(batch).0 >= 1
  {
  }

  datatype FileFormat = Csv | Json

  /** `_adc_to_distance`: one ADC unit is about one centimetre. */
  function AdcToDistance(adc: int): (cm: int)
    ensures cm == adc
  {
    adc
  }

  // ---------------------------------------------------------------------
  // The collector

  class UltrasonicDataCollector {
    /** `sensors.count`, `sensors.readings_per_trigger`, `data.buffer_size`,
        `data.file_format`. */
    const numSensors: int
    const readingsPerTrigger: int
    const bufferSize: int
    const format: FileFormat
    /** `sensors.samples_per_trigger`, which UpdateConfig changes. */
    var samplesPerTrigger: int
    var isRunning: bool
    var dataQueue: seq<Entry>
    var dataBuffer: seq<Entry>
    /** Every record that has reached an output file, in order. */
    ghost var sink: seq<Entry>

    /** `readings_per_trigger` defaults to 10. */
    constructor (numSensors: int, readingsPerTrigger: Option<int>, bufferSize: int, format: FileFormat,
                 samplesPerTrigger: int)
      ensures this.numSensors == numSensors && this.bufferSize == bufferSize && this.format == format
      ensures this.readingsPerTrigger == if readingsPerTrigger.Some? then readingsPerTrigger.value else 10
      ensures this.samplesPerTrigger == samplesPerTrigger
      ensures !isRunning && dataQueue == [] && dataBuffer == [] && sink == []
    {
      this.numSensors := numSensors;
      this.readingsPerTrigger := if readingsPerTrigger.Some? then readingsPerTrigger.value else 10;
      this.bufferSize := bufferSize;
      this.format := format;
      this.samplesPerTrigger := samplesPerTrigger;
      isRunning := false;
      dataQueue, dataBuffer := [], [];
      sink := [];
    }

    /** `start_collection`: `respond` is the Arduino's answer to a command,
        None when there is no connection.  Collection starts exactly when
        the answer acknowledges with `ACK:STARTED`. */
    method StartCollection(samples: Option<int>, respond: string -> Option<string>) returns (started: bool)
      modifies this`isRunning
      ensures var n := if samples.Some? then samples.value else samplesPerTrigger;
        started == Acknowledged(respond(StartCommand(n)), "ACK:STARTED")
      ensures isRunning == (old(isRunning) || started)
    {
      var n := if samples.Some? then samples.value else samplesPerTrigger;
      var response := respond(StartCommand(n));
      started := response.Some? && Contains(response.value, "ACK:STARTED");
      if started {
        isRunning := true;
      }
    }

    /** `update_config`: the configured sample count changes exactly when
        the answer acknowledges with `ACK:CONFIG_UPDATED`. */
    method UpdateConfig(samples: int, respond: string -> Option<string>) returns (updated: bool)
      modifies this`samplesPerTrigger
      ensures updated == Acknowledged(respond(ConfigCommand(samples)), "ACK:CONFIG_UPDATED")
      ensures samplesPerTrigger == if updated then samples else old(samplesPerTrigger)
    {
      var response := respond(ConfigCommand(samples));
      updated := response.Some? && Contains(response.value, "ACK:CONFIG_UPDATED");
      if updated {
        samplesPerTrigger := samples;
      }
    }

    /** `_parse_sensor_data`: queue the line's record, if it has one. */
    method ParseSensorData(line: string, now: int)
      modifies this`dataQueue
      ensures var e := ParseLine(line, now, numSensors, readingsPerTrigger);
        dataQueue == old(dataQueue) + if e.Some? then [e.value] else []
    {
      var parts := Split(line, ',');
      if |parts| < 3 {
        return;
      }
      var timestamp := ParseInt(parts[1]);
      if timestamp.None? {
        return;
      }
      var allValues := ParseAll(parts[2..]);
      if allValues.None? {
        return;
      }
      var values := allValues.value;
      var sensorReadings: seq<seq<int>> := [];
      var i := 0;
      while i < numSensors
        invariant 0 <= i && (numSensors >= 0 ==> i <= numSensors)
        invariant i == 0 || i <= numSensors
        invariant |sensorReadings| == i
        invariant forall k :: 0 <= k < i ==> sensorReadings[k] == Chunk(values, k, readingsPerTrigger)
      {
        var startIdx := i * readingsPerTrigger;
        var endIdx := startIdx + readingsPerTrigger;
        sensorReadings := sensorReadings + [PySlice(values, startIdx, endIdx)];
        i := i + 1;
      }
      assert sensorReadings == Chunks(values, numSensors, readingsPerTrigger);
      dataQueue := dataQueue + [Entry(now, timestamp.value, sensorReadings)];
    }

    /** `_read_data_loop` over the lines that arrive, each with the host
        time it is parsed at: only lines starting with "S," are parsed. */
    method ReadLines(lines: seq<(string, int)>)
      modifies this`dataQueue
      ensures dataQueue == old(dataQueue) + QueuedRecords(lines, numSensors, readingsPerTrigger)
    {
      for k := 0 to |lines|
        invariant dataQueue == old(dataQueue) + QueuedRecords(lines[..k], numSensors, readingsPerTrigger)
      {
        SelectSnoc(lines[..k], lines[k], QueuesFilter(numSensors, readingsPerTrigger), AsRecord(numSensors, readingsPerTrigger));
        assert lines[..k + 1] == lines[..k] + [lines[k]];
        var (line, now) := lines[k];
        if StartsWith(line, "S,") {
          ParseSensorData(line, now);
        }
      }
      assert lines[..|lines|] == lines;
    }

    /** `_write_csv` over the buffer: the header taken from the first
        record's shape, then one row per record until one does not fit. */
    method WriteCsv() returns (fieldnames: seq<string>, rows: seq<seq<Field>>, err: Option<CsvError>)
      requires dataBuffer != []
      ensures (|rows|, err) == CsvOutcome(dataBuffer)
      ensures dataBuffer[0].sensorReadings != [] ==>
        var (n, w) := Shape(dataBuffer[0]);
        && fieldnames == FieldNames(n, w)
        && forall k :: 0 <= k < |rows| ==> rows[k] == CsvRow(dataBuffer[k], n, w)
    {
      if dataBuffer[0].sensorReadings == [] {
        return [], [], Some(NoSensors);
      }
      var n, w := |dataBuffer[0].sensorReadings|, |dataBuffer[0].sensorReadings[0]|;
      fieldnames := BuildFieldNames(n, w);
      rows, err := WriteRows(dataBuffer, n, w);
    }

    /** The `writer.writerow` loop of `_write_csv`: one row per record,
        stopping at the first record with a reading that has no column. */
    static method WriteRows(batch: seq<Entry>, n: nat, w: nat) returns (rows: seq<seq<Field>>, err: Option<CsvError>)
      ensures (|rows|, err) == FitsPrefix(batch, n, w)
      ensures forall k :: 0 <= k < |rows| ==> rows[k] == CsvRow(batch[k], n, w)
    {
      rows := [];
      var k := 0;
      while k < |batch|
        invariant k <= |batch| && |rows| == k
        invariant FitsPrefix(batch[..k], n, w) == (k, None)
        invariant forall m :: 0 <= m < k ==> rows[m] == CsvRow(batch[m], n, w)
      {
        FitsPrefixExtends(batch, k + 1, n, w);
        if !Fits(batch[k], n, w) {
          if k + 1 < |batch| {
            FitsPrefixStops(batch, k + 1, n, w);
          }
          return rows, Some(UnknownField(k));
        }
        rows := rows + [CsvRow(batch[k], n, w)];
        k := k + 1;
      }
      assert batch[..k] == batch;
      err := None;
    }

    /** The `fieldnames` list of `_write_csv`, built sensor by sensor. */
    static method BuildFieldNames(n: nat, w: nat) returns (fieldnames: seq<string>)
      ensures fieldnames == FieldNames(n, w)
    {
      fieldnames := ["system_timestamp", "arduino_timestamp_ms"];
      for i := 0 to n
        invariant fieldnames == FieldNames(i, w)
      {
        ghost var before := fieldnames;
        for j := 0 to w
          invariant fieldnames == before + seq(j, j' requires 0 <= j' => FieldName(i, j'))
        {
          fieldnames := fieldnames + [FieldName(i, j)];
        }
        assert fieldnames == before + seq(w, j' requires 0 <= j' => FieldName(i, j'));
      }
    }

    /** `_flush_buffer`: nothing when the buffer is empty; otherwise the
        batch goes to the file and the buffer is cleared, unless a CSV
        write raises, which leaves the buffer as it was after writing the
        records before the failing one. */
    method FlushBuffer() returns (err: Option<CsvError>)
      modifies this`dataBuffer, this`sink
      ensures old(dataBuffer) == [] ==> err.None? && dataBuffer == [] && sink == old(sink)
      ensures err.None? ==> dataBuffer == [] && sink == old(sink) + old(dataBuffer)
      ensures err.Some? ==>
        && format == Csv && old(dataBuffer) != []
        && err == CsvOutcome(old(dataBuffer)).1
        && dataBuffer == old(dataBuffer)
        && sink == old(sink) + old(dataBuffer)[..CsvOutcome(old(dataBuffer)).0]
    {
      if dataBuffer == [] {
        return None;
      }
      if format == Csv {
        var fieldnames, rows;
        fieldnames, rows, err := WriteCsv();
        sink := sink + dataBuffer[..|rows|];
        if err.Some? {
          return;
        }
        assert dataBuffer[..|rows|] == dataBuffer;
      } else {
        sink := sink + dataBuffer;
        err := None;
      }
      dataBuffer := [];
    }

    /** One turn of `_write_data_loop`: append the record, then flush once
        the buffer holds `buffer_size` records.  A failed flush writes the
        records before the failing one and keeps the whole buffer. */
    method Append(entry: Entry) returns (err: Option<CsvError>)
      modifies this`dataBuffer, this`sink
      ensures |old(dataBuffer)| + 1 < bufferSize ==>
        err.None? && dataBuffer == old(dataBuffer) + [entry] && sink == old(sink)
      ensures |old(dataBuffer)| + 1 >= bufferSize && err.None? ==>
        dataBuffer == [] && sink == old(sink) + old(dataBuffer) + [entry]
      ensures err.Some? ==>
        && |old(dataBuffer)| + 1 >= bufferSize && format == Csv
        && dataBuffer == old(dataBuffer) + [entry]
        && err == CsvOutcome(old(dataBuffer) + [entry]).1
        && sink == old(sink) + (old(dataBuffer) + [entry])[..CsvOutcome(old(dataBuffer) + [entry]).0]
      ensures old(sink) <= sink
    {
      dataBuffer := dataBuffer + [entry];
      err := None;
      if |dataBuffer| >= bufferSize {
        err := FlushBuffer();
      }
    }

    /** `_write_data_loop` once reading has stopped: drain the queue
        through the buffer.  When no flush fails, every record is either in
        the sink or still buffered, in order, and fewer than `buffer_size`
        stay buffered.  Whether or not a flush fails, the sink only grows
        and no record is lost: `flushed` are the records that left the
        buffer through a flush that succeeded, every one of them is in the
        sink, and the rest are still buffered, in order. */
    method WriteDataLoop() returns (failures: nat, ghost flushed: seq<Entry>)
      modifies this`dataQueue, this`dataBuffer, this`sink
      ensures dataQueue == []
      ensures old(sink) <= sink
      ensures flushed + dataBuffer == old(dataBuffer) + old(dataQueue)
      ensures Delivered(old(sink), flushed, sink)
      ensures failures == 0 ==> sink == old(sink) + flushed
      ensures failures == 0 ==> sink + dataBuffer == old(sink) + old(dataBuffer) + old(dataQueue)
      ensures failures == 0 && old(dataQueue) != [] ==> |dataBuffer| < bufferSize || dataBuffer == []
    {
      failures := 0;
      flushed := [];
      ghost var start, all := sink, dataBuffer + dataQueue;
      ghost var appended := false;
      while dataQueue != []
        invariant start <= sink
        invariant flushed + dataBuffer + dataQueue == all
        invariant Delivered(start, flushed, sink)
        invariant failures == 0 ==> sink == start + flushed
        invariant failures == 0 && appended ==> |dataBuffer| < bufferSize || dataBuffer == []
        invariant !appended ==> dataQueue == old(dataQueue)
        decreases |dataQueue|
      {
        var entry := dataQueue[0];
        ghost var queued := dataQueue;
        ghost var buffered := dataBuffer;
        ghost var written := sink;
        dataQueue := dataQueue[1..];
        QueueStep(flushed, buffered, queued, all);
        var err := Append(entry);
        if err.Some? {
          failures := failures + 1;
          PrefixMultiset(start, flushed, written, sink);
        } else if |buffered| + 1 >= bufferSize {
          FlushMultiset(start, flushed, written, buffered, entry);
          flushed := flushed + (buffered + [entry]);
        }
        SinkGrows(start, written, sink);
        appended := true;
      }
      Regroup(old(sink), flushed, dataBuffer, old(dataBuffer), old(dataQueue));
    }

    /** `stop_collection`: stop, then flush what is buffered; a failed
        flush writes the records before the failing one and keeps the
        buffer. */
    method StopCollection() returns (err: Option<CsvError>)
      modifies this`isRunning, this`dataBuffer, this`sink
      ensures !isRunning
      ensures err.None? ==> dataBuffer == [] && sink == old(sink) + old(dataBuffer)
      ensures err.Some? ==>
        && format == Csv && old(dataBuffer) != []
        && err == CsvOutcome(old(dataBuffer)).1
        && dataBuffer == old(dataBuffer)
        && sink == old(sink) + old(dataBuffer)[..CsvOutcome(old(dataBuffer)).0]
    {
      isRunning := false;
      err := FlushBuffer();
    }
  }

  /** Every record of `start` and `flushed` is in `sink`, counted with
      multiplicity. */
  ghost predicate Delivered(start: seq<Entry>, flushed: seq<Entry>, sink: seq<Entry>) {
    multiset(start + flushed) <= multiset(sink)
  }

  /** Writing more to the sink keeps what it already held. */
  lemma PrefixMultiset(start: seq<Entry>, flushed: seq<Entry>, before: seq<Entry>, after: seq<Entry>)
    requires Delivered(start, flushed, before)
    requires before <= after
    ensures Delivered(start, flushed, after)
  {
    assert after == before + after[|before|..];
  }

  /** Moving the head of the queue into the buffer keeps the records in
      order. */
  lemma QueueStep(flushed: seq<Entry>, buffered: seq<Entry>, queued: seq<Entry>, all: seq<Entry>)
    requires queued != []
    requires flushed + buffered + queued == all
    ensures flushed + (buffered + [queued[0]]) + queued[1..] == all
    ensures flushed + (buffered + [queued[0]]) + [] + queued[1..] == all
  {
    assert queued == [queued[0]] + queued[1..];
  }

  /** The sink followed by the buffer, regrouped. */
  lemma Regroup(start: seq<Entry>, flushed: seq<Entry>, buffered: seq<Entry>, a: seq<Entry>, b: seq<Entry>)
    requires flushed + buffered == a + b
    ensures start + flushed + buffered == start + a + b
  {
    assert start + flushed + buffered == start + (flushed + buffered);
  }

  /** A sink that grew from a sink that grew still starts with the first. */
  lemma SinkGrows(start: seq<Entry>, written: seq<Entry>, sink: seq<Entry>)
    requires start <= written <= sink
    ensures start <= sink
  {
  }

  /** A flush that succeeds moves the whole buffer, with the record just
      appended, into the sink. */
  lemma FlushMultiset(start: seq<Entry>, flushed: seq<Entry>, written: seq<Entry>, buffered: seq<Entry>, entry: Entry)
    requires Delivered(start, flushed, written)
    ensures Delivered(start, flushed + (buffered + [entry]), written + buffered + [entry])
    ensures written == start + flushed ==> written + buffered + [entry] == start + (flushed + (buffered + [entry]))
  {
    assert start + (flushed + (buffered + [entry])) == (start + flushed) + buffered + [entry];
  }

  /** A step of the CSV loop: extending the checked prefix by a record that
      does not fit stops there. */
  lemma FitsPrefixExtends(batch: seq<Entry>, k: nat, n: nat, w: nat)
    requires 0 < k <= |batch|
    requires FitsPrefix(batch[..k - 1], n, w) == (k - 1, None)
    ensures Fits(batch[k - 1], n, w) ==> FitsPrefix(batch[..k], n, w) == (k, None)
    ensures !Fits(batch[k - 1], n, w) ==> FitsPrefix(batch[..k], n, w) == (k - 1, Some(UnknownField(k - 1)))
    ensures k == |batch| ==> batch[..k] == batch
  {
    assert batch[..k][..k - 1] == batch[..k - 1];
  }

  /** Once the checked prefix has stopped, later records do not change the
      outcome. */
  lemma {:induction false} FitsPrefixStops(batch: seq<Entry>, k: nat, n: nat, w: nat)
    requires 0 < k <= |batch|
    requires FitsPrefix(batch[..k], n, w).1.Some?
    ensures FitsPrefix(batch, n, w) == FitsPrefix(batch[..k], n, w)
  {
    if k < |batch| {
      FitsPrefixStops(batch[..|batch| - 1], k, n, w);
      assert batch[..|batch| - 1][..k] == batch[..k];
    } else {
      assert batch[..k] == batch;
    }
  }
}
