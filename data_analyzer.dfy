/** The offline data analyzer: which file formats it loads, which columns
    hold sensor distances, and the detection of objects as runs of
    distances below a threshold. */
module DataAnalyzer {
  import opened Wrappers
  import opened Text
  import opened Sequences
  import opened Runs

  // ---------------------------------------------------------------------
  // _load_data

  /** The last position of `c` in `s`, like `str.rfind`. */
  function LastIndexOf(s: string, c: char): (r: Option<nat>)
    ensures r.None? <==> c !in s
    ensures r.Some? ==> r.value < |s| && s[r.value] == c && c !in s[r.value + 1..]
  {
    if s == [] then None
    else if s[|s| - 1] == c then Some(|s| - 1)
    else
      var r := LastIndexOf(s[..|s| - 1], c);
      assert s == s[..|s| - 1] + [s[|s| - 1]];
      if r.Some? then
        assert s[r.value + 1..] == s[..|s| - 1][r.value + 1..] + [s[|s| - 1]];
        r
      else r
  }

  /** `Path.suffix` of a file name: from the last dot on, unless that dot
      starts the name or ends it. */
  function Suffix(name: string): string {
    match LastIndexOf(name, '.')
    case None => ""
    case Some(i) => if 0 < i < |name| - 1 then name[i..] else ""
  }

  /** A suffix is empty, or a dot followed by at least one character and
      no other dot, ending a longer name. */
  lemma SuffixShape(name: string)
    ensures var sfx := Suffix(name);
      sfx == "" || (2 <= |sfx| < |name| && sfx[0] == '.' && '.' !in sfx[1..] && name[|name| - |sfx|..] == sfx)
  {
    match LastIndexOf(name, '.')
    case None =>
    case Some(i) =>
      if 0 < i < |name| - 1 {
        assert name[i..][1..] == name[i + 1..];
      }
  }

  /** A name with a base and a dot-free extension has that extension as
      its suffix; a name that is only a dot and an extension, like a
      hidden file, has none. */
  lemma SuffixOfExtension(base: string, ext: string)
    requires ext != "" && '.' !in ext
    ensures base != "" ==> Suffix(base + "." + ext) == "." + ext
    ensures Suffix("." + ext) == ""
  {
    var name := base + "." + ext;
    var i := |base|;
    assert name[i] == '.';
    assert name[i + 1..] == ext;
    assert name[i..] == "." + ext;
    var hidden := "." + ext;
    assert hidden[1..] == ext;
    assert LastIndexOf(hidden, '.').value == 0;
  }

  datatype DataFormat = CsvData | JsonData
  datatype LoadError = UnsupportedFormat(suffix: string)

  /** `_load_data`'s dispatch: CSV for `.csv`, JSON for `.json`, a
      ValueError for any other suffix. */
  function LoadFormat(name: string): (r: Result<DataFormat, LoadError>)
    ensures r == Ok(CsvData) <==> Suffix(name) == ".csv"
    ensures r == Ok(JsonData) <==> Suffix(name) == ".json"
    ensures r.Err? <==> Suffix(name) != ".csv" && Suffix(name) != ".json"
  {
    var sfx := Suffix(name);
    if sfx == ".csv" then Ok(CsvData)
    else if sfx == ".json" then Ok(JsonData)
    else Err(UnsupportedFormat(sfx))
  }

  /** The collector's own file names load. */
  lemma LoadFormatByName(base: string)
    requires base != ""
    ensures LoadFormat(base + ".csv") == Ok(CsvData)
    ensures LoadFormat(base + ".json") == Ok(JsonData)
  {
    assert base + ".csv" == base + "." + "csv";
    assert base + ".json" == base + "." + "json";
    SuffixOfExtension(base, "csv");
    SuffixOfExtension(base, "json");
  }

  /** Any other extension is refused. */
  lemma LoadFormatRefusesOther(base: string, ext: string)
    requires base != "" && ext != "" && '.' !in ext && ext != "csv" && ext != "json"
    ensures LoadFormat(base + "." + ext).Err?
  {
    SuffixOfExtension(base, ext);
    assert ("." + ext)[1..] == ext;
    assert ".csv"[1..] == "csv" && ".json"[1..] == "json";
  }

  /** A name that is only `.csv`, like a hidden file, is refused. */
  lemma LoadFormatRefusesBareExtension()
    ensures LoadFormat(".csv").Err?
  {
    assert ".csv" == "." + "csv";
    SuffixOfExtension("", "csv");
  }

  /** A name without a dot is refused. */
  lemma LoadFormatRefusesNoDot(name: string)
    requires '.' !in name
    ensures LoadFormat(name).Err?
  {
  }

  // ---------------------------------------------------------------------
  // Sensor columns

  /** A column of the loaded frame; None stands for a missing value. */
  datatype Column = Column(name: string, values: seq<Option<int>>)

  predicate IsSensorColumn(name: string) {
    Contains(name, "sensor_") && Contains(name, "distance")
  }

  function SensorColumns(names: seq<string>): seq<string> {
    Select(names, IsSensorColumn, (c: string) => c)
  }

  /** The columns processed are exactly those whose name contains both
      `sensor_` and `distance`, in the frame's column order. */
  lemma SensorColumnsExact(names: seq<string>)
    ensures forall c :: c in SensorColumns(names) <==> c in names && IsSensorColumn(c)
    ensures var idx := Chosen(names, IsSensorColumn);
      && |SensorColumns(names)| == |idx|
      && (forall k :: 0 <= k < |idx| ==> SensorColumns(names)[k] == names[idx[k]])
      && (forall k, l :: 0 <= k < l < |idx| ==> idx[k] < idx[l])
  {
    forall c ensures c in SensorColumns(names) <==> c in names && IsSensorColumn(c) {
      SelectMembership(names, IsSensorColumn, (c: string) => c, c);
    }
    SelectIsFilter(names, IsSensorColumn, (c: string) => c);
    ChosenIncreasing(names, IsSensorColumn);
  }

  /** `f'sensor_{s}' in col` */
  predicate NamesSensor(col: string, s: int) {
    Contains(col, "sensor_" + IntToString(s))
  }

  function KeepListed(sensors: seq<int>): string -> bool {
    (col: string) => exists s :: s in sensors && NamesSensor(col, s)
  }

  /** The `sensors` filter of the plotting methods as written: with no
      sensors listed every column stays, otherwise a column stays when its
      name contains `sensor_{s}` for a listed s. */
  function FilterSensorsAsWritten(cols: seq<string>, sensors: seq<int>): seq<string> {
    if sensors == [] then cols else Select(cols, KeepListed(sensors), (c: string) => c)
  }

  lemma FilterSensorsAsWrittenExact(cols: seq<string>, sensors: seq<int>, c: string)
    ensures sensors == [] ==> FilterSensorsAsWritten(cols, sensors) == cols
    ensures sensors != [] ==>
      (c in FilterSensorsAsWritten(cols, sensors) <==> c in cols && exists s :: s in sensors && NamesSensor(c, s))
  {
    if sensors != [] {
      SelectMembership(cols, KeepListed(sensors), (c: string) => c, c);
    }
  }

  /** As written, asking for sensor 1 also keeps sensor 10's column,
      because `sensor_1` occurs in `sensor_10_distance_cm`. */
  lemma FilterSensorsKeepsSensorTen()
    ensures "sensor_10_distance_cm" in FilterSensorsAsWritten(["sensor_10_distance_cm"], [1])
  {
    var col := "sensor_10_distance_cm";
    SensorOneInSensorTen();
    FilterSensorsAsWrittenExact([col], [1], col);
  }

  /** `sensor_1` occurs in sensor 10's column name. */
  lemma SensorOneInSensorTen()
    ensures NamesSensor("sensor_10_distance_cm", 1)
  {
    var col := "sensor_10_distance_cm";
    assert IntToString(1) == "1";
    assert "sensor_" + IntToString(1) == "sensor_1";
    assert col[0..|"sensor_1"|] == "sensor_1";
    assert OccursAt(col, "sensor_1", 0);
  }

  /** The column the analyzer expects for sensor 10 is
      `sensor_10_distance_cm`. */
  lemma DistanceColumnTen()
    ensures DistanceColumn(10) == "sensor_10_distance_cm"
  {
    assert NatToString(10) == "10";
  }

  /** The sensor number in a column name, the second `_`-separated field,
      as `plot_time_series` labels it. */
  function SensorNumber(col: string): string {
    var parts := Split(col, '_');
    if |parts| >= 2 then parts[1] else ""
  }

  function KeepNumbered(sensors: seq<int>): string -> bool {
    (col: string) => exists s :: s in sensors && SensorNumber(col) == IntToString(s)
  }

  /** The filter as intended: a column stays when its sensor number is
      one of the listed sensors. */
  function FilterSensors(cols: seq<string>, sensors: seq<int>): seq<string> {
    if sensors == [] then cols else Select(cols, KeepNumbered(sensors), (c: string) => c)
  }

  /** The column name the analyzer expects for sensor n: `get_statistics`
      strips `_distance_cm` from it to name the sensor. */
  function DistanceColumn(n: nat): string {
    "sensor_" + NatToString(n) + "_distance_cm"
  }

  lemma DistanceColumnNumber(n: nat)
    ensures SensorNumber(DistanceColumn(n)) == NatToString(n)
  {
    var parts := ["sensor", NatToString(n), "distance", "cm"];
    assert forall k :: 0 <= k < |NatToString(n)| ==> IsDigit(NatToString(n)[k]);
    assert '_' !in NatToString(n);
    assert Join(parts[3..], '_') == "cm";
    assert Join(parts[2..], '_') == "distance_cm";
    assert Join(parts[1..], '_') == NatToString(n) + "_distance_cm";
    assert Join(parts, '_') == DistanceColumn(n);
    SplitJoin(parts, '_');
  }

  /** The intended filter keeps sensor n's column exactly when n is
      listed (or nothing is listed): sensor 10's column is not kept for
      sensor 1. */
  lemma FilterSensorsExact(cols: seq<string>, sensors: seq<int>, n: nat)
    requires DistanceColumn(n) in cols
    ensures DistanceColumn(n) in FilterSensors(cols, sensors) <==> sensors == [] || n in sensors
  {
    if sensors != [] {
      var c := DistanceColumn(n);
      SelectMembership(cols, KeepNumbered(sensors), (c: string) => c, c);
      DistanceColumnNumber(n);
      if exists s :: s in sensors && SensorNumber(c) == IntToString(s) {
        var s :| s in sensors && SensorNumber(c) == IntToString(s);
        ParseIntToString(s);
        ParseIntToString(n);
        assert IntToString(n) == NatToString(n);
      }
    }
  }

  /** The columns `plot_time_series` and `plot_histogram` draw, as
      written: the sensor columns, filtered by the substring test. */
  function PlottedColumnsAsWritten(names: seq<string>, sensors: seq<int>): seq<string> {
    FilterSensorsAsWritten(SensorColumns(names), sensors)
  }

  /** As written, a column is drawn exactly when it is a sensor column and
      either no sensor is listed or its name contains `sensor_{s}` for a
      listed s. */
  lemma PlottedColumnsAsWrittenExact(names: seq<string>, sensors: seq<int>, c: string)
    ensures c in PlottedColumnsAsWritten(names, sensors) <==>
      c in names && IsSensorColumn(c) && (sensors == [] || exists s :: s in sensors && NamesSensor(c, s))
  {
    SensorColumnsExact(names);
    FilterSensorsAsWrittenExact(SensorColumns(names), sensors, c);
  }

  /** As written, a frame holding sensor 10's column draws it when only
      sensor 1 is asked for. */
  lemma PlottedColumnsKeepsSensorTen()
    ensures "sensor_10_distance_cm" in PlottedColumnsAsWritten(["sensor_10_distance_cm"], [1])
  {
    var col := "sensor_10_distance_cm";
    SensorOneInSensorTen();
    DistanceColumnTen();
    DistanceColumnIsSensorColumn(10);
    PlottedColumnsAsWrittenExact([col], [1], col);
  }

  /** The column the analyzer expects for sensor n passes its own
      sensor-column test. */
  lemma DistanceColumnIsSensorColumn(n: nat)
    ensures IsSensorColumn(DistanceColumn(n))
  {
    var digits := NatToString(n);
    var col := DistanceColumn(n);
    assert col == "sensor_" + (digits + "_distance_cm");
    ContainsPrefix("sensor_", digits + "_distance_cm");
    var i := |"sensor_"| + |digits| + 1;
    assert col[i..i + |"distance"|] == "distance";
    assert OccursAt(col, "distance", i);
  }

  /** The columns the plotting methods are meant to draw: the sensor
      columns, filtered by their own sensor numbers. */
  function PlottedColumns(names: seq<string>, sensors: seq<int>): seq<string> {
    FilterSensors(SensorColumns(names), sensors)
  }

  /** As intended, sensor n's column is drawn exactly when the frame holds
      it and n is listed, or nothing is. */
  lemma PlottedColumnsExact(names: seq<string>, sensors: seq<int>, n: nat)
    ensures DistanceColumn(n) in PlottedColumns(names, sensors) <==>
      DistanceColumn(n) in names && (sensors == [] || n in sensors)
  {
    SensorColumnsExact(names);
    DistanceColumnIsSensorColumn(n);
    if DistanceColumn(n) in names {
      FilterSensorsExact(SensorColumns(names), sensors, n);
    } else if sensors != [] {
      SelectMembership(SensorColumns(names), KeepNumbered(sensors), (c: string) => c, DistanceColumn(n));
    }
  }

  // ---------------------------------------------------------------------
  // detect_objects

  /** One detection event. */
  datatype Detection = Detection(sensor: string, startSample: nat, endSample: int, durationSamples: nat, minDistance: int)

  /** `self.df[col] < threshold_cm`; a missing value is not below. */
  function BelowMask(values: seq<Option<int>>, threshold: int): (mask: seq<bool>)
    ensures |mask| == |values|
    ensures forall k :: 0 <= k < |values| ==> (mask[k] <==> values[k].Some? && values[k].value < threshold)
  {
    seq(|values|, k requires 0 <= k < |values| => values[k].Some? && values[k].value < threshold)
  }

  /** The smallest value. */
  function Least(xs: seq<int>): (m: int)
    requires xs != []
    ensures m in xs
    ensures forall k :: 0 <= k < |xs| ==> m <= xs[k]
  {
    if |xs| == 1 then xs[0]
    else
      var m := Least(xs[..|xs| - 1]);
      assert forall k :: 0 <= k < |xs| - 1 ==> xs[k] == xs[..|xs| - 1][k];
      if xs[|xs| - 1] < m then xs[|xs| - 1] else m
  }

  /** The values of a column, a missing one read as 0. */
  function Present(values: seq<Option<int>>): (xs: seq<int>)
    ensures |xs| == |values|
    ensures forall k :: 0 <= k < |values| && values[k].Some? ==> xs[k] == values[k].value
  {
    seq(|values|, k requires 0 <= k < |values| => if values[k].Some? then values[k].value else 0)
  }

  /** `self.df[col].iloc[start:end].min()` over a run. */
  function RunMin(values: seq<Option<int>>, r: Run): int {
    if r.start < r.end <= |values| then Least(Present(values[r.start..r.end])) else 0
  }

  /** `sensor_{sensor_num}` */
  function SensorLabel(col: string): string {
    "sensor_" + SensorNumber(col)
  }

  function ToDetection(col: Column): Run -> Detection {
    (r: Run) => Detection(SensorLabel(col.name), r.start, r.end - 1,
                          if r.end >= r.start then r.end - r.start else 0, RunMin(col.values, r))
  }

  /** The detections of one column: one per run of values below the
      threshold that a value not below closes, lasting at least
      `min_duration_samples`. */
  function ColumnDetections(col: Column, threshold: int, minDuration: int): seq<Detection> {
    Select(Scan(BelowMask(col.values, threshold)).0, LongEnough(minDuration), ToDetection(col))
  }

  /** What one column contributes: its detections if it is a sensor
      column, nothing otherwise. */
  function Contribution(threshold: int, minDuration: int): Column -> seq<Detection> {
    (col: Column) => if IsSensorColumn(col.name) then ColumnDetections(col, threshold, minDuration) else []
  }

  /** The detections of a frame: each sensor column's, in column order. */
  function FrameDetections(frame: seq<Column>, threshold: int, minDuration: int): seq<Detection> {
    FlatMap(frame, Contribution(threshold, minDuration))
  }

  /** What the detection loop holds after the first i values of a column. */
  ghost predicate ColumnScanned(col: Column, threshold: int, minDuration: int, i: nat,
                                detections: seq<Detection>, detectionStart: Option<nat>)
  {
    var mask := BelowMask(col.values, threshold);
    && i <= |mask|
    && detections == Select(Scan(mask[..i]).0, LongEnough(minDuration), ToDetection(col))
    && detectionStart == Scan(mask[..i]).1
  }

  /** The inner loop of `detect_objects`, over one column. */
  method DetectColumn(col: Column, threshold: int, minDuration: int) returns (detections: seq<Detection>)
    ensures detections == ColumnDetections(col, threshold, minDuration)
  {
    detections := [];
    var detectionStart: Option<nat> := None;
    for idx := 0 to |col.values|
      invariant ColumnScanned(col, threshold, minDuration, idx, detections, detectionStart)
    {
      detections, detectionStart := DetectColumnStep(col, threshold, minDuration, idx, detections, detectionStart);
    }
    assert BelowMask(col.values, threshold)[..|col.values|] == BelowMask(col.values, threshold);
  }

  /** One turn of the inner loop, at sample idx. */
  method DetectColumnStep(col: Column, threshold: int, minDuration: int, idx: nat,
                          detections: seq<Detection>, detectionStart: Option<nat>)
    returns (detections': seq<Detection>, detectionStart': Option<nat>)
    requires idx < |col.values|
    requires ColumnScanned(col, threshold, minDuration, idx, detections, detectionStart)
    ensures ColumnScanned(col, threshold, minDuration, idx + 1, detections', detectionStart')
  {
    detections', detectionStart' := detections, detectionStart;
    var current := col.values[idx].Some? && col.values[idx].value < threshold;
    if current && detectionStart.None? {
      ScannedExtend(col, threshold, minDuration, idx, detections, detectionStart);
      detectionStart' := Some(idx);
    } else if !current && detectionStart.Some? {
      detections' := CloseRun(col, threshold, minDuration, idx, detections, detectionStart.value);
      detectionStart' := None;
    } else {
      ScannedExtend(col, threshold, minDuration, idx, detections, detectionStart);
    }
  }

  /** The turn at which a sample that is not below ends the open run
      [start, idx): the run is reported if it lasted long enough. */
  method CloseRun(col: Column, threshold: int, minDuration: int, idx: nat,
                  detections: seq<Detection>, start: nat)
    returns (detections': seq<Detection>)
    requires idx < |col.values| && !BelowMask(col.values, threshold)[idx]
    requires ColumnScanned(col, threshold, minDuration, idx, detections, Some(start))
    ensures ColumnScanned(col, threshold, minDuration, idx + 1, detections', None)
  {
    ScannedClose(col, threshold, minDuration, idx, detections, start);
    detections' := detections;
    var duration := idx - start;
    if duration >= minDuration {
      var sensorNum := SensorNumber(col.name);
      var minDistance := Least(Present(col.values[start..idx]));
      DetectionFields(col, start, idx);
      detections' := detections + [Detection("sensor_" + sensorNum, start, idx - 1, duration, minDistance)];
    }
  }

  /** The fields of the detection the loop appends for the run [start, idx). */
  lemma DetectionFields(col: Column, start: nat, idx: nat)
    requires start < idx <= |col.values|
    ensures ToDetection(col)(Run(start, idx))
         == Detection("sensor_" + SensorNumber(col.name), start, idx - 1, idx - start,
                      Least(Present(col.values[start..idx])))
  {
  }

  /** A sample that neither closes a run: the detections stay, and a run
      opens if none was open and the sample is below. */
  lemma ScannedExtend(col: Column, threshold: int, minDuration: int, idx: nat,
                      detections: seq<Detection>, detectionStart: Option<nat>)
    requires idx < |col.values|
    requires ColumnScanned(col, threshold, minDuration, idx, detections, detectionStart)
    requires var mask := BelowMask(col.values, threshold); mask[idx] || detectionStart.None?
    ensures var mask := BelowMask(col.values, threshold);
      ColumnScanned(col, threshold, minDuration, idx + 1, detections,
                    if mask[idx] && detectionStart.None? then Some(idx) else detectionStart)
  {
    ScanExtend(BelowMask(col.values, threshold), idx);
  }

  /** A sample that is not below closes the open run, which is reported
      when it lasted long enough. */
  lemma ScannedClose(col: Column, threshold: int, minDuration: int, idx: nat,
                     detections: seq<Detection>, start: nat)
    requires idx < |col.values|
    requires ColumnScanned(col, threshold, minDuration, idx, detections, Some(start))
    requires !BelowMask(col.values, threshold)[idx]
    ensures start < idx
    ensures idx - start >= minDuration ==>
      ColumnScanned(col, threshold, minDuration, idx + 1, detections + [ToDetection(col)(Run(start, idx))], None)
    ensures idx - start < minDuration ==> ColumnScanned(col, threshold, minDuration, idx + 1, detections, None)
  {
    var mask := BelowMask(col.values, threshold);
    ScanClose(mask, idx, start);
    SelectSnoc(Scan(mask[..idx]).0, Run(start, idx), LongEnough(minDuration), ToDetection(col));
  }

  /** `detect_objects` over the whole frame. */
  method DetectObjects(frame: seq<Column>, threshold: int, minDuration: int) returns (detections: seq<Detection>)
    ensures detections == FrameDetections(frame, threshold, minDuration)
  {
    detections := [];
    for k := 0 to |frame|
      invariant detections == FrameDetections(frame[..k], threshold, minDuration)
    {
      assert frame[..k + 1] == frame[..k] + [frame[k]];
      FlatMapSnoc(frame[..k], frame[k], Contribution(threshold, minDuration));
      if IsSensorColumn(frame[k].name) {
        var found := DetectColumn(frame[k], threshold, minDuration);
        detections := detections + found;
      }
    }
    assert frame[..|frame|] == frame;
  }

  /** Every detection is a maximal run of values below the threshold,
      closed by a value that is not; it ends at the sample before the
      closing one, lasts `end - start + 1` samples, at least the minimum,
      and its minimum distance is a value of the run, no larger than any
      other, and below the threshold. */
  lemma DetectionSound(col: Column, threshold: int, minDuration: int, k: nat)
    requires k < |ColumnDetections(col, threshold, minDuration)|
    ensures var d := ColumnDetections(col, threshold, minDuration)[k];
      && d.startSample <= d.endSample
      && ClosedRun(BelowMask(col.values, threshold), d.startSample, (d.endSample + 1) as nat)
      && d.durationSamples == d.endSample - d.startSample + 1
      && d.durationSamples >= minDuration
      && d.sensor == "sensor_" + SensorNumber(col.name)
      && d.minDistance < threshold
      && (exists j :: d.startSample <= j <= d.endSample && col.values[j] == Some(d.minDistance))
      && (forall j :: d.startSample <= j <= d.endSample ==> col.values[j].Some? && d.minDistance <= col.values[j].value)
  {
    var r := DetectionRun(col, threshold, minDuration, k);
    RunMinBelow(col.values, threshold, r);
  }

  /** The run a detection reports. */
  lemma DetectionRun(col: Column, threshold: int, minDuration: int, k: nat) returns (r: Run)
    requires k < |ColumnDetections(col, threshold, minDuration)|
    ensures ClosedRun(BelowMask(col.values, threshold), r.start, r.end) && r.end - r.start >= minDuration
    ensures ColumnDetections(col, threshold, minDuration)[k] == ToDetection(col)(r)
  {
    var mask := BelowMask(col.values, threshold);
    var runs := Scan(mask).0;
    ScanSound(mask);
    var j := SelectedFrom(runs, LongEnough(minDuration), ToDetection(col), k);
    r := runs[j];
  }

  /** The minimum over a run of values below the threshold is one of them,
      no larger than any, and below the threshold. */
  lemma RunMinBelow(values: seq<Option<int>>, threshold: int, r: Run)
    requires ClosedRun(BelowMask(values, threshold), r.start, r.end)
    ensures var m := RunMin(values, r);
      && m < threshold
      && (exists j :: r.start <= j < r.end && values[j] == Some(m))
      && (forall j :: r.start <= j < r.end ==> values[j].Some? && m <= values[j].value)
  {
    var run := values[r.start..r.end];
    var xs := Present(run);
    assert forall j :: r.start <= j < r.end ==> run[j - r.start] == values[j];
    var m := Least(xs);
    var i :| 0 <= i < |xs| && xs[i] == m;
    assert values[r.start + i] == Some(m);
    forall j | r.start <= j < r.end
      ensures values[j].Some? && m <= values[j].value
    {
      assert xs[j - r.start] == values[j].value;
    }
  }


  /** Every run of values below the threshold that a value not below
      closes and that lasts at least the minimum is detected. */
  lemma DetectionComplete(col: Column, threshold: int, minDuration: int, s: nat, e: nat)
    requires ClosedRun(BelowMask(col.values, threshold), s, e) && e - s >= minDuration
    ensures ToDetection(col)(Run(s, e)) in ColumnDetections(col, threshold, minDuration)
    ensures ToDetection(col)(Run(s, e)).startSample == s && ToDetection(col)(Run(s, e)).endSample == e - 1
  {
    var mask := BelowMask(col.values, threshold);
    ScanComplete(mask, s, e);
    var runs := Scan(mask).0;
    SelectMembership(runs, LongEnough(minDuration), ToDetection(col), ToDetection(col)(Run(s, e)));
    var j :| 0 <= j < |runs| && runs[j] == Run(s, e);
    assert LongEnough(minDuration)(runs[j]);
  }

  /** A run still below the threshold at the last sample is not detected. */
  lemma TrailingRunDropped(col: Column, threshold: int, minDuration: int, s: nat)
    requires OpenRun(BelowMask(col.values, threshold), s)
    ensures forall d :: d in ColumnDetections(col, threshold, minDuration) ==> d.startSample != s
  {
    forall d | d in ColumnDetections(col, threshold, minDuration)
      ensures d.startSample != s
    {
      var k :| 0 <= k < |ColumnDetections(col, threshold, minDuration)| && ColumnDetections(col, threshold, minDuration)[k] == d;
      DetectionSound(col, threshold, minDuration, k);
      if d.startSample == s {
        assert false;
      }
    }
  }

  /** Only sensor columns contribute detections, each column's in turn. */
  lemma FrameDetectionsConcat(frame: seq<Column>, more: seq<Column>, threshold: int, minDuration: int)
    ensures FrameDetections(frame + more, threshold, minDuration)
         == FrameDetections(frame, threshold, minDuration) + FrameDetections(more, threshold, minDuration)
  {
    FlatMapConcat(frame, more, Contribution(threshold, minDuration));
  }

}
