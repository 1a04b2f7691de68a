/** The echo-profile analyzer's computations over one sensor's readings:
    each row is one trigger event, one ADC amplitude per 50 µs sample. */
module EchoAnalyzer {
  import opened Wrappers
  import opened Text
  import opened Sequences
  import opened Runs

  /** `num_readings` before any data is seen. */
  const DefaultNumReadings: nat := 240
  /** 0.86 cm per reading, kept in hundredths of a centimetre. */
  const CentiCmPerReading: nat := 86

  function ReadingColumns(columns: seq<string>): seq<string> {
    Select(columns, (c: string) => Contains(c, "reading_"), (c: string) => c)
  }

  /** `_load_data`'s count of readings per sensor: the number of columns
      whose name contains `reading_`, or the default when there are none. */
  function NumReadings(columns: seq<string>): (n: nat)
    ensures n > 0
    ensures ReadingColumns(columns) != [] ==> n == |ReadingColumns(columns)| && n <= |columns|
    ensures ReadingColumns(columns) == [] ==> n == DefaultNumReadings
  {
    if ReadingColumns(columns) != [] then |ReadingColumns(columns)| else DefaultNumReadings
  }

  /** The columns counted are exactly those naming a reading. */
  lemma ReadingColumnsExact(columns: seq<string>, c: string)
    ensures c in ReadingColumns(columns) <==> c in columns && Contains(c, "reading_")
  {
    SelectMembership(columns, (c: string) => Contains(c, "reading_"), (c: string) => c, c);
  }

  /** `get_distance_axis`, in hundredths of a centimetre: one distance per
      reading, starting at 0 and 0.86 cm apart. */
  function DistanceAxis(numReadings: nat): (axis: seq<int>)
    ensures |axis| == numReadings
    ensures numReadings > 0 ==> axis[0] == 0
    ensures forall i :: 0 < i < numReadings ==> axis[i] == axis[i - 1] + CentiCmPerReading
  {
    seq(numReadings, i requires 0 <= i => i * CentiCmPerReading)
  }

  // ---------------------------------------------------------------------
  // detect_objects

  /** The largest reading. */
  function Peak(xs: seq<int>): (p: int)
    requires xs != []
    ensures p in xs
    ensures forall k :: 0 <= k < |xs| ==> xs[k] <= p
  {
    if |xs| == 1 then xs[0]
    else
      var p := Peak(xs[..|xs| - 1]);
      assert forall k :: 0 <= k < |xs| - 1 ==> xs[k] == xs[..|xs| - 1][k];
      if xs[|xs| - 1] > p then xs[|xs| - 1] else p
  }

  lemma PeakSnoc(xs: seq<int>, x: int)
    requires xs != []
    ensures Peak(xs + [x]) == if x > Peak(xs) then x else Peak(xs)
  {
    assert (xs + [x])[..|xs|] == xs;
  }

  /** `value >= threshold` for each reading. */
  function AboveMask(readings: seq<int>, threshold: int): (mask: seq<bool>)
    ensures |mask| == |readings|
    ensures forall k :: 0 <= k < |readings| ==> (mask[k] <==> readings[k] >= threshold)
  {
    seq(|readings|, k requires 0 <= k < |readings| => readings[k] >= threshold)
  }

  /** A reported object: where its run of readings starts, how many
      readings it spans and its peak amplitude. */
  datatype EchoObject = EchoObject(start: nat, width: nat, strength: int)

  /** The reading at the middle of the object, `object_start + width // 2`. */
  function Centre(o: EchoObject): nat {
    o.start + o.width / 2
  }

  /** `distance_cm` before rounding to a tenth, in hundredths of a cm. */
  function DistanceCentiCm(o: EchoObject): nat {
    Centre(o) * CentiCmPerReading
  }

  /** `width_cm` before rounding to a tenth, in hundredths of a cm. */
  function WidthCentiCm(o: EchoObject): nat {
    o.width * CentiCmPerReading
  }

  function RunPeak(readings: seq<int>, r: Run): int {
    if r.start < r.end <= |readings| then Peak(readings[r.start..r.end]) else 0
  }

  function ToObject(readings: seq<int>): Run -> EchoObject {
    (r: Run) => EchoObject(r.start, if r.end >= r.start then r.end - r.start else 0, RunPeak(readings, r))
  }

  /** The objects `detect_objects` reports: one per run of readings at or
      above the threshold that a lower reading closes and that spans at
      least `min_width` readings. */
  function Objects(readings: seq<int>, threshold: int, minWidth: int): seq<EchoObject> {
    Select(Scan(AboveMask(readings, threshold)).0, LongEnough(minWidth), ToObject(readings))
  }

  /** What `detect_objects` holds after the first i readings: the objects
      of the runs closed so far, and the run in progress with its peak. */
  ghost predicate Scanned(readings: seq<int>, threshold: int, minWidth: int, i: nat,
                          objects: seq<EchoObject>, inObject: bool, objectStart: int, objectPeak: int)
  {
    var mask := AboveMask(readings, threshold);
    && i <= |readings|
    && objects == Select(Scan(mask[..i]).0, LongEnough(minWidth), ToObject(readings))
    && inObject == Scan(mask[..i]).1.Some?
    && (inObject ==> 0 <= objectStart == Scan(mask[..i]).1.value < i
                     && objectPeak == Peak(readings[objectStart..i]))
  }

  /** `detect_objects` on one row of readings. */
  method DetectObjects(readings: seq<int>, threshold: int, minWidth: int) returns (objects: seq<EchoObject>)
    ensures objects == Objects(readings, threshold, minWidth)
  {
    objects := [];
    var inObject := false;
    var objectStart := 0;
    var objectPeak := 0;
    for i := 0 to |readings|
      invariant Scanned(readings, threshold, minWidth, i, objects, inObject, objectStart, objectPeak)
    {
      objects, inObject, objectStart, objectPeak :=
        DetectStep(readings, threshold, minWidth, i, objects, inObject, objectStart, objectPeak);
    }
    assert AboveMask(readings, threshold)[..|readings|] == AboveMask(readings, threshold);
  }

  /** One turn of `detect_objects`'s loop, at reading i. */
  method DetectStep(readings: seq<int>, threshold: int, minWidth: int, i: nat,
                    objects: seq<EchoObject>, inObject: bool, objectStart: int, objectPeak: int)
    returns (objects': seq<EchoObject>, inObject': bool, objectStart': int, objectPeak': int)
    requires i < |readings|
    requires Scanned(readings, threshold, minWidth, i, objects, inObject, objectStart, objectPeak)
    ensures Scanned(readings, threshold, minWidth, i + 1, objects', inObject', objectStart', objectPeak')
  {
    objects', inObject', objectStart', objectPeak' := objects, inObject, objectStart, objectPeak;
    var value := readings[i];
    if value >= threshold {
      inObject', objectStart', objectPeak' :=
        ExtendObject(readings, threshold, minWidth, i, objects, inObject, objectStart, objectPeak);
    } else if inObject {
      objects' := CloseObject(readings, threshold, minWidth, i, objects, objectStart, objectPeak);
      inObject' := false;
    } else {
      ScanExtend(AboveMask(readings, threshold), i);
    }
  }

  /** A reading at or above the threshold opens an object, or raises the
      peak of the one in progress. */
  method ExtendObject(readings: seq<int>, threshold: int, minWidth: int, i: nat,
                      objects: seq<EchoObject>, inObject: bool, objectStart: int, objectPeak: int)
    returns (inObject': bool, objectStart': int, objectPeak': int)
    requires i < |readings| && readings[i] >= threshold
    requires Scanned(readings, threshold, minWidth, i, objects, inObject, objectStart, objectPeak)
    ensures Scanned(readings, threshold, minWidth, i + 1, objects, inObject', objectStart', objectPeak')
  {
    var value := readings[i];
    ScanExtend(AboveMask(readings, threshold), i);
    if !inObject {
      inObject', objectStart', objectPeak' := true, i, value;
      assert readings[objectStart'..i + 1] == [value];
    } else {
      PeakSnoc(readings[objectStart..i], value);
      assert readings[objectStart..i + 1] == readings[objectStart..i] + [value];
      inObject', objectStart' := true, objectStart;
      objectPeak' := if value > objectPeak then value else objectPeak;
    }
  }

  /** A reading below the threshold ends the object in progress, which is
      reported if it is wide enough. */
  method CloseObject(readings: seq<int>, threshold: int, minWidth: int, i: nat,
                     objects: seq<EchoObject>, objectStart: int, objectPeak: int)
    returns (objects': seq<EchoObject>)
    requires i < |readings| && !AboveMask(readings, threshold)[i]
    requires Scanned(readings, threshold, minWidth, i, objects, true, objectStart, objectPeak)
    ensures Scanned(readings, threshold, minWidth, i + 1, objects', false, objectStart, objectPeak)
  {
    ObjectClosed(readings, threshold, minWidth, i, objects, objectStart, objectPeak);
    objects' := objects;
    var objectWidth := i - objectStart;
    if objectWidth >= minWidth {
      objects' := objects + [EchoObject(objectStart, objectWidth, objectPeak)];
    }
  }

  /** The object [start, i) that a reading below the threshold closes. */
  lemma ObjectClosed(readings: seq<int>, threshold: int, minWidth: int, i: nat,
                     objects: seq<EchoObject>, objectStart: int, objectPeak: int)
    requires i < |readings| && !AboveMask(readings, threshold)[i]
    requires Scanned(readings, threshold, minWidth, i, objects, true, objectStart, objectPeak)
    ensures 0 <= objectStart < i
    ensures i - objectStart >= minWidth ==>
      Scanned(readings, threshold, minWidth, i + 1, objects + [EchoObject(objectStart, i - objectStart, objectPeak)],
              false, objectStart, objectPeak)
    ensures i - objectStart < minWidth ==>
      Scanned(readings, threshold, minWidth, i + 1, objects, false, objectStart, objectPeak)
  {
    var mask := AboveMask(readings, threshold);
    ScanClose(mask, i, objectStart);
    SelectSnoc(Scan(mask[..i]).0, Run(objectStart, i), LongEnough(minWidth), ToObject(readings));
    assert ToObject(readings)(Run(objectStart, i)) == EchoObject(objectStart, i - objectStart, objectPeak);
  }

  /** Every reported object is a maximal run of readings at or above the
      threshold, closed by a lower reading, at least `min_width` long; its
      strength is the run's peak, which reaches the threshold, and its
      centre lies inside the run. */
  lemma ObjectsSound(readings: seq<int>, threshold: int, minWidth: int, k: nat)
    requires k < |Objects(readings, threshold, minWidth)|
    ensures var o := Objects(readings, threshold, minWidth)[k];
      && ClosedRun(AboveMask(readings, threshold), o.start, o.start + o.width)
      && o.width >= minWidth
      && o.strength == Peak(readings[o.start..o.start + o.width])
      && o.strength >= threshold
      && o.start <= Centre(o) < o.start + o.width
  {
    var mask := AboveMask(readings, threshold);
    var runs := Scan(mask).0;
    ScanSound(mask);
    var j := SelectedFrom(runs, LongEnough(minWidth), ToObject(readings), k);
    var r := runs[j];
    assert readings[r.start..r.end][0] == readings[r.start];
    var p := Peak(readings[r.start..r.end]);
    assert p >= readings[r.start] >= threshold;
  }

  /** Every maximal run at or above the threshold that a lower reading
      closes and that spans at least `min_width` readings is reported. */
  lemma ObjectsComplete(readings: seq<int>, threshold: int, minWidth: int, s: nat, e: nat)
    requires ClosedRun(AboveMask(readings, threshold), s, e) && e - s >= minWidth
    ensures EchoObject(s, e - s, Peak(readings[s..e])) in Objects(readings, threshold, minWidth)
  {
    var mask := AboveMask(readings, threshold);
    ScanComplete(mask, s, e);
    var runs := Scan(mask).0;
    var j :| 0 <= j < |runs| && runs[j] == Run(s, e);
    SelectMembership(runs, LongEnough(minWidth), ToObject(readings), EchoObject(s, e - s, Peak(readings[s..e])));
    assert LongEnough(minWidth)(runs[j]);
  }

  /** Objects are reported in increasing position order and never
      overlap: each ends before the next starts. */
  lemma ObjectsOrdered(readings: seq<int>, threshold: int, minWidth: int)
    ensures var objects := Objects(readings, threshold, minWidth);
      forall k, l :: 0 <= k < l < |objects| ==> objects[k].start + objects[k].width < objects[l].start
  {
    var mask := AboveMask(readings, threshold);
    var runs := Scan(mask).0;
    var objects := Objects(readings, threshold, minWidth);
    ScanSound(mask);
    ScanOrdered(mask);
    SelectIsFilter(runs, LongEnough(minWidth), ToObject(readings));
    ChosenIncreasing(runs, LongEnough(minWidth));
    var idx := Chosen(runs, LongEnough(minWidth));
    forall k, l | 0 <= k < l < |objects|
      ensures objects[k].start + objects[k].width < objects[l].start
    {
      assert idx[k] < idx[l];
      assert objects[k] == ToObject(readings)(runs[idx[k]]);
      assert objects[l] == ToObject(readings)(runs[idx[l]]);
    }
  }

  /** A run still open at the last reading is never reported. */
  lemma OpenRunDropped(readings: seq<int>, threshold: int, minWidth: int, s: nat)
    requires OpenRun(AboveMask(readings, threshold), s)
    ensures forall o :: o in Objects(readings, threshold, minWidth) ==> o.start != s
  {
    var mask := AboveMask(readings, threshold);
    forall o | o in Objects(readings, threshold, minWidth)
      ensures o.start != s
    {
      var k :| 0 <= k < |Objects(readings, threshold, minWidth)| && Objects(readings, threshold, minWidth)[k] == o;
      ObjectsSound(readings, threshold, minWidth, k);
      if o.start == s {
        assert false;
      }
    }
  }

  // ---------------------------------------------------------------------
  // plot_distance_vs_time

  /** A row's strongest echo: its reading index and amplitude. */
  datatype Echo = Echo(index: nat, strength: int)

  /** The per-row choice of `plot_distance_vs_time`: when some reading
      reaches the threshold, the first index of the largest reading (that
      reading then reaches the threshold too), otherwise nothing. */
  function RowPeak(readings: seq<int>, threshold: int): (r: Option<Echo>)
    ensures r.Some? <==> exists j :: 0 <= j < |readings| && readings[j] >= threshold
    ensures r.Some? ==>
      && r.value.index < |readings|
      && r.value.strength == readings[r.value.index] >= threshold
      && (forall j :: 0 <= j < |readings| ==> readings[j] <= r.value.strength)
      && (forall j :: 0 <= j < r.value.index ==> readings[j] < r.value.strength)
  {
    if exists j :: 0 <= j < |readings| && readings[j] >= threshold then
      var m := FirstMaxIndex(readings);
      if readings[m] >= threshold then Some(Echo(m, readings[m])) else None
    else None
  }

  /** The detection loop of `plot_distance_vs_time`: one entry per row. */
  method DistanceVsTime(data: seq<seq<int>>, threshold: int) returns (detected: seq<Option<Echo>>)
    ensures |detected| == |data|
    ensures forall k :: 0 <= k < |data| ==> detected[k] == RowPeak(data[k], threshold)
  {
    detected := [];
    for rowIdx := 0 to |data|
      invariant |detected| == rowIdx
      invariant forall k :: 0 <= k < rowIdx ==> detected[k] == RowPeak(data[k], threshold)
    {
      var readings := data[rowIdx];
      var above := exists j :: 0 <= j < |readings| && readings[j] >= threshold;
      if above {
        var maxIdx := FirstMaxIndex(readings);
        if readings[maxIdx] >= threshold {
          detected := detected + [Some(Echo(maxIdx, readings[maxIdx]))];
        } else {
          detected := detected + [None];
        }
      } else {
        detected := detected + [None];
      }
    }
  }

  // ---------------------------------------------------------------------
  // plot_time_series

  /** The averaging window of `plot_time_series` around reading
      `readingIdx`, `windowReadings` readings each side, clamped to the
      row. */
  function TimeSeriesWindow(readingIdx: int, windowReadings: int, numReadings: int): (w: (int, int))
    ensures 0 <= w.0 && w.1 <= numReadings
    ensures w.0 == 0 || w.0 == readingIdx - windowReadings
    ensures w.1 == numReadings || w.1 == readingIdx + windowReadings
  {
    (if readingIdx - windowReadings > 0 then readingIdx - windowReadings else 0,
     if numReadings < readingIdx + windowReadings then numReadings else readingIdx + windowReadings)
  }

  /** For a reading inside the row and a non-negative half-width, the
      window is the readings within the half-width of it that the row
      has: it contains the reading itself unless the half-width is 0, and
      every row of `num_readings` readings gives it in full. */
  lemma TimeSeriesWindowSpan(row: seq<int>, readingIdx: int, windowReadings: nat)
    requires 0 <= readingIdx < |row|
    ensures var (start, end) := TimeSeriesWindow(readingIdx, windowReadings, |row|);
      && start <= readingIdx <= end
      && (windowReadings > 0 ==> start <= readingIdx < end)
      && |PySlice(row, start, end)| == end - start
      && readingIdx - windowReadings <= start && end <= readingIdx + windowReadings
  {
    var (start, end) := TimeSeriesWindow(readingIdx, windowReadings, |row|);
    NonNegativeSlice(row, start, end);
  }
}
