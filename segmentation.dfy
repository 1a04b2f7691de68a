/** How both LiDAR readers cut the record stream into 360-degree scans: a
    record with the start flag closes the scan being collected, if it has
    any records, and becomes the first record of the next one. */
module ScanSegmentation {
  import opened Rplidar

  /** A finished scan and the stream position of the record that closed it. */
  datatype ClosedScan = ClosedScan(points: seq<Measurement>, closedAt: nat)

  /** The readers' loop state: the scans closed so far, the scan being
      collected (`current_scan`), and how many records have been seen. */
  datatype Segmenter = Segmenter(closed: seq<ClosedScan>, current: seq<Measurement>, seen: nat)

  const Initial := Segmenter([], [], 0)

  /** One record through the loop body. */
  function Feed(s: Segmenter, m: Measurement): Segmenter {
    if m.startFlag && |s.current| > 0 then
      Segmenter(s.closed + [ClosedScan(s.current, s.seen)], [m], s.seen + 1)
    else
      Segmenter(s.closed, s.current + [m], s.seen + 1)
  }

  /** The loop state after a stream of records. */
  function Segment(ms: seq<Measurement>): Segmenter {
    if ms == [] then Initial else Feed(Segment(ms[..|ms| - 1]), ms[|ms| - 1])
  }

  lemma SegmentSnoc(ms: seq<Measurement>, m: Measurement)
    ensures Segment(ms + [m]) == Feed(Segment(ms), m)
  {
    assert (ms + [m])[..|ms|] == ms;
  }

  function Flatten(scans: seq<ClosedScan>): seq<Measurement> {
    if scans == [] then [] else Flatten(scans[..|scans| - 1]) + scans[|scans| - 1].points
  }

  /** Records after the first that carry the start flag. */
  function LaterStarts(ms: seq<Measurement>): nat {
    if |ms| <= 1 then 0
    else LaterStarts(ms[..|ms| - 1]) + if ms[|ms| - 1].startFlag then 1 else 0
  }

  /** No record is lost or reordered: the closed scans followed by the open
      one are exactly the stream read. */
  lemma {:induction false} SegmentKeepsEveryRecord(ms: seq<Measurement>)
    ensures Flatten(Segment(ms).closed) + Segment(ms).current == ms
    ensures Segment(ms).seen == |ms|
  {
    if ms != [] {
      var init := ms[..|ms| - 1];
      SegmentKeepsEveryRecord(init);
      var s := Segment(init);
      var m := ms[|ms| - 1];
      if m.startFlag && |s.current| > 0 {
        assert Segment(ms).closed[..|Segment(ms).closed| - 1] == s.closed;
      }
      assert ms == init + [m];
    }
  }

  /** Scans are never empty, and once a record has arrived there is always
      an open scan. */
  lemma {:induction false} SegmentScansNonEmpty(ms: seq<Measurement>)
    ensures forall k :: 0 <= k < |Segment(ms).closed| ==> Segment(ms).closed[k].points != []
    ensures ms != [] ==> Segment(ms).current != []
  {
    if ms != [] {
      SegmentScansNonEmpty(ms[..|ms| - 1]);
    }
  }

  predicate StartOnlyFirst(points: seq<Measurement>) {
    forall k :: 1 <= k < |points| ==> !points[k].startFlag
  }

  /** Inside a scan only the first record can carry the start flag, and
      every scan after the first begins with one. */
  lemma {:induction false} SegmentStartFlags(ms: seq<Measurement>)
    ensures forall k :: 0 <= k < |Segment(ms).closed| ==> StartOnlyFirst(Segment(ms).closed[k].points)
    ensures StartOnlyFirst(Segment(ms).current)
    ensures forall k :: 1 <= k < |Segment(ms).closed| ==>
      Segment(ms).closed[k].points != [] && Segment(ms).closed[k].points[0].startFlag
    ensures |Segment(ms).closed| > 0 ==> Segment(ms).current != [] && Segment(ms).current[0].startFlag
  {
    if ms != [] {
      SegmentStartFlags(ms[..|ms| - 1]);
      SegmentScansNonEmpty(ms[..|ms| - 1]);
    }
  }

  /** Each closing record is a start-flag record of the stream, and scans
      are closed in stream order. */
  lemma {:induction false} SegmentClosingRecords(ms: seq<Measurement>)
    ensures forall k :: 0 <= k < |Segment(ms).closed| ==>
      0 < Segment(ms).closed[k].closedAt < |ms| && ms[Segment(ms).closed[k].closedAt].startFlag
    ensures forall j, k :: 0 <= j < k < |Segment(ms).closed| ==>
      Segment(ms).closed[j].closedAt < Segment(ms).closed[k].closedAt
  {
    if ms != [] {
      var init := ms[..|ms| - 1];
      SegmentClosingRecords(init);
      SegmentKeepsEveryRecord(init);
      SegmentScansNonEmpty(init);
      var s := Segment(init);
      if |s.closed| > 0 && ms[|ms| - 1].startFlag && |s.current| > 0 {
        assert |Flatten(s.closed)| > 0 by {
          var last := s.closed[|s.closed| - 1];
          assert last.points != [];
        }
      }
    }
  }

  /** One scan is closed per start-flag record after the first record. */
  lemma {:induction false} SegmentCountsLaterStarts(ms: seq<Measurement>)
    ensures |Segment(ms).closed| == LaterStarts(ms)
  {
    if ms != [] {
      var init := ms[..|ms| - 1];
      SegmentCountsLaterStarts(init);
      SegmentScansNonEmpty(init);
      SegmentKeepsEveryRecord(init);
      if init == [] {
        assert Segment(init).current == [];
      }
    }
  }

  /** Reading more records never un-closes a scan. */
  lemma {:induction false} SegmentPrefix(ms: seq<Measurement>, n: nat)
    requires n <= |ms|
    ensures Segment(ms[..n]).closed <= Segment(ms).closed
    decreases |ms|
  {
    if n < |ms| {
      var init := ms[..|ms| - 1];
      assert ms[..n] == init[..n];
      SegmentPrefix(init, n);
    } else {
      assert ms[..n] == ms;
    }
  }
}
