/** The stand-alone RPLIDAR test reader: start a scan by hand and count
    complete scans from the raw record stream. */
module DirectControl {
  import opened Wrappers
  import opened Rplidar
  import opened Serial
  import opened ScanSegmentation
  import opened Sequences

  function Min(a: int, b: int): int { if a <= b then a else b }
  function Max(a: int, b: int): int { if a >= b then a else b }

  /** `start_scan_direct`: read the 7-byte descriptor and run the three
      checks; each failed check is the exception the source raises. */
  method StartScanDirect(port: SerialPort) returns (r: Result<(), DescriptorError>)
    requires port.Valid()
    modifies port`cursor
    ensures port.Valid()
    ensures port.cursor == Min(old(port.cursor) + DescriptorSize, |port.data|)
    ensures r == CheckScanDescriptor(port.data[old(port.cursor)..port.cursor])
  {
    var descriptor := port.Read(DescriptorSize);
    r := CheckScanDescriptor(descriptor);
  }

  /** `p[2] > 0`: a record whose distance enters the summary. */
  function HasDistance(): Measurement -> bool {
    (m: Measurement) => m.distanceQ2 > 0
  }

  function DistanceOf(): Measurement -> int {
    (m: Measurement) => m.distanceQ2
  }

  /** `[p[2] for p in current_scan_points if p[2] > 0]`: the distances of a
      scan that enter its printed summary. */
  function PositiveDistances(points: seq<Measurement>): (ds: seq<int>)
    ensures |ds| <= |points|
  {
    Select(points, HasDistance(), DistanceOf())
  }

  /** The summary holds one entry per record with a positive distance, in
      scan order: its k-th entry is the distance of the k-th such record,
      and every such record has its entry. */
  lemma PositiveDistancesExact(points: seq<Measurement>)
    ensures |PositiveDistances(points)| == |Chosen(points, HasDistance())|
    ensures forall k :: 0 <= k < |PositiveDistances(points)| ==>
      var j := Chosen(points, HasDistance())[k];
      j < |points| && points[j].distanceQ2 > 0 && PositiveDistances(points)[k] == points[j].distanceQ2
    ensures forall k, l :: 0 <= k < l < |Chosen(points, HasDistance())| ==>
      Chosen(points, HasDistance())[k] < Chosen(points, HasDistance())[l]
    ensures forall j :: 0 <= j < |points| && points[j].distanceQ2 > 0 ==> j in Chosen(points, HasDistance())
  {
    SelectIsFilter(points, HasDistance(), DistanceOf());
    ChosenIncreasing(points, HasDistance());
    ChosenComplete(points, HasDistance());
  }

  /** The scans of a prefix of the stream are the first scans of the
      stream. */
  lemma ReadPrefixClosed(bytes: seq<Byte>, n: nat)
    requires n <= |bytes|
    ensures Segment(Packets(bytes[..n])).closed <= Segment(Packets(bytes)).closed
  {
    PacketsPrefix(bytes, n);
    var all := Packets(bytes);
    assert Packets(bytes[..n]) == all[..|Packets(bytes[..n])|];
    SegmentPrefix(all, |Packets(bytes[..n])|);
  }

  lemma SliceConcat(data: seq<Byte>, i: nat, j: nat, k: nat)
    requires i <= j <= k <= |data|
    ensures data[i..j] + data[j..k] == data[i..k]
  {
  }

  /** The scans of a byte stream, cut as the reader cuts them. */
  ghost function ScansOf(bytes: seq<Byte>): seq<ClosedScan> {
    Segment(Packets(bytes)).closed
  }

  /** What the reader's own variables hold once a stream has been cut into
      `seg`: the open scan, the count of complete scans and one summary per
      complete scan. */
  ghost predicate Tracks(seg: Segmenter, current: seq<Measurement>, scanNum: nat, summaries: seq<seq<int>>) {
    && current == seg.current
    && scanNum == |seg.closed|
    && |summaries| == scanNum
    && forall k :: 0 <= k < scanNum ==> summaries[k] == PositiveDistances(seg.closed[k].points)
  }

  /** Why the count is capped: reading stops either when `num_scans` scans
      are complete or when the whole stream has been read, and the scans
      read so far are the first scans of the stream. */
  lemma ReadScansDone(data: seq<Byte>, start: nat, cursor: nat, numScans: int, seg: Segmenter,
                      current: seq<Measurement>, scanNum: nat, summaries: seq<seq<int>>)
    requires start <= cursor <= |data| && seg == Segment(Packets(data[start..cursor]))
    requires Tracks(seg, current, scanNum, summaries) && scanNum <= Max(numScans, 0)
    requires scanNum < numScans ==> cursor == |data|
    ensures scanNum == Min(Max(numScans, 0), |ScansOf(data[start..])|)
    ensures |summaries| == scanNum
    ensures forall k :: 0 <= k < scanNum ==> summaries[k] == PositiveDistances(ScansOf(data[start..])[k].points)
  {
    var bytes := data[start..];
    assert data[start..cursor] == bytes[..cursor - start];
    ReadPrefixClosed(bytes, cursor - start);
    if scanNum < numScans {
      assert bytes[..cursor - start] == bytes;
    }
  }

  /** The loop body of `read_scans` for one full record: close the open
      scan on a start flag (if it has records), then append the record. */
  method Accept(ghost seg: Segmenter, current: seq<Measurement>, scanNum: nat, summaries: seq<seq<int>>, m: Measurement)
    returns (current': seq<Measurement>, scanNum': nat, summaries': seq<seq<int>>)
    requires Tracks(seg, current, scanNum, summaries)
    ensures Tracks(Feed(seg, m), current', scanNum', summaries')
    ensures scanNum' == scanNum || scanNum' == scanNum + 1
  {
    current', scanNum', summaries' := current, scanNum, summaries;
    if m.startFlag && |current| > 0 {
      scanNum' := scanNum + 1;
      summaries' := summaries + [PositiveDistances(current)];
      current' := [];
    }
    current' := current' + [m];
  }

  /** `read_scans`: read 5-byte records until `num_scans` scans are complete
      or a read comes back short.  The count returned is the number of
      complete scans in the stream, capped at `num_scans`; one summary (the
      positive distances) is produced per complete scan, in stream order. */
  method ReadScans(port: SerialPort, numScans: int) returns (scanNum: nat, summaries: seq<seq<int>>)
    requires port.Valid()
    modifies port`cursor
    ensures port.Valid() && old(port.cursor) <= port.cursor
    ensures scanNum == Min(Max(numScans, 0), |ScansOf(port.data[old(port.cursor)..])|)
    ensures |summaries| == scanNum
    ensures forall k :: 0 <= k < scanNum ==>
      summaries[k] == PositiveDistances(ScansOf(port.data[old(port.cursor)..])[k].points)
  {
    ghost var start := port.cursor;
    ghost var consumed: seq<Byte> := [];
    ghost var seg := Initial;
    scanNum := 0;
    summaries := [];
    var current: seq<Measurement> := [];
    while scanNum < numScans
      invariant port.Valid() && start <= port.cursor
      invariant consumed == port.data[start..port.cursor]
      invariant |consumed| % PacketSize == 0
      invariant seg == Segment(Packets(consumed))
      invariant Tracks(seg, current, scanNum, summaries) && scanNum <= Max(numScans, 0)
      decreases |port.data| - port.cursor
    {
      ghost var before := port.cursor;
      var data := port.Read(PacketSize);
      SliceConcat(port.data, start, before, port.cursor);
      if |data| != PacketSize {
        PacketsShort(consumed, data);
        consumed := consumed + data;
        break;
      }
      var m := DecodeMeasurement(data);
      PacketsSnoc(consumed, data);
      SegmentSnoc(Packets(consumed), m);
      consumed := consumed + data;
      current, scanNum, summaries := Accept(seg, current, scanNum, summaries, m);
      seg := Feed(seg, m);
    }
    ReadScansDone(port.data, start, port.cursor, numScans, seg, current, scanNum, summaries);
  }
}
