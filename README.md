# Ultrasonic detection ADC: host-side logic in Dafny

This project models the host-side software of an ultrasonic obstacle
detector paired with an RPLIDAR A1 laser scanner. An Arduino fires a chain
of ultrasonic sensors and sends one text line per trigger: `S`, a
timestamp, then the sampled echo envelope. A single-board computer reads
those lines. In the synchronised collectors it also decodes the RPLIDAR's
binary scan stream, joins each echo profile to the LiDAR scan nearest in
time, and writes one labelled training row per pair. Two offline analyzers
then find objects in the recorded data as runs of readings across a
threshold.

Modules, each following one part of the program:

| module | file | models |
|---|---|---|
| `Wrappers` | wrappers.dfy | `Option` and `Result` |
| `Text` | text.dfy | Python's `str.split`, `int()`, `str()`, `startswith`, `in` and slicing with clamped bounds |
| `Sequences` | sequences.dfy | list comprehensions with a condition, `min(..., key=...)`, `np.argmax`, `list.remove`, `deque(maxlen=...).append` |
| `Runs` | runs.dfy | the run scan both analyzers' detection loops perform over a boolean mask |
| `Rplidar`, `Serial` | rplidar.dfy | the RPLIDAR SCAN descriptor check and 5-byte measurement decode; the serial port as a byte stream with a read cursor |
| `ScanSegmentation` | segmentation.dfy | cutting the measurement stream into scans at start-flag records |
| `DirectControl` | direct_control.dfy | `start_scan_direct` and `read_scans` of lidar_test/direct_control.py |
| `LidarPositions` | positions.dfy | `_process_lidar_scan` and `_find_relevant_object` of both synchronised collectors |
| `Matching` | matching.dfy | the greedy timestamp join in `synchronize_and_save` |
| `UltrasonicLines` | ultrasonic_lines.dfy | the data-line check and the integer fields of a line |
| `SyncCollector` | sync_collector.dfy | the synchronised collectors' threads, the training-row format and the matching thread's loop |
| `BatchCollector` | batch_collector.dfy | orangepi/data_collector.py: ACK checks, line parsing, the write buffer and its flush, the CSV layout |
| `EchoAnalyzer` | echo_analyzer.dfy | orangepi/echo_analyzer.py: object detection on echo envelopes, per-row peak, averaging window, distance axis |
| `DataAnalyzer` | data_analyzer.dfy | orangepi/data_analyzer.py: file-type dispatch, sensor-column selection, detection on distance series |

Code that updates state step by step is imperative Dafny: the two
collectors are classes whose methods change their queues, buffers,
counters and output, and the loops are `while` loops with invariants. Each
method is proved against a function of its inputs. The properties the
program relies on are then proved about those functions. Examples: the
decoder round-trips, the scans keep every record, the join is greedy and
maximal, rows line up with the header, detection reports exactly the
closed maximal runs.

Units. LiDAR angles and distances stay in protocol units (1/64 degree and
1/4 mm). Timestamps and the sync window are integers in one unit
(milliseconds). Echo distances are in hundredths of a centimetre. Points
arrive with cartesian coordinates already computed.

Behaviour the model takes exactly as the code has it:
- The sync window is strict: a pair needs a time gap strictly below `window_ms` (`time_diff < sync_window_ms / 1000`, orangepi/data_collector_with_lidar_r2.py:367 and orangepi/data_collector_with_lidar.py:194); a gap of exactly `window_ms` does not pair.
- The matching buffers are `deque(maxlen=buffer_size)`, which silently drop their oldest entry. There is no high-water mark and no overflow counter.
- A malformed ultrasonic line is dropped without being counted.
- A LiDAR read returns fewer than 5 bytes only at the end of the stream, where the r2 collector's `continue` and lidar_test/direct_control.py's `break` both end reading. A read that times out mid-stream is not modelled (see Serial.SerialPort.Read under "## Left out").
- The analyzer selects sensor columns by the `sensor_{n}_distance_cm` names it expects (orangepi/data_analyzer.py:49, 64-65). orangepi/data_collector.py writes `sensor_{i}_reading_{j}` columns, which contain no `distance`, so the analyzer selects none of them.

## Model

| member | source | states |
|---|---|---|
| Rplidar.LeU16 | orangepi/data_collector_with_lidar_r2.py:267-270 | a little-endian 16-bit word is below 2^16 |
| Rplidar.LeU32 | orangepi/data_collector_with_lidar_r2.py:172 | a little-endian 32-bit word is below 2^32 |
| Rplidar.DecodeMeasurement | orangepi/data_collector_with_lidar_r2.py:263-271 | a decoded record is in range: quality 0..63, angle below 2^15 (the word shifted right by one), distance below 2^16 |
| Rplidar.DecodeEncode | orangepi/data_collector_with_lidar_r2.py:263-271 | decoding the 5 bytes the device sends for a measurement gives back that measurement: start flag, quality, angle and distance are all read from the right bits |
| Rplidar.EncodeDecode | lidar_test/direct_control.py:55-63 | on a well-formed record (inverted start bit and check bit set as the protocol requires) decoding drops only those redundant bits: re-encoding restores the 5 bytes |
| Rplidar.DescriptorAcceptsLengthFive | orangepi/data_collector_with_lidar_r2.py:165-176 | a 7-byte `A5 5A` descriptor passes exactly when its length, masked with 0x3FFFFFFF, is 5, whatever the send-mode bits and data type; otherwise the error carries the masked length |
| Rplidar.StandardScanDescriptor | orangepi/data_collector_with_lidar_r2.py:165-176 | the descriptor an A1 answers SCAN with, `A5 5A 05 00 00 40 81`, passes the check |
| Rplidar.Packets | orangepi/data_collector_with_lidar_r2.py:254-260 | a byte stream read 5 bytes at a time carries one measurement per full record |
| Rplidar.PacketsSnoc | orangepi/data_collector_with_lidar_r2.py:257-271 | a full 5-byte read adds exactly its decoded measurement to the stream |
| Rplidar.PacketsShort | orangepi/data_collector_with_lidar_r2.py:259-260 | a short read adds no measurement |
| Rplidar.PacketsPrefix | orangepi/data_collector_with_lidar_r2.py:254-260 | the measurements of a prefix of the stream are a prefix of its measurements |
| Serial.SerialPort.constructor | orangepi/data_collector_with_lidar_r2.py:74-79 | an opened port has everything still to be read and its cursor at the start |
| Serial.SerialPort.Read | orangepi/data_collector_with_lidar_r2.py:257 | `read(n)` returns the next bytes of the stream, at most n; in the model it returns fewer only when the stream is exhausted (a timed-out read is left out); the cursor advances by what was returned |
| ScanSegmentation.SegmentSnoc | orangepi/data_collector_with_lidar_r2.py:273-290 | the segmenter after one more record is one loop body applied to the segmenter before it |
| ScanSegmentation.SegmentKeepsEveryRecord | orangepi/data_collector_with_lidar_r2.py:273-290 | no record is lost, duplicated or reordered: the closed scans followed by the open one are exactly the records read |
| ScanSegmentation.SegmentScansNonEmpty | orangepi/data_collector_with_lidar_r2.py:273-288 | a scan is closed only when it has records, and once a record has arrived there is an open scan |
| ScanSegmentation.SegmentStartFlags | orangepi/data_collector_with_lidar_r2.py:273-290 | inside a scan only the first record may carry the start flag, and every scan after the first begins with the start-flag record that closed its predecessor |
| ScanSegmentation.SegmentClosingRecords | orangepi/data_collector_with_lidar_r2.py:273-288 | every scan is closed by a start-flag record of the stream, and scans are closed in stream order |
| ScanSegmentation.SegmentCountsLaterStarts | lidar_test/direct_control.py:65-67 | the number of closed scans is the number of start-flag records after the first record |
| ScanSegmentation.SegmentPrefix | orangepi/data_collector_with_lidar_r2.py:254-290 | reading more records never un-closes a scan |
| DirectControl.StartScanDirect | lidar_test/direct_control.py:15-37 | reads up to 7 bytes and answers the descriptor check on them: too short, wrong start flags and a length other than 5 are each the error raised |
| DirectControl.PositiveDistances | lidar_test/direct_control.py:68 | a scan's summary has no more entries than the scan has records |
| DirectControl.PositiveDistancesExact | lidar_test/direct_control.py:68 | the summary has one entry per record with a positive distance, in scan order: its k-th entry is the distance of the k-th such record, and every such record has one |
| DirectControl.ReadPrefixClosed | lidar_test/direct_control.py:47-81 | the scans counted from a prefix of the stream are the first scans of the whole stream |
| DirectControl.ReadScansDone | lidar_test/direct_control.py:47-83 | when reading stops, with `num_scans` complete scans or at the end of the stream, the count is min(num_scans, scans in the stream) and each summary is that of the scan with the same index |
| DirectControl.Accept | lidar_test/direct_control.py:65-81 | one full record: a start flag on a non-empty scan counts and summarises it and starts the next scan with this record; the count grows by at most one |
| DirectControl.ReadScans | lidar_test/direct_control.py:39-83 | the count returned is the number of complete scans in the stream, capped at `num_scans` (never negative), with one summary per counted scan, in stream order |
| LidarPositions.ProcessScanFront | orangepi/data_collector_with_lidar_r2.py:304-333 | the loop builds exactly the front-relative positions of the scan, in order |
| LidarPositions.FrontPositionsExact | orangepi/data_collector_with_lidar_r2.py:319-333 | a position is produced exactly when the point it comes from has a quality, a distance and a Y beyond the front line; X is unchanged, every new Y is positive, and there are no more positions than points |
| LidarPositions.NearestToFrontLine | orangepi/data_collector_with_lidar_r2.py:458-463 | none for no positions; otherwise the first position of least Y |
| LidarPositions.ProcessScanAll | orangepi/data_collector_with_lidar.py:142-160 | the loop builds exactly the valid positions of the scan, in order |
| LidarPositions.ValidPositionsExact | orangepi/data_collector_with_lidar.py:152-160 | exactly the points with a positive quality and distance are kept, in scan order: the k-th position is the k-th valid point |
| LidarPositions.AngleDiff | orangepi/data_collector_with_lidar.py:302 | the normalised angle difference, with Python's `%`, lies in 0..180 |
| LidarPositions.AngleDiffIsCircularDistance | orangepi/data_collector_with_lidar.py:302 | the normalised difference is the circular distance: the least \|angle - sensor angle - 360k\| over whole turns k |
| LidarPositions.FindRelevantObject | orangepi/data_collector_with_lidar.py:271-314 | an unconfigured sensor gets the first position of least distance (none for no positions); a configured one gets the first candidate in its field of view of least range |
| LidarPositions.FindRelevantObjectInView | orangepi/data_collector_with_lidar.py:294-314 | with a configured sensor an object is reported exactly when some position is in the field of view, and the candidates are exactly those positions, with their range |
| Matching.Nearest | orangepi/data_collector_with_lidar_r2.py:360-370 | a record pairs with nothing exactly when no scan lies strictly inside the window; otherwise with a scan inside the window of least gap, the earliest-buffered of those |
| Matching.FindBestMatch | orangepi/data_collector_with_lidar_r2.py:361-370 | the inner search loop finds that nearest scan |
| Matching.GreedyMatch | orangepi/data_collector_with_lidar_r2.py:358-374 | every record and every scan ends up either in a pair or left in its buffer |
| Matching.StepMatched | orangepi/data_collector_with_lidar_r2.py:371-374 | `list.remove` takes out exactly the record just matched and exactly its nearest scan, so the pass keeps its invariant |
| Matching.RemoveNearest | orangepi/data_collector_with_lidar_r2.py:374 | removing the first scan equal to the nearest one removes the nearest one's own position |
| Matching.StepUnmatched | orangepi/data_collector_with_lidar_r2.py:370-371 | a record with no scan in the window stays in the buffer, in order |
| Matching.MatchPass | orangepi/data_collector_with_lidar_r2.py:358-374 | the imperative pass over both buffers yields the pairs and the remaining buffers of the greedy join |
| Matching.GreedyPairsInWindow | orangepi/data_collector_with_lidar_r2.py:367 | every pair lies strictly inside the window |
| Matching.GreedyUsesScansOnce | orangepi/data_collector_with_lidar_r2.py:371-374 | each scan is used at most once: the paired scans plus the scans left over are, as a multiset, the scans buffered |
| Matching.GreedyKeepsUltrasonicOrder | orangepi/data_collector_with_lidar_r2.py:360-374 | the ultrasonic buffer splits into the paired records (in pair order) and the records left over, both in buffer order |
| Matching.GreedyLeftoverScans | orangepi/data_collector_with_lidar_r2.py:374 | the scans left over are scans that were buffered |
| Matching.GreedyLeavesNoPair | orangepi/data_collector_with_lidar.py:185-201 | the join is maximal: no record left over has a leftover scan inside the window |
| UltrasonicLines.DataLineFraming | orangepi/data_collector_with_lidar_r2.py:214-219 | a line written as `S` and comma-free fields splits back into those fields, and passes the check exactly when it has at least 242 fields after the `S` (243 in all) |
| UltrasonicLines.ParseFields | orangepi/data_collector_with_lidar_r2.py:402-405 | a successful parse of `count` fields gives `count` integers |
| UltrasonicLines.ParseFieldsMeaning | orangepi/data_collector_with_lidar_r2.py:402-405 | the fields parse exactly when each is present and an integer, and then to the integers they spell, in order |
| UltrasonicLines.ParseFieldsFirstError | orangepi/data_collector_with_lidar_r2.py:402-405 | when every field before field i parses and field i does not, the error names field i: missing when the line ends before it, otherwise not an integer |
| SyncCollector.FeedQueued | orangepi/data_collector_with_lidar_r2.py:273-290 | one record through the LiDAR thread queues an entry exactly when it closes a scan that has a position beyond the front line |
| SyncCollector.FrontScanQueuedIff | orangepi/data_collector_with_lidar_r2.py:280-286 | a closed scan is queued exactly when one of its records has a quality, a distance and a Y beyond the front line |
| SyncCollector.LibraryScanQueuedIff | orangepi/data_collector_with_lidar.py:126-134 | a delivered scan is queued exactly when one of its points has a quality and a distance |
| SyncCollector.Header | orangepi/data_collector_with_lidar_r2.py:492-494 | the header has 248 columns |
| SyncCollector.HeaderLayout | orangepi/data_collector_with_lidar_r2.py:492-494 | three fixed names, then `echo_r1` .. `echo_r240`, then the five fixed trailing names |
| SyncCollector.HeaderColumns | orangepi/data_collector_with_lidar.py:343-345 | column 2+i is named `echo_r{i}`, and no two columns share a name |
| SyncCollector.PyMod | orangepi/data_collector_with_lidar_r2.py:409 | Python's `%`: the remainder has the divisor's sign, is smaller in magnitude, and differs from the dividend by a multiple of the divisor |
| SyncCollector.SensorId | orangepi/data_collector_with_lidar_r2.py:409 | with a positive sensor count the id lies in 1..count |
| SyncCollector.SensorIdRoundRobin | orangepi/data_collector_with_lidar.py:236 | row after row the sensor id cycles 1, 2, ..., count, 1, ... starting at 1 |
| SyncCollector.SampleRow | orangepi/data_collector_with_lidar_r2.py:392-441 | a pair gives a row exactly when fields 1..241 of the line are present integers and the sensor count is not 0 (the exception otherwise), and the row carries 240 readings |
| SyncCollector.SampleRowCells | orangepi/data_collector_with_lidar_r2.py:419-441 | a saved row has the header's width: timestamps, sensor id, reading i under `echo_r{i}`, the labelling object or four empty cells, the number of positions |
| SyncCollector.SampleRowFields | orangepi/data_collector_with_lidar_r2.py:400-417 | the row's Arduino timestamp is field 1 and its readings fields 2..241, the sensor id round-robin, the object the nearest position |
| SyncCollector.CellsLayout | orangepi/data_collector_with_lidar.py:246-266 | the cells of a row with the full echo profile, column by column, 248 of them |
| SyncCollector.Take | orangepi/data_collector_with_lidar_r2.py:346-356 | taking from the queues into the bounded buffers keeps each buffer within `buffer_size` |
| SyncCollector.SaveAll | orangepi/data_collector_with_lidar_r2.py:376-379 | saving pairs only appends rows, one per counted sample, each with the full echo profile; all pairs are counted unless a save raises |
| SyncCollector.SaveAllAt | orangepi/data_collector_with_lidar_r2.py:377-379 | a failing save stops the thread with nothing more written; a successful one writes its row and counts it before the next pair |
| SyncCollector.SyncRun | orangepi/data_collector_with_lidar_r2.py:344-384 | the matching loop keeps both buffers within `buffer_size`, drains both queues when it completes, and only appends rows, one per matched sample |
| SyncCollector.Continue | orangepi/data_collector_with_lidar_r2.py:376-379 | saving a pass and carrying on keeps the same guarantees |
| SyncCollector.SynchronizedCollector.constructor | orangepi/data_collector_with_lidar_r2.py:84-104 | empty queues and output, every counter 0 |
| SyncCollector.SynchronizedCollector.CollectUltrasonicLine | orangepi/data_collector_with_lidar_r2.py:214-225 | a line is queued, with its fields, and counted exactly when it is a data line; any other line changes nothing |
| SyncCollector.SynchronizedCollector.CollectUltrasonicData | orangepi/data_collector_with_lidar_r2.py:197-242 | the thread queues and counts exactly the data lines, in arrival order, with their arrival times |
| SyncCollector.SynchronizedCollector.CollectLidarScans | orangepi/data_collector_with_lidar.py:114-134 | the library-based thread queues and counts exactly the scans with a valid point, in delivery order |
| SyncCollector.SynchronizedCollector.AcceptRecord | orangepi/data_collector_with_lidar_r2.py:273-290 | one full record: queue and counter advance exactly as the segmenter's closed scans with a front position |
| SyncCollector.SynchronizedCollector.CollectLidarDirect | orangepi/data_collector_with_lidar_r2.py:244-302 | a failed descriptor check ends the thread having queued nothing; otherwise the queue gains, in order, every scan of the stream closed by a start flag that has a front position |
| SyncCollector.SynchronizedCollector.ReadFrontScans | orangepi/data_collector_with_lidar_r2.py:254-290 | the record loop reads the whole stream and queues and counts exactly the closed scans with a front position |
| SyncCollector.SynchronizedCollector.SaveTrainingSample | orangepi/data_collector_with_lidar_r2.py:392-442 | the row written is the pair's row; on an exception nothing is written |
| SyncCollector.SynchronizedCollector.SavePairs | orangepi/data_collector_with_lidar_r2.py:376-379 | the save loop writes and counts as SaveAll says |
| SyncCollector.SynchronizedCollector.SyncIteration | orangepi/data_collector_with_lidar_r2.py:344-379 | one turn takes at least one queued entry, keeps the buffers bounded, and leaves the rest of the run unchanged |
| SyncCollector.SynchronizedCollector.RunMatching | orangepi/data_collector_with_lidar_r2.py:344-384 | the loop from empty buffers ends where SyncRun ends |
| SyncCollector.SynchronizedCollector.SynchronizeAndSave | orangepi/data_collector_with_lidar_r2.py:335-388 | queues, counter and rows end as SyncRun says; on completion the unmatched counters equal what is left in the buffers (at most `buffer_size` each, by SyncRun); when a save raises they are not set |
| Text.Split | orangepi/data_collector_with_lidar_r2.py:218 | `split` gives at least one piece and no piece holds the separator |
| Text.JoinSplit | orangepi/data_collector_with_lidar_r2.py:218 | joining the pieces of a split gives back the line |
| Text.SplitJoin | orangepi/data_collector_with_lidar_r2.py:218 | splitting a join of separator-free pieces gives back the pieces |
| Text.SplitCount | orangepi/data_collector_with_lidar_r2.py:219 | a line has one more field than it has commas |
| Text.ParseIntToString | orangepi/data_collector.py:90 | `int(str(n)) == n` for every integer |
| Text.PySlice | orangepi/data_collector.py:157 | a slice never fails; its length is the clamped end minus the clamped start, or 0 when they cross, and it holds consecutive elements from the clamped start |
| Text.ClampIndex | orangepi/data_collector.py:157 | slice bounds count from the end when negative and are clamped to the sequence |
| Text.NonNegativeSlice | orangepi/data_collector.py:157 | with non-negative bounds the slice length is min(end - start, max(0, len - start)) |
| Sequences.MinBy | orangepi/data_collector_with_lidar.py:286 | `min(key=...)`: none exactly for an empty list; otherwise an element of least key, the first such |
| Sequences.FirstMinIndex | orangepi/data_collector_with_lidar_r2.py:462 | the position `min` settles on: least key, and strictly less than every key before it |
| Sequences.FirstMaxIndex | orangepi/echo_analyzer.py:296 | `np.argmax`: the first position of the largest value |
| Sequences.RemoveFirst | orangepi/data_collector_with_lidar_r2.py:373 | `list.remove` shortens the list by one |
| Sequences.RemoveFirstAt | orangepi/data_collector_with_lidar_r2.py:373-374 | removing the first equal element removes the first position holding it |
| Sequences.BoundedAppend | orangepi/data_collector_with_lidar_r2.py:348 | `deque(maxlen).append`: the newest `maxlen` elements, the appended one last |
| Sequences.SelectIsFilter | orangepi/data_collector_with_lidar.py:152-160 | a conditional comprehension keeps, in order, exactly the elements satisfying its condition |
| Sequences.SelectMembership | orangepi/data_analyzer.py:64-65 | a value is in a comprehension's result exactly when some kept element maps to it |
| Runs.ScanSound | orangepi/echo_analyzer.py:187-204 | every run the scan closes is a maximal run of set bits ended by an unset one, and the run it holds open is the maximal run at the end |
| Runs.ScanComplete | orangepi/data_analyzer.py:166-181 | every maximal run of set bits closed by an unset bit is reported |
| Runs.ScanOrdered | orangepi/echo_analyzer.py:187-204 | reported runs are in increasing order and separated, and all end before the open run |
| Runs.ScanOpen | orangepi/data_analyzer.py:166-181 | the scan holds a run open exactly when the mask ends in a maximal run from that position |
| BatchCollector.CommandCarriesSamples | orangepi/data_collector.py:90 | `START:{n}` and `CONFIG:{n}` carry n, which the device reads back with `int` |
| BatchCollector.AcknowledgedWhen | orangepi/data_collector.py:92 | a response is acknowledged whatever surrounds the `ACK:` text, and never when there is no response or it is shorter than the text |
| BatchCollector.ParseAll | orangepi/data_collector.py:146 | the values parse exactly when every field is an integer, and then field by field |
| BatchCollector.Chunks | orangepi/data_collector.py:153-157 | one list per sensor in `range(num_sensors)`, none for a non-positive count |
| BatchCollector.ParseLineAccepts | orangepi/data_collector.py:141-169 | a line yields a record exactly when it has at least three fields and every field after the first is an integer; otherwise nothing is queued |
| BatchCollector.ParseLineRecord | orangepi/data_collector.py:145-164 | the record holds the host time, field 1 as the Arduino timestamp, and the remaining values cut into the per-sensor lists |
| BatchCollector.ChunksLayout | orangepi/data_collector.py:153-157 | list i holds the readings from i·r on, min(r, max(0, len - i·r)) of them |
| BatchCollector.ChunkShape | orangepi/data_collector.py:155-157 | one sensor's list is the clamped slice [i·r, i·r + r) |
| BatchCollector.ChunksFlatten | orangepi/data_collector.py:153-157 | the lists, read in turn, are the readings they cover: all of them when the line carries at least num_sensors·r |
| BatchCollector.FieldNamesLayout | orangepi/data_collector.py:216-219 | the header is the two timestamps then `sensor_{i+1}_reading_{j+1}` in sensor-major order, n·r names |
| BatchCollector.GridIndex | orangepi/data_collector.py:217-219 | the nested loops place (i, j) at position i·r + j |
| BatchCollector.FitsMeans | orangepi/data_collector.py:226-235 | a record can be written exactly when each of its readings has a column |
| BatchCollector.CsvRowLayout | orangepi/data_collector.py:226-235 | each row lines up with the header: reading j of sensor i under its name, an empty cell where the record has none |
| BatchCollector.CsvOutcome | orangepi/data_collector.py:204-235 | a batch whose first record has no sensor lists fails before any row; otherwise the rows written are the leading records that fit the first record's shape, and the first that does not is the error |
| BatchCollector.FitsPrefix | orangepi/data_collector.py:226-235 | the records written all fit; the write stops exactly at the first record that does not |
| BatchCollector.FitsPrefixExtends | orangepi/data_collector.py:226-235 | one record more either extends the written rows or stops there |
| BatchCollector.FitsPrefixStops | orangepi/data_collector.py:226-235 | once the write has stopped, later records do not matter |
| BatchCollector.FirstRecordFits | orangepi/data_collector.py:213-235 | the first record always fits the header built from it when its first list is its longest |
| BatchCollector.AdcToDistance | orangepi/data_collector.py:251-259 | one ADC unit is one centimetre: the distance is the ADC value |
| BatchCollector.UltrasonicDataCollector.constructor | orangepi/data_collector.py:24-30 | the configuration is kept, `readings_per_trigger` defaults to 10, nothing is running, queued, buffered or written |
| BatchCollector.UltrasonicDataCollector.StartCollection | orangepi/data_collector.py:85-107 | collection starts exactly when the answer to `START:{n}` contains `ACK:STARTED` |
| BatchCollector.UltrasonicDataCollector.UpdateConfig | orangepi/data_collector.py:261-268 | the sample count changes exactly when the answer to `CONFIG:{n}` contains `ACK:CONFIG_UPDATED` |
| BatchCollector.UltrasonicDataCollector.ParseSensorData | orangepi/data_collector.py:138-169 | the queue gains the line's record, if it has one, and nothing else |
| BatchCollector.UltrasonicDataCollector.ReadLines | orangepi/data_collector.py:119-136 | the queue gains, in order, the records of the lines starting with `S,` |
| BatchCollector.UltrasonicDataCollector.WriteCsv | orangepi/data_collector.py:204-235 | the header is built from the first record's shape and the rows and the error are CsvOutcome's |
| BatchCollector.UltrasonicDataCollector.WriteRows | orangepi/data_collector.py:226-235 | one row per record, each CsvRow, until the first record that does not fit |
| BatchCollector.UltrasonicDataCollector.BuildFieldNames | orangepi/data_collector.py:216-219 | the loops build the header FieldNamesLayout describes |
| BatchCollector.UltrasonicDataCollector.FlushBuffer | orangepi/data_collector.py:188-202 | an empty buffer is a no-op; a flush appends the batch, in order, to the sink and clears the buffer; a failing CSV write keeps the buffer and writes only the rows before the failure |
| BatchCollector.UltrasonicDataCollector.Append | orangepi/data_collector.py:176-181 | the record is buffered, and the buffer is flushed exactly when it reaches `buffer_size`; the sink only grows; a failed flush (CSV only) writes the rows before the failing record, raises CsvOutcome's error and keeps the whole buffer |
| BatchCollector.UltrasonicDataCollector.WriteDataLoop | orangepi/data_collector.py:171-186 | the queue is drained and the sink only grows; no record is lost even when a flush fails: the records of flushes that succeeded are in the sink and the rest are still buffered, in order; without a failed flush the sink is the old sink and those records, with fewer than `buffer_size` buffered |
| BatchCollector.UltrasonicDataCollector.StopCollection | orangepi/data_collector.py:109-117 | collection stops and what is buffered is flushed to the sink; when the CSV write fails, the rows before the failing record are written, CsvOutcome's error is raised and the buffer stays as it was |
| EchoAnalyzer.NumReadings | orangepi/echo_analyzer.py:34-48 | the number of readings is the count of `reading_` columns, or 240 when there are none |
| EchoAnalyzer.ReadingColumnsExact | orangepi/echo_analyzer.py:46 | the columns counted are exactly those whose name contains `reading_` |
| EchoAnalyzer.DistanceAxis | orangepi/echo_analyzer.py:83-85 | one distance per reading, from 0, 0.86 cm apart |
| EchoAnalyzer.Peak | orangepi/echo_analyzer.py:189-194 | the peak is a reading of the run and no reading exceeds it |
| EchoAnalyzer.AboveMask | orangepi/echo_analyzer.py:188 | one flag per reading, set exactly when the reading reaches the threshold |
| EchoAnalyzer.DetectObjects | orangepi/echo_analyzer.py:165-206 | the loop reports exactly the objects of the row |
| EchoAnalyzer.DetectStep | orangepi/echo_analyzer.py:187-204 | one turn of the loop keeps its state in step with the run scan |
| EchoAnalyzer.ExtendObject | orangepi/echo_analyzer.py:188-194 | a reading at or above the threshold opens an object or raises its peak |
| EchoAnalyzer.CloseObject | orangepi/echo_analyzer.py:195-204 | a lower reading ends the object, which is reported when wide enough |
| EchoAnalyzer.ObjectClosed | orangepi/echo_analyzer.py:195-204 | the object ended at reading i spans [start, i) with start < i, and is reported exactly when at least `min_width` wide |
| EchoAnalyzer.ObjectsSound | orangepi/echo_analyzer.py:187-204 | every object is a maximal run at or above the threshold closed by a lower reading, at least `min_width` wide; its strength is the run's peak and its centre `start + width//2` lies inside the run |
| EchoAnalyzer.ObjectsComplete | orangepi/echo_analyzer.py:187-204 | every such closed run of at least `min_width` readings is reported, with its peak |
| EchoAnalyzer.ObjectsOrdered | orangepi/echo_analyzer.py:187-204 | objects are in increasing position order and never overlap |
| EchoAnalyzer.OpenRunDropped | orangepi/echo_analyzer.py:187-206 | a run still open at the last reading is never reported |
| EchoAnalyzer.RowPeak | orangepi/echo_analyzer.py:289-305 | a row has a detection exactly when some reading reaches the threshold; it is then the first argmax, whose reading reaches the threshold |
| EchoAnalyzer.DistanceVsTime | orangepi/echo_analyzer.py:280-305 | one entry per row, each that row's detection |
| EchoAnalyzer.TimeSeriesWindow | orangepi/echo_analyzer.py:247-248 | the window is clamped: 0 <= start and end <= `num_readings` |
| EchoAnalyzer.TimeSeriesWindowSpan | orangepi/echo_analyzer.py:244-253 | for a reading inside the row the window surrounds it and is the readings within the half-width that the row has |
| DataAnalyzer.LastIndexOf | orangepi/data_analyzer.py:30 | the last position of a character, none exactly when it does not occur |
| DataAnalyzer.SuffixShape | orangepi/data_analyzer.py:30 | a suffix is empty, or a dot and at least one dot-free character ending a longer name |
| DataAnalyzer.SuffixOfExtension | orangepi/data_analyzer.py:30-32 | `base.ext` has suffix `.ext`; a bare `.ext` has none |
| DataAnalyzer.LoadFormat | orangepi/data_analyzer.py:28-37 | CSV exactly for suffix `.csv`, JSON exactly for `.json`, the error exactly for anything else |
| DataAnalyzer.LoadFormatByName | orangepi/data_analyzer.py:30-35 | the collector's own `.csv` and `.json` files load |
| DataAnalyzer.LoadFormatRefusesOther | orangepi/data_analyzer.py:36-37 | any other extension is refused |
| DataAnalyzer.LoadFormatRefusesBareExtension | orangepi/data_analyzer.py:36-37 | a name that is only `.csv` is refused |
| DataAnalyzer.LoadFormatRefusesNoDot | orangepi/data_analyzer.py:36-37 | a name without a dot is refused |
| DataAnalyzer.SensorColumnsExact | orangepi/data_analyzer.py:154-155 | the columns processed are exactly those containing both `sensor_` and `distance`, in column order |
| DataAnalyzer.FilterSensorsAsWrittenExact | orangepi/data_analyzer.py:67-69 | as written, a column is kept exactly when it contains `sensor_{s}` for a listed s, or all are kept when none is listed |
| DataAnalyzer.FilterSensorsKeepsSensorTen | orangepi/data_analyzer.py:67-69 | as written, asking for sensor 1 keeps `sensor_10_distance_cm` |
| DataAnalyzer.DistanceColumnNumber | orangepi/data_analyzer.py:74 | the label taken from `sensor_{n}_distance_cm` is n |
| DataAnalyzer.FilterSensorsExact | orangepi/data_analyzer.py:67-69 | the intended filter keeps sensor n's column exactly when n is listed or nothing is |
| DataAnalyzer.DistanceColumnIsSensorColumn | orangepi/data_analyzer.py:64-65 | the column name the analyzer expects for sensor n (line 49 strips `_distance_cm` from it), `sensor_{n}_distance_cm`, passes its sensor-column test |
| DataAnalyzer.PlottedColumnsAsWrittenExact | orangepi/data_analyzer.py:64-69 | as written, a column is drawn exactly when it is a sensor column of the frame and either no sensor is listed or it contains `sensor_{s}` for a listed s |
| DataAnalyzer.PlottedColumnsKeepsSensorTen | orangepi/data_analyzer.py:93-98 | as written, a frame with `sensor_10_distance_cm` draws it when only sensor 1 is asked for |
| DataAnalyzer.PlottedColumnsExact | orangepi/data_analyzer.py:64-69 | as intended, sensor n's column is drawn exactly when the frame holds it and n is listed or nothing is |
| DataAnalyzer.BelowMask | orangepi/data_analyzer.py:163 | one flag per sample, set exactly when the value is present and below the threshold |
| DataAnalyzer.Least | orangepi/data_analyzer.py:178 | the minimum is a value of the run and no value is below it |
| DataAnalyzer.Present | orangepi/data_analyzer.py:178 | the values of a column, each present value as it is |
| DataAnalyzer.DetectColumn | orangepi/data_analyzer.py:165-181 | the loop over one column records exactly that column's detections |
| DataAnalyzer.DetectColumnStep | orangepi/data_analyzer.py:167-181 | one turn of the loop keeps its state in step with the run scan |
| DataAnalyzer.CloseRun | orangepi/data_analyzer.py:170-181 | a value not below ends the run, which is recorded when long enough |
| DataAnalyzer.DetectionFields | orangepi/data_analyzer.py:171-179 | the detection of [start, idx) names the sensor, starts at start, ends at idx - 1, lasts idx - start samples and carries the run's minimum |
| DataAnalyzer.ScannedExtend | orangepi/data_analyzer.py:167-169 | a sample that closes nothing keeps the detections, and opens a run when it is below and none is open |
| DataAnalyzer.ScannedClose | orangepi/data_analyzer.py:170-181 | a value not below closes the open run, recorded exactly when it lasted at least the minimum |
| DataAnalyzer.DetectObjects | orangepi/data_analyzer.py:147-183 | the detections are those of the sensor columns, column after column |
| DataAnalyzer.DetectionSound | orangepi/data_analyzer.py:163-181 | every detection is a maximal run below the threshold closed by a value that is not; end = idx - 1, duration = end - start + 1, at least the minimum; its minimum distance is a value of the run, the least, below the threshold |
| DataAnalyzer.DetectionRun | orangepi/data_analyzer.py:170-179 | each detection is the one made of a closed maximal run of at least the minimum duration |
| DataAnalyzer.RunMinBelow | orangepi/data_analyzer.py:178 | the minimum of a run below the threshold is one of its values, the least, and below the threshold |
| DataAnalyzer.DetectionComplete | orangepi/data_analyzer.py:163-181 | every closed maximal run below the threshold lasting at least the minimum is detected, from its first sample to the one before the closing value |
| DataAnalyzer.TrailingRunDropped | orangepi/data_analyzer.py:163-181 | a run still below the threshold at the last sample is not detected |
| DataAnalyzer.FrameDetectionsConcat | orangepi/data_analyzer.py:159-181 | each column contributes its detections in turn, only sensor columns contribute |

## Left out

- Threads and their queues: each thread body is a sequential method over its inputs. The `running` flag, the 0.1 s `get` timeouts and the blocking `put` on a full `queue.Queue(maxsize=200)` are not modelled. The matching thread is modelled from the point where both producers have stopped.
- Serial.SerialPort.Read: a read that times out mid-stream is not modelled. The LiDAR port is opened with `timeout=1` (orangepi/data_collector_with_lidar_r2.py:74-79), so `read(5)` can return 0 to 4 bytes before the stream ends. The r2 collector then drops those bytes and reads on out of step with the 5-byte records (lines 257-260), and lidar_test/direct_control.py:50-52 stops. In the model a short read happens only at the end of the stream, and CollectLidarDirect's promise to queue every scan of the stream rests on that.
- Serial I/O: opening ports, `readline`, `in_waiting`, resets, DTR/RTS motor control and sleeps. Lines arrive as a sequence of strings with host times, and the LiDAR as a byte sequence with a cursor. `.decode`/`.strip` of a line are taken as already done.
- The RPLIDAR GET_INFO exchange and motor start in `_init_lidar`, and `_stop_lidar`: they are device handling with no checked result.
- Clocks: `time.time()` and `datetime.now()` are integer parameters. The r2 LiDAR thread reads its clock through a function of the number of bytes consumed. In the matching loop the source compares seconds with `window_ms / 1000`; the model uses integer milliseconds on both sides.
- Floating point and trigonometry:
  - polar-to-cartesian conversion, `arctan2` and `sqrt` are function parameters;
  - the `/64`, `/4` and `/10` scalings are not applied;
  - the 0.86 cm per reading is kept in hundredths of a centimetre;
  - `round(..., 1)` of the echo analyzer's distances and widths is not modelled;
  - `mean_distance_cm` of the distance-series detections is a float mean and is not computed.
- SyncCollector.SampleRow: the row's `system_timestamp` is the ultrasonic line's `time.time()` reading (orangepi/data_collector_with_lidar_r2.py:215,422; orangepi/data_collector_with_lidar.py:96,249). That is float seconds; the model carries integer milliseconds.
- BatchCollector.Entry: `system_timestamp` is `datetime.now().isoformat()` text (orangepi/data_collector.py:161); the model carries the clock reading as an integer, not its ISO text.
- Text: `int()` accepts an optional sign and ASCII digits only. Python's leading and trailing whitespace, underscores and non-ASCII digits are not modelled.
- BatchCollector.UltrasonicDataCollector.FlushBuffer: the JSON branch appends the batch to the sink; re-reading an existing JSON file is not modelled. The file is a sink of records, and CSV rows are shown by WriteCsv. The header is written only to a new file; that file-existence check is not modelled.
- Output file naming (`_create_output_file` paths), progress printing, `get_statistics`, `export_summary`, `generate_report` and every plotting call: they are presentation.
- DataAnalyzer: pandas' conversion of missing values is read as an absent value. A missing value is never below the threshold.
- EchoAnalyzer.RowPeak: NaN entries of the output lists are `None`.
- `get_sensor_data`'s column selection and the pandas/CSV loading itself are not modelled.
- lidar_test/visualize.py and lidar_test/basic_test.py repeat the measurement decode modelled here. orangepi/realtime_viewer.py and orangepi/test_system.py are a plotting UI and hardware smoke tests. None of these is part of this model.
- The Arduino firmware's START/STOP/CONFIG handling is not part of this model; only the host's ACK checks are.

## Findings

| source | as written | input that shows it | evidently intended | confidence | as-written member | corrected member |
|---|---|---|---|---|---|---|
| orangepi/data_analyzer.py:64-69 | the `sensors` filter keeps a column when `sensor_{s}` occurs anywhere in its name | `sensors=[1]` with a column `sensor_10_distance_cm`: the column is drawn | draw a column exactly when its own sensor number is listed | not executed; the same filter appears in both plotting methods (lines 93-98) | DataAnalyzer.PlottedColumnsKeepsSensorTen | DataAnalyzer.PlottedColumnsExact |
