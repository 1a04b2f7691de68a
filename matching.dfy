/** The timestamp join of both synchronising collectors: every ultrasonic
    record waiting in its buffer, in buffer order, is paired with the LiDAR
    scan nearest in time, if one lies strictly inside the window, and both
    leave their buffers. */
module Matching {
  import opened Wrappers
  import opened Sequences
  import opened LidarPositions

  /** A queued ultrasonic record: the host's arrival time, the raw line and
      its comma-separated fields. */
  datatype UltrasonicEntry = UltrasonicEntry(timestamp: int, rawLine: string, parts: seq<string>)

  /** A queued LiDAR scan: the host's time at the scan's end, its positions
      and the number of records it had. */
  datatype LidarEntry = LidarEntry(timestamp: int, positions: seq<Position>, numPoints: nat)

  function Gap(a: int, b: int): nat {
    if a < b then b - a else a - b
  }

  /** The scan an ultrasonic record at time `t` pairs with: among the scans
      strictly inside the window, one of least gap, and the earliest-buffered
      of those, since the search only replaces its candidate on a strictly
      smaller gap. */
  function Nearest(t: int, lidar: seq<LidarEntry>, window: int): (r: Option<nat>)
    ensures r.None? <==> forall j :: 0 <= j < |lidar| ==> Gap(t, lidar[j].timestamp) >= window
    ensures r.Some? ==> r.value < |lidar| && Gap(t, lidar[r.value].timestamp) < window
    ensures r.Some? ==> forall j :: 0 <= j < |lidar| && Gap(t, lidar[j].timestamp) < window ==>
      Gap(t, lidar[r.value].timestamp) <= Gap(t, lidar[j].timestamp)
    ensures r.Some? ==> forall j :: 0 <= j < r.value ==>
      Gap(t, lidar[r.value].timestamp) < Gap(t, lidar[j].timestamp)
  {
    if lidar == [] then None
    else
      var init := lidar[..|lidar| - 1];
      var best := Nearest(t, init, window);
      assert forall j :: 0 <= j < |init| ==> init[j] == lidar[j];
      var d := Gap(t, lidar[|lidar| - 1].timestamp);
      if d < window && (best.None? || d < Gap(t, lidar[best.value].timestamp)) then Some(|lidar| - 1)
      else best
  }

  /** The inner loop of the matching pass. */
  method FindBestMatch(t: int, lidar: seq<LidarEntry>, window: int) returns (best: Option<nat>)
    ensures best == Nearest(t, lidar, window)
  {
    best := None;
    var bestDiff := 0;
    for i := 0 to |lidar|
      invariant best == Nearest(t, lidar[..i], window)
      invariant best.Some? ==> best.value < i && bestDiff == Gap(t, lidar[best.value].timestamp)
    {
      assert lidar[..i + 1][..i] == lidar[..i];
      var timeDiff := Gap(t, lidar[i].timestamp);
      if timeDiff < window && (best.None? || timeDiff < bestDiff) {
        best := Some(i);
        bestDiff := timeDiff;
      }
    }
    assert lidar[..|lidar|] == lidar;
  }

  /** What one matching pass leaves: the pairs found, in ultrasonic buffer
      order, and the two buffers afterwards. */
  datatype Pass = Pass(pairs: seq<(UltrasonicEntry, LidarEntry)>,
                       ultrasonic: seq<UltrasonicEntry>, lidar: seq<LidarEntry>)

  /** The greedy join, one ultrasonic record at a time: a paired scan is
      removed before the next record looks for its partner. */
  function GreedyMatch(us: seq<UltrasonicEntry>, lidar: seq<LidarEntry>, window: int): (r: Pass)
    ensures |r.pairs| + |r.ultrasonic| == |us|
    ensures |r.pairs| + |r.lidar| == |lidar|
    decreases |us|
  {
    if us == [] then Pass([], [], lidar)
    else
      match Nearest(us[0].timestamp, lidar, window)
      case Some(b) =>
        var rest := GreedyMatch(us[1..], RemoveAt(lidar, b), window);
        Pass([(us[0], lidar[b])] + rest.pairs, rest.ultrasonic, rest.lidar)
      case None =>
        var rest := GreedyMatch(us[1..], lidar, window);
        Pass(rest.pairs, [us[0]] + rest.ultrasonic, rest.lidar)
  }

  /** No ultrasonic record left behind has a scan inside the window. */
  ghost predicate Unpaired(kept: seq<UltrasonicEntry>, lidar: seq<LidarEntry>, window: int) {
    forall u, l :: u in kept && l in lidar ==> Gap(u.timestamp, l.timestamp) >= window
  }

  /** The state of the matching pass after the first `i` records of the
      snapshot: the records kept so far, followed by those not yet looked
      at, are the live ultrasonic buffer; kept records have no scan in the
      window; and what is found so far, followed by what the join finds on
      the rest, is what the join finds on the whole snapshot. */
  ghost predicate PassState(snapshot: seq<UltrasonicEntry>, whole: Pass, i: nat, kept: seq<UltrasonicEntry>,
                            pairs: seq<(UltrasonicEntry, LidarEntry)>, usRest: seq<UltrasonicEntry>,
                            lidarRest: seq<LidarEntry>, window: int)
  {
    && i <= |snapshot|
    && usRest == kept + snapshot[i..]
    && Unpaired(kept, lidarRest, window)
    && var rest := GreedyMatch(snapshot[i..], lidarRest, window);
       && pairs + rest.pairs == whole.pairs
       && kept + rest.ultrasonic == whole.ultrasonic
       && rest.lidar == whole.lidar
  }

  /** A record with a scan in the window: both are removed.  `list.remove`
      takes out exactly these entries: the record is not among the records
      kept (those have no scan in the window), and no earlier scan equals
      the nearest one (an equal scan would have an equal gap, but the
      nearest scan is the first of least gap). */
  lemma StepMatched(snapshot: seq<UltrasonicEntry>, whole: Pass, i: nat, kept: seq<UltrasonicEntry>,
                    pairs: seq<(UltrasonicEntry, LidarEntry)>, usRest: seq<UltrasonicEntry>,
                    lidarRest: seq<LidarEntry>, window: int, b: nat)
    requires PassState(snapshot, whole, i, kept, pairs, usRest, lidarRest, window) && i < |snapshot|
    requires Nearest(snapshot[i].timestamp, lidarRest, window) == Some(b)
    ensures snapshot[i] in usRest && RemoveFirst(usRest, snapshot[i]) == kept + snapshot[i + 1..]
    ensures lidarRest[b] in lidarRest && RemoveFirst(lidarRest, lidarRest[b]) == RemoveAt(lidarRest, b)
    ensures PassState(snapshot, whole, i + 1, kept, pairs + [(snapshot[i], lidarRest[b])],
                      kept + snapshot[i + 1..], RemoveAt(lidarRest, b), window)
  {
    var us := snapshot[i];
    assert snapshot[i..][0] == us && snapshot[i..][1..] == snapshot[i + 1..];
    assert usRest == kept + [us] + snapshot[i + 1..];
    assert usRest[|kept|] == us && usRest[..|kept|] == kept;
    forall u | u in kept ensures u != us {
      assert lidarRest[b] in lidarRest;
    }
    RemoveFirstAt(usRest, |kept|);
    assert RemoveAt(usRest, |kept|) == kept + snapshot[i + 1..];
    RemoveNearest(us.timestamp, lidarRest, window, b);
  }

  /** `list.remove` of the nearest scan takes out that very scan. */
  lemma RemoveNearest(t: int, lidarRest: seq<LidarEntry>, window: int, b: nat)
    requires Nearest(t, lidarRest, window) == Some(b)
    ensures b < |lidarRest| && RemoveFirst(lidarRest, lidarRest[b]) == RemoveAt(lidarRest, b)
    ensures forall l :: l in RemoveAt(lidarRest, b) ==> l in lidarRest
  {
    forall j | 0 <= j < b ensures lidarRest[..b][j] != lidarRest[b] {
      assert lidarRest[..b][j] == lidarRest[j];
    }
    RemoveFirstAt(lidarRest, b);
    RemoveAtMultiset(lidarRest, b);
    forall l | l in RemoveAt(lidarRest, b) ensures l in lidarRest {
      assert l in multiset(RemoveAt(lidarRest, b));
    }
  }

  /** A record with no scan in the window stays, and joins the kept ones. */
  lemma StepUnmatched(snapshot: seq<UltrasonicEntry>, whole: Pass, i: nat, kept: seq<UltrasonicEntry>,
                      pairs: seq<(UltrasonicEntry, LidarEntry)>, usRest: seq<UltrasonicEntry>,
                      lidarRest: seq<LidarEntry>, window: int)
    requires PassState(snapshot, whole, i, kept, pairs, usRest, lidarRest, window) && i < |snapshot|
    requires Nearest(snapshot[i].timestamp, lidarRest, window).None?
    ensures PassState(snapshot, whole, i + 1, kept + [snapshot[i]], pairs, usRest, lidarRest, window)
  {
    assert snapshot[i..][0] == snapshot[i] && snapshot[i..][1..] == snapshot[i + 1..];
    assert usRest == (kept + [snapshot[i]]) + snapshot[i + 1..];
  }

  /** The matching pass over a snapshot of the ultrasonic buffer.  As in the
      source, matched entries are taken out of both live buffers with
      `list.remove`, which drops the first equal element; StepMatched shows
      that this is always the entry just matched. */
  method MatchPass(usBuffer: seq<UltrasonicEntry>, lidarBuffer: seq<LidarEntry>, window: int)
    returns (pairs: seq<(UltrasonicEntry, LidarEntry)>, usRest: seq<UltrasonicEntry>, lidarRest: seq<LidarEntry>)
    ensures Pass(pairs, usRest, lidarRest) == GreedyMatch(usBuffer, lidarBuffer, window)
  {
    var snapshot := usBuffer;
    ghost var whole := GreedyMatch(snapshot, lidarBuffer, window);
    pairs := [];
    usRest := usBuffer;
    lidarRest := lidarBuffer;
    ghost var kept: seq<UltrasonicEntry> := [];
    assert snapshot[0..] == snapshot;
    for i := 0 to |snapshot|
      invariant PassState(snapshot, whole, i, kept, pairs, usRest, lidarRest, window)
    {
      var us := snapshot[i];
      var best := FindBestMatch(us.timestamp, lidarRest, window);
      if best.Some? {
        var matched := lidarRest[best.value];
        StepMatched(snapshot, whole, i, kept, pairs, usRest, lidarRest, window, best.value);
        pairs := pairs + [(us, matched)];
        usRest := RemoveFirst(usRest, us);
        lidarRest := RemoveFirst(lidarRest, matched);
      } else {
        StepUnmatched(snapshot, whole, i, kept, pairs, usRest, lidarRest, window);
        kept := kept + [us];
      }
    }
    assert snapshot[|snapshot|..] == [];
  }

  // ---------------------------------------------------------------------
  // What the greedy join guarantees

  function Firsts(pairs: seq<(UltrasonicEntry, LidarEntry)>): seq<UltrasonicEntry> {
    if pairs == [] then [] else [pairs[0].0] + Firsts(pairs[1..])
  }

  function Seconds(pairs: seq<(UltrasonicEntry, LidarEntry)>): seq<LidarEntry> {
    if pairs == [] then [] else [pairs[0].1] + Seconds(pairs[1..])
  }

  /** Every pair lies strictly inside the window. */
  lemma {:induction false} GreedyPairsInWindow(us: seq<UltrasonicEntry>, lidar: seq<LidarEntry>, window: int)
    ensures forall k :: 0 <= k < |GreedyMatch(us, lidar, window).pairs| ==>
      Gap(GreedyMatch(us, lidar, window).pairs[k].0.timestamp, GreedyMatch(us, lidar, window).pairs[k].1.timestamp) < window
    decreases |us|
  {
    if us != [] {
      match Nearest(us[0].timestamp, lidar, window)
      case Some(b) => GreedyPairsInWindow(us[1..], RemoveAt(lidar, b), window);
      case None => GreedyPairsInWindow(us[1..], lidar, window);
    }
  }

  /** Each scan is used at most once: the scans paired and the scans left
      over are, together, exactly the scans buffered. */
  lemma {:induction false} GreedyUsesScansOnce(us: seq<UltrasonicEntry>, lidar: seq<LidarEntry>, window: int)
    ensures multiset(Seconds(GreedyMatch(us, lidar, window).pairs)) + multiset(GreedyMatch(us, lidar, window).lidar)
      == multiset(lidar)
    decreases |us|
  {
    if us != [] {
      match Nearest(us[0].timestamp, lidar, window)
      case Some(b) =>
        GreedyUsesScansOnce(us[1..], RemoveAt(lidar, b), window);
        RemoveAtMultiset(lidar, b);
      case None =>
        GreedyUsesScansOnce(us[1..], lidar, window);
    }
  }

  /** Which ultrasonic records the greedy join pairs, in buffer order. */
  ghost function PairedFlags(us: seq<UltrasonicEntry>, lidar: seq<LidarEntry>, window: int): seq<bool>
    decreases |us|
  {
    if us == [] then []
    else
      match Nearest(us[0].timestamp, lidar, window)
      case Some(b) => [true] + PairedFlags(us[1..], RemoveAt(lidar, b), window)
      case None => [false] + PairedFlags(us[1..], lidar, window)
  }

  /** `s` is `a` and `b` merged by `flags`: true takes the next element of
      `a`, false the next of `b`; so `a` and `b` each keep their order in `s`. */
  ghost predicate IsInterleaving<T>(s: seq<T>, flags: seq<bool>, a: seq<T>, b: seq<T>)
    decreases |s|
  {
    if s == [] then flags == [] && a == [] && b == []
    else
      && flags != []
      && if flags[0] then a != [] && a[0] == s[0] && IsInterleaving(s[1..], flags[1..], a[1..], b)
         else b != [] && b[0] == s[0] && IsInterleaving(s[1..], flags[1..], a, b[1..])
  }

  /** The ultrasonic buffer splits into the records paired (in pair order)
      and the records left over, both in their original order. */
  lemma {:induction false} GreedyKeepsUltrasonicOrder(us: seq<UltrasonicEntry>, lidar: seq<LidarEntry>, window: int)
    ensures IsInterleaving(us, PairedFlags(us, lidar, window), Firsts(GreedyMatch(us, lidar, window).pairs),
                           GreedyMatch(us, lidar, window).ultrasonic)
    decreases |us|
  {
    if us != [] {
      match Nearest(us[0].timestamp, lidar, window)
      case Some(b) =>
        GreedyKeepsUltrasonicOrder(us[1..], RemoveAt(lidar, b), window);
        var rest := GreedyMatch(us[1..], RemoveAt(lidar, b), window);
        assert ([(us[0], lidar[b])] + rest.pairs)[1..] == rest.pairs;
      case None =>
        GreedyKeepsUltrasonicOrder(us[1..], lidar, window);
        var rest := GreedyMatch(us[1..], lidar, window);
        assert ([us[0]] + rest.ultrasonic)[1..] == rest.ultrasonic;
    }
  }

  lemma GreedyLeftoverScans(us: seq<UltrasonicEntry>, lidar: seq<LidarEntry>, window: int)
    ensures forall l :: l in GreedyMatch(us, lidar, window).lidar ==> l in lidar
  {
    GreedyUsesScansOnce(us, lidar, window);
    var rest := GreedyMatch(us, lidar, window).lidar;
    forall l | l in rest ensures l in lidar {
      assert l in multiset(rest);
    }
  }

  /** The join is maximal: no record left in the ultrasonic buffer has a
      scan left in the LiDAR buffer inside the window. */
  lemma {:induction false} GreedyLeavesNoPair(us: seq<UltrasonicEntry>, lidar: seq<LidarEntry>, window: int)
    ensures Unpaired(GreedyMatch(us, lidar, window).ultrasonic, GreedyMatch(us, lidar, window).lidar, window)
    decreases |us|
  {
    if us != [] {
      match Nearest(us[0].timestamp, lidar, window)
      case Some(b) =>
        GreedyLeavesNoPair(us[1..], RemoveAt(lidar, b), window);
      case None =>
        GreedyLeavesNoPair(us[1..], lidar, window);
        GreedyLeftoverScans(us[1..], lidar, window);
        var rest := GreedyMatch(us[1..], lidar, window);
        forall u, l | u in [us[0]] + rest.ultrasonic && l in rest.lidar
          ensures Gap(u.timestamp, l.timestamp) >= window
        {
          if u == us[0] {
            var j :| 0 <= j < |lidar| && lidar[j] == l;
          }
        }
    }
  }
}
