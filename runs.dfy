/** Maximal runs of set bits in a boolean mask, the pattern both analyzers'
    detection loops follow: a run opens at a set bit after an unset one,
    and is reported only when an unset bit closes it. */
module Runs {
  import opened Wrappers

  /** The positions [start, end) of a run; `end` is the position of the
      unset bit that closed it. */
  datatype Run = Run(start: nat, end: nat)

  predicate AllSet(mask: seq<bool>, s: nat, e: nat)
    requires s <= e <= |mask|
  {
    forall k :: s <= k < e ==> mask[k]
  }

  /** A maximal, non-empty run of set bits [s, e), closed by the unset bit
      at e. */
  predicate ClosedRun(mask: seq<bool>, s: nat, e: nat) {
    s < e < |mask| && AllSet(mask, s, e) && !mask[e] && (s == 0 || !mask[s - 1])
  }

  /** A maximal run of set bits from s to the end of the mask. */
  predicate OpenRun(mask: seq<bool>, s: nat) {
    s < |mask| && AllSet(mask, s, |mask|) && (s == 0 || !mask[s - 1])
  }

  /** The scan both loops perform, bit by bit: the runs closed so far, in
      order, and the start of the run still open. */
  function Scan(mask: seq<bool>): (seq<Run>, Option<nat>) {
    if mask == [] then ([], None)
    else
      var m := mask[..|mask| - 1];
      var (runs, open) := Scan(m);
      if mask[|mask| - 1] then (runs, if open.Some? then open else Some(|m|))
      else if open.Some? then (runs + [Run(open.value, |m|)], None)
      else (runs, None)
  }

  /** Every run the scan reports is a closed maximal run, and the open
      run it tracks is the maximal run at the end of the mask. */
  lemma {:induction false} ScanSound(mask: seq<bool>)
    ensures var r := Scan(mask);
      && (forall k :: 0 <= k < |r.0| ==> ClosedRun(mask, r.0[k].start, r.0[k].end))
      && (r.1.Some? ==> OpenRun(mask, r.1.value))
      && (r.1.None? ==> mask == [] || !mask[|mask| - 1])
  {
    if mask != [] {
      var m := mask[..|mask| - 1];
      ScanSound(m);
      var (runs, open) := Scan(m);
      assert forall k :: 0 <= k < |m| ==> mask[k] == m[k];
      if !mask[|mask| - 1] && open.Some? {
        var runs' := runs + [Run(open.value, |m|)];
        assert Scan(mask).0 == runs';
        assert forall k :: 0 <= k < |runs| ==> runs'[k] == runs[k];
      }
    }
  }

  /** One step of the scan. */
  lemma ScanSnoc(mask: seq<bool>, b: bool)
    ensures var (runs, open) := Scan(mask);
      Scan(mask + [b]) ==
        if b then (runs, if open.Some? then open else Some(|mask|))
        else if open.Some? then (runs + [Run(open.value, |mask|)], None)
        else (runs, None)
  {
    assert (mask + [b])[..|mask|] == mask;
  }

  /** An unset bit closes the open run. */
  lemma ScanClose(mask: seq<bool>, i: nat, start: nat)
    requires i < |mask| && !mask[i] && Scan(mask[..i]).1 == Some(start)
    ensures start < i
    ensures Scan(mask[..i + 1]) == (Scan(mask[..i]).0 + [Run(start, i)], None)
  {
    ScanSound(mask[..i]);
    ScanSnoc(mask[..i], mask[i]);
    assert mask[..i + 1] == mask[..i] + [mask[i]];
  }

  /** A bit that closes nothing leaves the closed runs as they were. */
  lemma ScanExtend(mask: seq<bool>, i: nat)
    requires i < |mask| && (mask[i] || Scan(mask[..i]).1.None?)
    ensures var (runs, open) := Scan(mask[..i]);
      Scan(mask[..i + 1]) == (runs, if mask[i] && open.None? then Some(i) else open)
  {
    ScanSnoc(mask[..i], mask[i]);
    assert mask[..i + 1] == mask[..i] + [mask[i]];
  }

  /** A run closed at e started at the one possible position. */
  lemma ClosedRunUnique(mask: seq<bool>, s: nat, s': nat, e: nat)
    requires ClosedRun(mask, s, e) && ClosedRun(mask, s', e)
    ensures s == s'
  {
  }

  /** The run open at the end started at the one possible position. */
  lemma OpenRunUnique(mask: seq<bool>, s: nat, s': nat)
    requires OpenRun(mask, s) && OpenRun(mask, s')
    ensures s == s'
  {
  }

  /** The scan reports the open run exactly when there is one. */
  lemma ScanOpen(mask: seq<bool>, s: nat)
    ensures Scan(mask).1 == Some(s) <==> OpenRun(mask, s)
  {
    ScanSound(mask);
    if OpenRun(mask, s) {
      assert mask[|mask| - 1];
      OpenRunUnique(mask, s, Scan(mask).1.value);
    }
  }

  /** Every closed run is reported: together with Scan's contract, the
      reported runs are exactly the closed maximal runs. */
  lemma {:induction false} ScanComplete(mask: seq<bool>, s: nat, e: nat)
    requires ClosedRun(mask, s, e)
    ensures Run(s, e) in Scan(mask).0
  {
    var m := mask[..|mask| - 1];
    assert forall k :: 0 <= k < |m| ==> mask[k] == m[k];
    var (runs, open) := Scan(m);
    ScanSound(m);
    if e < |m| {
      assert ClosedRun(m, s, e);
      ScanComplete(m, s, e);
      assert Scan(mask).0[..|runs|] == runs;
    } else {
      assert OpenRun(m, s);
      ScanOpen(m, s);
      assert Scan(mask).0 == runs + [Run(s, e)];
    }
  }

  /** The reported runs are in increasing position order, separated by at
      least their closing bit, and all lie before the open run. */
  lemma {:induction false} ScanOrdered(mask: seq<bool>)
    ensures Ordered(Scan(mask).0, Scan(mask).1)
  {
    if mask != [] {
      var m := mask[..|mask| - 1];
      ScanOrdered(m);
      ScanSound(m);
      var (runs, open) := Scan(m);
      assert forall k :: 0 <= k < |runs| ==> runs[k].end < |m|;
      if mask[|mask| - 1] {
        assert Scan(mask) == (runs, if open.Some? then open else Some(|m|));
      } else if open.Some? {
        var runs' := runs + [Run(open.value, |m|)];
        assert Scan(mask) == (runs', None);
        assert forall k :: 0 <= k < |runs| ==> runs'[k] == runs[k];
      } else {
        assert Scan(mask) == (runs, None);
      }
    }
  }

  /** Runs in increasing order, each closed before the next (and before
      the open run, if any) starts. */
  predicate Ordered(runs: seq<Run>, open: Option<nat>) {
    && (forall k, l :: 0 <= k < l < |runs| ==> runs[k].end < runs[l].start)
    && (forall k :: 0 <= k < |runs| && open.Some? ==> runs[k].end < open.value)
  }

  /** The runs that are long enough to report. */
  function LongEnough(minWidth: int): Run -> bool {
    (r: Run) => r.end - r.start >= minWidth
  }
}
