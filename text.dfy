/** The handful of Python string and sequence built-ins the collectors and
    analyzers rely on: `str.startswith`, the `in` substring test,
    `str.split(sep)`, `int(...)`, `str(n)` and slicing with Python's clamping
    and negative-index rules. */
module Text {
  import opened Wrappers

  /** `s.startswith(prefix)` */
  predicate StartsWith(s: string, prefix: string) {
    |prefix| <= |s| && s[..|prefix|] == prefix
  }

  predicate OccursAt(s: string, sub: string, i: nat) {
    i + |sub| <= |s| && s[i..i + |sub|] == sub
  }

  /** `sub in s` for strings */
  predicate Contains(s: string, sub: string) {
    exists i: nat | i <= |s| - |sub| :: OccursAt(s, sub, i)
  }

  lemma ContainsPrefix(prefix: string, rest: string)
    ensures Contains(prefix + rest, prefix)
  {
    assert OccursAt(prefix + rest, prefix, 0);
  }

  lemma ContainsShorter(s: string, sub: string)
    requires |s| < |sub|
    ensures !Contains(s, sub)
  {
  }

  // ---------------------------------------------------------------------
  // str.split(sep) with a one-character separator

  /** Position of the first `c` in `s`. */
  function IndexOf(s: string, c: char): (i: nat)
    requires c in s
    ensures i < |s| && s[i] == c && c !in s[..i]
  {
    if s[0] == c then 0 else 1 + IndexOf(s[1..], c)
  }

  /** `s.split(sep)`: the pieces between separators, always at least one. */
  function Split(s: string, sep: char): (parts: seq<string>)
    ensures |parts| >= 1
    ensures forall k :: 0 <= k < |parts| ==> sep !in parts[k]
    decreases |s|
  {
    if sep !in s then [s]
    else
      var i := IndexOf(s, sep);
      [s[..i]] + Split(s[i + 1..], sep)
  }

  /** `sep.join(parts)`, the inverse of Split. */
  function Join(parts: seq<string>, sep: char): string
    requires |parts| >= 1
  {
    if |parts| == 1 then parts[0] else parts[0] + [sep] + Join(parts[1..], sep)
  }

  /** Joining the pieces of a split gives back the original line. */
  lemma {:induction false} JoinSplit(s: string, sep: char)
    ensures Join(Split(s, sep), sep) == s
    decreases |s|
  {
    if sep in s {
      var i := IndexOf(s, sep);
      var rest := s[i + 1..];
      JoinSplit(rest, sep);
      JoinCons(s[..i], Split(rest, sep), sep);
      assert s == s[..i] + [sep] + rest;
    }
  }

  /** Join of a piece followed by further pieces. */
  lemma JoinCons(first: string, rest: seq<string>, sep: char)
    requires |rest| >= 1
    ensures Join([first] + rest, sep) == first + [sep] + Join(rest, sep)
  {
    assert ([first] + rest)[1..] == rest;
  }

  lemma {:induction false} IndexOfAfter(a: string, c: char, b: string)
    requires c !in a
    ensures IndexOf(a + [c] + b, c) == |a|
  {
    if a != [] {
      assert (a + [c] + b)[1..] == a[1..] + [c] + b;
      IndexOfAfter(a[1..], c, b);
    }
  }

  /** Splitting a join of separator-free pieces gives back the pieces. */
  lemma {:induction false} SplitJoin(parts: seq<string>, sep: char)
    requires |parts| >= 1
    requires forall k :: 0 <= k < |parts| ==> sep !in parts[k]
    ensures Split(Join(parts, sep), sep) == parts
  {
    if |parts| > 1 {
      var first, rest := parts[0], parts[1..];
      var tail := Join(rest, sep);
      assert parts == [first] + rest;
      JoinCons(first, rest, sep);
      var s := first + [sep] + tail;
      IndexOfAfter(first, sep, tail);
      assert s[|first|] == sep;
      assert s[..|first|] == first;
      assert s[|first| + 1..] == tail;
      SplitJoin(rest, sep);
    }
  }

  /** Splitting a join of a leading piece and further separator-free
      pieces gives back the pieces. */
  lemma SplitJoinCons(first: string, rest: seq<string>, sep: char)
    requires sep !in first
    requires forall k :: 0 <= k < |rest| ==> sep !in rest[k]
    ensures Split(Join([first] + rest, sep), sep) == [first] + rest
  {
    var parts := [first] + rest;
    assert forall k :: 1 <= k < |parts| ==> parts[k] == rest[k - 1];
    SplitJoin(parts, sep);
  }

  /** A line split on `sep` has one more field than it has separators. */
  lemma {:induction false} SplitCount(s: string, sep: char)
    ensures |Split(s, sep)| == multiset(s)[sep] + 1
    decreases |s|
  {
    if sep in s {
      var i := IndexOf(s, sep);
      SplitCount(s[i + 1..], sep);
      assert s == s[..i] + [sep] + s[i + 1..];
      assert multiset(s) == multiset(s[..i]) + multiset([sep]) + multiset(s[i + 1..]);
      assert multiset(s[..i])[sep] == 0;
    } else {
      assert multiset(s)[sep] == 0;
    }
  }

  // ---------------------------------------------------------------------
  // int(text) and str(n)

  predicate IsDigit(c: char) {
    '0' <= c <= '9'
  }

  predicate AllDigits(s: string) {
    forall k :: 0 <= k < |s| ==> IsDigit(s[k])
  }

  /** The value of a string of decimal digits, most significant first. */
  function DigitsValue(s: string): nat
    requires AllDigits(s)
  {
    if s == [] then 0 else 10 * DigitsValue(s[..|s| - 1]) + (s[|s| - 1] - '0') as nat
  }

  /** `int(s)` for an optionally signed run of decimal digits; `None` where
      Python raises ValueError. */
  function ParseInt(s: string): Option<int> {
    if |s| >= 2 && (s[0] == '-' || s[0] == '+') && AllDigits(s[1..]) then
      Some(if s[0] == '-' then 0 - DigitsValue(s[1..]) else DigitsValue(s[1..]))
    else if |s| >= 1 && AllDigits(s) then
      Some(DigitsValue(s))
    else
      None
  }

  function DigitChar(d: nat): (c: char)
    requires d < 10
    ensures IsDigit(c) && (c - '0') as nat == d
  {
    "0123456789"[d]
  }

  /** `str(n)` for a natural number. */
  function NatToString(n: nat): (s: string)
    ensures |s| >= 1 && AllDigits(s)
  {
    if n < 10 then [DigitChar(n)] else NatToString(n / 10) + [DigitChar(n % 10)]
  }

  /** `str(n)` for any integer. */
  function IntToString(n: int): string {
    if n < 0 then "-" + NatToString(-n) else NatToString(n)
  }

  lemma {:induction false} DigitsValueOfNat(n: nat)
    ensures DigitsValue(NatToString(n)) == n
  {
    if n >= 10 {
      DigitsValueOfNat(n / 10);
      var s := NatToString(n);
      assert s[..|s| - 1] == NatToString(n / 10);
    }
  }

  /** `int` of an unsigned digit string. */
  lemma ParseIntDigits(s: string)
    requires |s| >= 1 && AllDigits(s)
    ensures ParseInt(s) == Some(DigitsValue(s))
  {
    assert IsDigit(s[0]);
  }

  /** `int` of a minus sign followed by digits. */
  lemma ParseIntNegative(d: string)
    requires |d| >= 1 && AllDigits(d)
    ensures ParseInt("-" + d) == Some(0 - DigitsValue(d))
  {
    assert ("-" + d)[1..] == d;
  }

  /** `int(str(n)) == n`. */
  lemma ParseIntToString(n: int)
    ensures ParseInt(IntToString(n)) == Some(n)
  {
    if n < 0 {
      var m: nat := -n;
      var d := NatToString(m);
      assert IntToString(n) == "-" + d;
      DigitsValueOfNat(m);
      ParseIntNegative(d);
    } else {
      var d := NatToString(n);
      assert IntToString(n) == d;
      DigitsValueOfNat(n);
      ParseIntDigits(d);
    }
  }

  // ---------------------------------------------------------------------
  // s[start:end]

  /** How Python turns a slice bound into a position in a sequence of
      length n: negative bounds count from the end, then both are clamped. */
  function ClampIndex(i: int, n: nat): (r: nat)
    ensures r <= n
    ensures 0 <= i <= n ==> r == i
    ensures i > n ==> r == n
    ensures i < 0 && 0 <= n + i ==> r == n + i
    ensures n + i < 0 ==> r == 0
  {
    if i < 0 then (if i + n < 0 then 0 else i + n) else if i > n then n else i
  }

  /** `s[start:end]`: never fails, empty when the bounds cross. */
  function PySlice<T>(s: seq<T>, start: int, end: int): (r: seq<T>)
    ensures |r| <= |s|
    ensures |r| == if ClampIndex(start, |s|) < ClampIndex(end, |s|) then ClampIndex(end, |s|) - ClampIndex(start, |s|) else 0
    ensures forall k :: 0 <= k < |r| ==> ClampIndex(start, |s|) + k < |s| && r[k] == s[ClampIndex(start, |s|) + k]
  {
    var a := ClampIndex(start, |s|);
    var b := ClampIndex(end, |s|);
    if a < b then s[a..b] else []
  }

  /** With non-negative bounds a slice is the overlap of [start, end) with
      the sequence: its length is min(end - start, max(0, |s| - start)). */
  lemma NonNegativeSlice<T>(s: seq<T>, start: nat, end: nat)
    requires start <= end
    ensures |PySlice(s, start, end)| == if start >= |s| then 0 else if end <= |s| then end - start else |s| - start
  {
  }
}
