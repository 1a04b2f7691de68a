/** Python list idioms shared by the collectors and the analyzers: a list
    comprehension with a condition (`[f(x) for x in s if keep(x)]`),
    `min(s, key=...)`, `list.remove(x)` and a bounded `deque.append`. */
module Sequences {
  import opened Wrappers

  // ---------------------------------------------------------------------
  // [f(x) for x in s if keep(x)]

  /** The comprehension, built as the source's loops build it: one element
      at a time, appending on the right. */
  function Select<T, U>(s: seq<T>, keep: T -> bool, f: T -> U): (r: seq<U>)
    ensures |r| <= |s|
  {
    if s == [] then []
    else Select(s[..|s| - 1], keep, f) + if keep(s[|s| - 1]) then [f(s[|s| - 1])] else []
  }

  /** The positions of `s` that the comprehension keeps. */
  function Chosen<T>(s: seq<T>, keep: T -> bool): (idx: seq<nat>)
    ensures forall k :: 0 <= k < |idx| ==> idx[k] < |s| && keep(s[idx[k]])
    ensures forall k :: 0 < k < |idx| ==> idx[k - 1] < idx[k]
  {
    if s == [] then []
    else Chosen(s[..|s| - 1], keep) + if keep(s[|s| - 1]) then [|s| - 1] else []
  }

  lemma SelectSnoc<T, U>(s: seq<T>, x: T, keep: T -> bool, f: T -> U)
    ensures Select(s + [x], keep, f) == Select(s, keep, f) + if keep(x) then [f(x)] else []
  {
    assert (s + [x])[..|s|] == s;
  }

  /** The comprehension keeps, in order, exactly the elements satisfying
      `keep`: the i-th output is `f` of the i-th chosen position (the chosen
      positions increase, by Chosen's contract). */
  lemma {:induction false} SelectIsFilter<T, U>(s: seq<T>, keep: T -> bool, f: T -> U)
    ensures |Select(s, keep, f)| == |Chosen(s, keep)|
    ensures forall k :: 0 <= k < |Chosen(s, keep)| ==> Select(s, keep, f)[k] == f(s[Chosen(s, keep)[k]])
  {
    if s != [] {
      var init := s[..|s| - 1];
      var x := s[|s| - 1];
      SelectIsFilter(init, keep, f);
      var r0, idx0 := Select(init, keep, f), Chosen(init, keep);
      var r, idx := Select(s, keep, f), Chosen(s, keep);
      assert r == r0 + (if keep(x) then [f(x)] else []);
      assert idx == idx0 + (if keep(x) then [|s| - 1] else []);
      forall k | 0 <= k < |idx0| ensures r[k] == f(s[idx[k]]) {
        assert r[k] == r0[k] && idx[k] == idx0[k] && init[idx0[k]] == s[idx0[k]];
      }
    }
  }

  /** Each output of the comprehension comes from a kept element. */
  lemma SelectedFrom<T, U>(s: seq<T>, keep: T -> bool, f: T -> U, k: nat) returns (j: nat)
    requires k < |Select(s, keep, f)|
    ensures j < |s| && keep(s[j]) && Select(s, keep, f)[k] == f(s[j])
  {
    SelectIsFilter(s, keep, f);
    j := Chosen(s, keep)[k];
  }

  /** Every position satisfying `keep` is chosen. */
  lemma {:induction false} ChosenComplete<T>(s: seq<T>, keep: T -> bool)
    ensures forall j :: 0 <= j < |s| && keep(s[j]) ==> j in Chosen(s, keep)
  {
    if s != [] {
      var init := s[..|s| - 1];
      ChosenComplete(init, keep);
      var idx0 := Chosen(init, keep);
      var idx := Chosen(s, keep);
      assert idx == idx0 + (if keep(s[|s| - 1]) then [|s| - 1] else []);
      forall j | 0 <= j < |s| && keep(s[j]) ensures j in idx {
        if j < |init| {
          assert init[j] == s[j];
          assert j in idx0;
        } else {
          assert idx[|idx| - 1] == j;
        }
      }
    }
  }

  /** The chosen positions increase throughout, not only from one to the
      next. */
  lemma ChosenIncreasing<T>(s: seq<T>, keep: T -> bool)
    ensures forall k, l :: 0 <= k < l < |Chosen(s, keep)| ==> Chosen(s, keep)[k] < Chosen(s, keep)[l]
  {
    var idx := Chosen(s, keep);
    forall k, l | 0 <= k < l < |idx|
      ensures idx[k] < idx[l]
    {
      StepsIncrease(idx, k, l);
    }
  }

  lemma {:induction false} StepsIncrease(idx: seq<nat>, k: nat, l: nat)
    requires forall j :: 0 < j < |idx| ==> idx[j - 1] < idx[j]
    requires k < l < |idx|
    ensures idx[k] < idx[l]
    decreases l - k
  {
    if k + 1 < l {
      StepsIncrease(idx, k, l - 1);
    }
  }

  /** Membership in the comprehension's result. */
  lemma SelectMembership<T, U>(s: seq<T>, keep: T -> bool, f: T -> U, y: U)
    ensures y in Select(s, keep, f) <==> exists j :: 0 <= j < |s| && keep(s[j]) && f(s[j]) == y
  {
    SelectIsFilter(s, keep, f);
    ChosenComplete(s, keep);
    var r := Select(s, keep, f);
    var idx := Chosen(s, keep);
    if y in r {
      var k :| 0 <= k < |r| && r[k] == y;
      assert keep(s[idx[k]]) && f(s[idx[k]]) == y;
    }
    if exists j :: 0 <= j < |s| && keep(s[j]) && f(s[j]) == y {
      var j :| 0 <= j < |s| && keep(s[j]) && f(s[j]) == y;
      var k :| 0 <= k < |idx| && idx[k] == j;
      assert r[k] == y;
    }
  }

  /** The comprehension over a concatenation is the concatenation of the
      comprehensions. */
  lemma {:induction false} SelectConcat<T, U>(a: seq<T>, b: seq<T>, keep: T -> bool, f: T -> U)
    ensures Select(a + b, keep, f) == Select(a, keep, f) + Select(b, keep, f)
    decreases |b|
  {
    if b == [] {
      assert a + b == a;
    } else {
      var init := b[..|b| - 1];
      var x := b[|b| - 1];
      SelectConcat(a, init, keep, f);
      assert a + b == (a + init) + [x];
      assert b == init + [x];
      SelectSnoc(a + init, x, keep, f);
      SelectSnoc(init, x, keep, f);
    }
  }

  /** The concatenation of `f` over the elements, in order. */
  function FlatMap<T, U>(s: seq<T>, f: T -> seq<U>): seq<U> {
    if s == [] then [] else FlatMap(s[..|s| - 1], f) + f(s[|s| - 1])
  }

  lemma FlatMapSnoc<T, U>(s: seq<T>, x: T, f: T -> seq<U>)
    ensures FlatMap(s + [x], f) == FlatMap(s, f) + f(x)
  {
    assert (s + [x])[..|s|] == s;
  }

  lemma {:induction false} FlatMapConcat<T, U>(a: seq<T>, b: seq<T>, f: T -> seq<U>)
    ensures FlatMap(a + b, f) == FlatMap(a, f) + FlatMap(b, f)
    decreases |b|
  {
    if b == [] {
      assert a + b == a;
    } else {
      var init, x := b[..|b| - 1], b[|b| - 1];
      FlatMapConcat(a, init, f);
      assert a + b == (a + init) + [x];
      assert b == init + [x];
      FlatMapSnoc(a + init, x, f);
      FlatMapSnoc(init, x, f);
    }
  }

  // ---------------------------------------------------------------------
  // min(s, key=...)

  /** Where `min(s, key=key)` finds its result: a position of least key,
      and the first such position, since `min` only replaces its candidate
      on a strictly smaller key. */
  function FirstMinIndex<T>(s: seq<T>, key: T -> int): (i: nat)
    requires |s| > 0
    ensures i < |s|
    ensures forall j :: 0 <= j < |s| ==> key(s[i]) <= key(s[j])
    ensures forall j :: 0 <= j < i ==> key(s[i]) < key(s[j])
  {
    if |s| == 1 then 0
    else
      var i := FirstMinIndex(s[..|s| - 1], key);
      if key(s[|s| - 1]) < key(s[i]) then |s| - 1 else i
  }

  /** `min(s, key=key) if s else None` */
  function MinBy<T>(s: seq<T>, key: T -> int): (r: Option<T>)
    ensures r.None? <==> s == []
    ensures r.Some? ==> r.value in s && forall j :: 0 <= j < |s| ==> key(r.value) <= key(s[j])
    ensures r.Some? ==> exists i :: 0 <= i < |s| && s[i] == r.value && forall j :: 0 <= j < i ==> key(r.value) < key(s[j])
  {
    if s == [] then None else Some(s[FirstMinIndex(s, key)])
  }

  /** `np.argmax(s)`: the first position of the largest value. */
  function FirstMaxIndex(s: seq<int>): (i: nat)
    requires |s| > 0
    ensures i < |s|
    ensures forall j :: 0 <= j < |s| ==> s[j] <= s[i]
    ensures forall j :: 0 <= j < i ==> s[j] < s[i]
  {
    FirstMinIndex(s, x => -x)
  }

  // ---------------------------------------------------------------------
  // list.remove(x) and deque(maxlen=...).append(x)

  function RemoveAt<T>(s: seq<T>, i: nat): seq<T>
    requires i < |s|
  {
    s[..i] + s[i + 1..]
  }

  /** `s.remove(x)`: drop the first element equal to x. */
  function RemoveFirst<T(==)>(s: seq<T>, x: T): (r: seq<T>)
    requires x in s
    ensures |r| == |s| - 1
  {
    if s[0] == x then s[1..] else [s[0]] + RemoveFirst(s[1..], x)
  }

  /** Removing the first occurrence is removing that position. */
  lemma {:induction false} RemoveFirstAt<T>(s: seq<T>, i: nat)
    requires i < |s| && s[i] !in s[..i]
    ensures RemoveFirst(s, s[i]) == RemoveAt(s, i)
  {
    if i > 0 {
      assert s[1..][i - 1] == s[i];
      assert s[i] !in s[1..][..i - 1] by { assert s[1..][..i - 1] == s[1..i]; }
      RemoveFirstAt(s[1..], i - 1);
      assert s[..i] == [s[0]] + s[1..][..i - 1];
      assert s[i + 1..] == s[1..][i..];
    }
  }

  lemma RemoveAtMultiset<T>(s: seq<T>, i: nat)
    requires i < |s|
    ensures multiset(RemoveAt(s, i)) + multiset{s[i]} == multiset(s)
  {
    assert s == s[..i] + [s[i]] + s[i + 1..];
  }

  /** `deque(maxlen=maxlen).append(x)`: once the deque is full the oldest
      element is discarded, so the deque holds the newest `maxlen` elements
      of the appended sequence, the one just appended last. */
  function BoundedAppend<T>(buf: seq<T>, x: T, maxlen: nat): (r: seq<T>)
    requires |buf| <= maxlen
    ensures |r| == if |buf| < maxlen then |buf| + 1 else maxlen
    ensures r == (buf + [x])[|buf| + 1 - |r|..]
    ensures maxlen > 0 ==> r[|r| - 1] == x
  {
    if |buf| < maxlen then buf + [x] else (buf + [x])[|buf| + 1 - maxlen..]
  }
}
