/** The ultrasonic line format the synchronised collectors accept: "S",
    the Arduino's timestamp, the echo readings and the sensor id, joined
    by commas. */
module UltrasonicLines {
  import opened Wrappers
  import opened Text

  /** "S", the Arduino's timestamp, 240 readings and the sensor id. */
  const MinFields: nat := 243

  /** The line check of `collect_ultrasonic_data`. */
  predicate IsDataLine(line: string) {
    StartsWith(line, "S,") && |Split(line, ',')| >= MinFields
  }

  /** A line the Arduino writes as "S" and its fields, comma-separated, is
      split back into exactly those fields, and passes the check exactly
      when it carries at least 242 fields after the "S". */
  lemma DataLineFraming(fields: seq<string>)
    requires forall k :: 0 <= k < |fields| ==> ',' !in fields[k]
    ensures Split(Join(["S"] + fields, ','), ',') == ["S"] + fields
    ensures IsDataLine(Join(["S"] + fields, ',')) <==> |fields| >= MinFields - 1
  {
    DataLineSplit(fields);
    if |fields| > 0 {
      DataLineStart(fields);
    }
  }

  lemma DataLineSplit(fields: seq<string>)
    requires forall k :: 0 <= k < |fields| ==> ',' !in fields[k]
    ensures Split(Join(["S"] + fields, ','), ',') == ["S"] + fields
  {
    SplitJoinCons("S", fields, ',');
  }

  lemma DataLineStart(fields: seq<string>)
    requires |fields| > 0
    ensures StartsWith(Join(["S"] + fields, ','), "S,")
  {
    JoinCons("S", fields, ',');
    assert Join(["S"] + fields, ',')[..2] == "S,";
  }

  // ---------------------------------------------------------------------
  // Reading the fields of a line

  /** The exceptions `_save_training_sample` can raise: IndexError for a
      missing field, ValueError for a field `int` rejects, ZeroDivisionError
      for a sensor count of zero. */
  datatype SaveError = MissingField(index: nat) | NotAnInteger(index: nat) | ZeroSensorCount

  /** `int(parts[i])` for `count` fields from `from` on, in order; the first
      failure is the exception raised. */
  function ParseFields(parts: seq<string>, from: nat, count: nat): (r: Result<seq<int>, SaveError>)
    ensures r.Ok? ==> |r.value| == count
    decreases count
  {
    if count == 0 then Ok([])
    else if |parts| <= from then Err(MissingField(from))
    else match ParseInt(parts[from])
      case None => Err(NotAnInteger(from))
      case Some(v) =>
        match ParseFields(parts, from + 1, count - 1)
        case Err(e) => Err(e)
        case Ok(vs) => Ok([v] + vs)
  }

  /** Field i is present and `int` accepts it. */
  predicate FieldParses(parts: seq<string>, i: nat) {
    i < |parts| && ParseInt(parts[i]).Some?
  }

  predicate AllParse(parts: seq<string>, from: nat, count: nat) {
    forall i :: from <= i < from + count ==> FieldParses(parts, i)
  }

  lemma AllParseCons(parts: seq<string>, from: nat, count: nat)
    requires count > 0
    ensures AllParse(parts, from, count) <==> FieldParses(parts, from) && AllParse(parts, from + 1, count - 1)
  {
    if FieldParses(parts, from) && AllParse(parts, from + 1, count - 1) {
      forall i | from <= i < from + count ensures FieldParses(parts, i) {
        if i > from {
          assert from + 1 <= i < from + 1 + (count - 1);
        }
      }
    }
  }

  /** The fields parse exactly when each of them is present and an integer,
      and then they parse to the integers they spell, in order. */
  lemma {:induction false} ParseFieldsMeaning(parts: seq<string>, from: nat, count: nat)
    ensures var r := ParseFields(parts, from, count);
      && (r.Ok? <==> AllParse(parts, from, count))
      && (r.Ok? ==> forall k :: 0 <= k < count ==> FieldParses(parts, from + k) && r.value[k] == ParseInt(parts[from + k]).value)
    decreases count
  {
    if count > 0 {
      AllParseCons(parts, from, count);
      if FieldParses(parts, from) {
        ParseFieldsMeaning(parts, from + 1, count - 1);
        var rest := ParseFields(parts, from + 1, count - 1);
        if rest.Ok? {
          var r := ParseFields(parts, from, count);
          assert r == Ok([ParseInt(parts[from]).value] + rest.value);
          forall k | 0 <= k < count
            ensures FieldParses(parts, from + k) && r.value[k] == ParseInt(parts[from + k]).value
          {
            if k > 0 {
              assert r.value[k] == rest.value[k - 1];
              assert from + 1 + (k - 1) == from + k;
            }
          }
        }
      }
    }
  }

  /** On failure the error names the first field that does not parse: a
      missing field when the line ends before it, otherwise a field that is
      not an integer. */
  lemma {:induction false} ParseFieldsFirstError(parts: seq<string>, from: nat, count: nat, i: nat)
    requires from <= i < from + count
    requires AllParse(parts, from, i - from)
    requires !FieldParses(parts, i)
    ensures ParseFields(parts, from, count) == Err(if i < |parts| then NotAnInteger(i) else MissingField(i))
    decreases count
  {
    if i > from {
      AllParseCons(parts, from, i - from);
      ParseFieldsFirstError(parts, from + 1, count - 1, i);
    }
  }
}
