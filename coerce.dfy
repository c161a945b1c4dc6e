/** The loader's value coercions: the helpers `safe_date`, `safe_string` and
    `safe_numeric`, Python's `float()`, and the ad-hoc `!= 'NA'` tests written inline
    for `equity_metadata`. */
module Coerce {
  import opened Results
  import opened Json
  import Text

  /** The placeholders the `safe_*` helpers treat as missing: `['-', 'NA', None]`. */
  predicate IsSentinel(v: Value) {
    v == Str("-") || v == Str("NA") || v == Null
  }

  /** The decoration `safe_date` deletes from a date string. */
  const EndOfDay: string := " EOD"

  /** `safe_string`: None for a placeholder, the value itself otherwise. */
  function SafeString(v: Value): (r: Value)
    ensures r == Null <==> IsSentinel(v)
    ensures !IsSentinel(v) ==> r == v
  {
    if IsSentinel(v) then Null else v
  }

  /** `safe_date`: None for a placeholder; otherwise `value.replace(' EOD', '')`,
      which raises AttributeError unless the value is a string. */
  function SafeDate(v: Value): (r: Outcome<Value>)
    ensures r == Ok(Null) <==> IsSentinel(v)
    ensures !IsSentinel(v) ==> (r.Ok? <==> v.Str?)
    ensures r.Ok? && !IsSentinel(v) ==> r.value.Str? && |r.value.s| <= |v.s|
    ensures v.Str? && !IsSentinel(v) ==> r == Ok(Str(Text.RemoveAll(v.s, EndOfDay)))
  {
    if IsSentinel(v) then Ok(Null)
    else if v.Str? then Ok(Str(Text.RemoveAll(v.s, EndOfDay)))
    else Err(AttributeError)
  }

  /** Python's `float(v)`. A number is taken to be a float already, so it comes back
      as it is (ints and floats are one kind of value here); booleans give 1.0 or 0.0; a
      string is handed to `parse`, which stands for Python's float literal reader and
      fails on malformed text (ValueError); None, lists and dicts raise TypeError. */
  function Float(v: Value, parse: string -> Option<real>): (r: Outcome<real>)
    ensures r.Ok? <==> v.Number? || v.Bool? || (v.Str? && parse(v.s).Some?)
    ensures v.Number? ==> r == Ok(v.n)
    ensures v.Str? && parse(v.s).Some? ==> r == Ok(parse(v.s).value)
  {
    match v
    case Number(n) => Ok(n)
    case Bool(b) => Ok(if b then 1.0 else 0.0)
    case Str(s) => if parse(s).Some? then Ok(parse(s).value) else Err(ValueError)
    case Null => Err(TypeError)
    case Array(_) => Err(TypeError)
    case Object(_) => Err(TypeError)
  }

  /** `safe_numeric`: None for a placeholder, `float(value)` otherwise. */
  function SafeNumeric(v: Value, parse: string -> Option<real>): (r: Outcome<Value>)
    ensures r == Ok(Null) <==> IsSentinel(v)
    ensures !IsSentinel(v) ==> (r.Ok? <==> Float(v, parse).Ok?)
    ensures !IsSentinel(v) && r.Ok? ==> r.value == Number(Float(v, parse).value)
  {
    if IsSentinel(v) then Ok(Null)
    else
      var x :- Float(v, parse);
      Ok(Number(x))
  }

  /** `v if v != 'NA' else None`, the test written inline for `listingDate`,
      `lastUpdateTime` and `pdSectorInd`. */
  function NaToNull(v: Value): (r: Value)
    ensures r == Null <==> v == Str("NA") || v == Null
    ensures v != Str("NA") ==> r == v
  {
    if v != Str("NA") then v else Null
  }

  /** `float(v) if v != 'NA' else None`, the test written inline for `pdSectorPe` and
      `pdSymbolPe`. */
  function NaOrFloat(v: Value, parse: string -> Option<real>): (r: Outcome<Value>)
    ensures r == Ok(Null) <==> v == Str("NA")
    ensures v != Str("NA") ==> (r.Ok? <==> Float(v, parse).Ok?)
    ensures v != Str("NA") && r.Ok? ==> r.value == Number(Float(v, parse).value)
  {
    if v != Str("NA") then
      var x :- Float(v, parse);
      Ok(Number(x))
    else Ok(Null)
  }

  /** The inline test agrees with `safe_string` except on '-', which it lets through. */
  lemma NaToNullVersusSafeString(v: Value)
    ensures NaToNull(v) == SafeString(v) <==> v != Str("-")
  {
  }

  /** The inline numeric test disagrees with `safe_numeric` exactly on '-' and None:
      there `safe_numeric` gives None while `float` is applied and, for None, raises. */
  lemma NaOrFloatVersusSafeNumeric(v: Value, parse: string -> Option<real>)
    ensures NaOrFloat(v, parse) == SafeNumeric(v, parse) <==> v != Str("-") && v != Null
    ensures v == Null ==> NaOrFloat(v, parse) == Err(TypeError)
  {
  }

  /** A date without the decoration passes through `safe_date` unchanged. */
  lemma SafeDatePlain(d: string)
    requires !Text.Contains(d, EndOfDay)
    requires d != "-" && d != "NA"
    ensures SafeDate(Str(d)) == Ok(Str(d))
  {
    Text.RemoveAllAbsent(d, EndOfDay);
  }

  /** The delivery-position date as the feed writes it. */
  lemma SafeDateExample()
    ensures SafeDate(Str("15-MAR-2023 EOD")) == Ok(Str("15-MAR-2023"))
    ensures SafeDate(Str("NA")) == Ok(Null)
  {
    var d := "15-MAR-2023";
    assert d + EndOfDay == "15-MAR-2023 EOD";
    assert ' ' !in d;
    Text.RemoveAllTrailing(d, EndOfDay);
  }

  /** Every `' EOD'` goes, however many follow one another. */
  lemma SafeDateRepeated(d: string)
    requires ' ' !in d
    ensures SafeDate(Str(d + EndOfDay + EndOfDay)) == Ok(Str(d))
  {
    Text.NoOccurrenceIn(d, EndOfDay, EndOfDay);
    Text.RemoveAllLeftmost(d, EndOfDay, EndOfDay);
    Text.RemoveAllLeftmost([], EndOfDay, []);
    assert [] + EndOfDay + [] == EndOfDay && d + [] == d;
  }

  /** An `' EOD'` inside the string goes too, and the two sides are joined. */
  lemma SafeDateInside(d: string, e: string)
    requires ' ' !in d && !Text.Contains(e, EndOfDay)
    ensures SafeDate(Str(d + EndOfDay + e)) == Ok(Str(d + e))
  {
    Text.NoOccurrenceIn(d, EndOfDay, e);
    Text.RemoveAllLeftmost(d, EndOfDay, e);
    Text.RemoveAllAbsent(e, EndOfDay);
  }

  /** What a deletion joins together is not scanned again: `' E EODOD'` keeps an
      `' EOD'`. */
  lemma SafeDateSinglePass()
    ensures SafeDate(Str(" E EODOD")) == Ok(Str(" EOD"))
  {
    var d, e := " E", "OD";
    var s := d + EndOfDay + e;
    assert s == " E EODOD";
    assert !Text.OccursAt(s, EndOfDay, 0) by { assert s[0..4][2] == s[2] == ' ' != EndOfDay[2]; }
    assert !Text.OccursAt(s, EndOfDay, 1) by { assert s[1..5][0] == s[1] == 'E' != EndOfDay[0]; }
    Text.RemoveAllLeftmost(d, EndOfDay, e);
    assert d + e == " EOD";
  }
}
