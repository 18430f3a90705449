/** The client's small value helpers: safeText and safeDetail, which turn a
    response body into a message, and clampInt, which turns a form field
    into a bounded integer. */
module Helpers {
  import opened Wrappers
  import opened Text
  import opened JsValue

  /** safeText(x). `stringify` stands for JSON.stringify, which is left
      uninterpreted; it is consulted for arrays and objects only. */
  function SafeText(x: Json, stringify: Json -> string): (r: string)
    ensures IsNullish(x) ==> r == ""
    ensures x.Str? ==> r == x.s
    ensures x.Num? || x.Bool? ==> r == ToStr(x)
    ensures x.Arr? || x.Obj? ==> r == stringify(x)
  {
    if IsNullish(x) then ""
    else if x.Str? then x.s
    else if x.Num? || x.Bool? then ToStr(x)
    else stringify(x)
  }

  /** safeDetail(data): the `detail` of an error body, else its `message`,
      else the body itself. */
  function SafeDetail(data: Json, stringify: Json -> string): (r: string)
    ensures !Truthy(data) ==> r == ""
    ensures Truthy(data) && data.Str? ==> r == data.s
    ensures data.Obj? && "detail" in data.fields && data.fields["detail"] != Undefined ==>
              r == SafeText(data.fields["detail"], stringify)
    ensures data.Obj? && ("detail" !in data.fields || data.fields["detail"] == Undefined) &&
            "message" in data.fields && data.fields["message"] != Undefined ==>
              r == SafeText(data.fields["message"], stringify)
    ensures data.Obj? && ("detail" !in data.fields || data.fields["detail"] == Undefined) &&
            ("message" !in data.fields || data.fields["message"] == Undefined) ==>
              r == SafeText(data, stringify)
    ensures Truthy(data) && (data.Num? || data.Bool? || data.Arr?) ==> r == SafeText(data, stringify)
  {
    if !Truthy(data) then ""
    else if data.Str? then data.s
    else if Prop(data, "detail") != Undefined then SafeText(Prop(data, "detail"), stringify)
    else if Prop(data, "message") != Undefined then SafeText(Prop(data, "message"), stringify)
    else SafeText(data, stringify)
  }

  /** Only arrays and objects reach JSON.stringify: for every other value
      the message does not depend on it. */
  lemma SafeTextPrimitive(x: Json, f: Json -> string, g: Json -> string)
    requires !x.Arr? && !x.Obj?
    ensures SafeText(x, f) == SafeText(x, g)
  {
  }

  /** The service's errors are `{"detail": "<text>"}`: the message shown is
      that text, whatever else the body carries, and a `message` field is
      consulted only when there is no `detail`. */
  lemma SafeDetailOfServiceError(fields: map<string, Json>, text: string, f: Json -> string)
    requires "detail" in fields && fields["detail"] == Str(text)
    ensures SafeDetail(Obj(fields), f) == text
  {
  }

  /** Falsy bodies (no body, a body that did not parse, false, 0, "") give
      no message. */
  lemma SafeDetailOfFalsy(data: Json, f: Json -> string)
    requires !Truthy(data)
    ensures SafeDetail(data, f) == ""
  {
  }

  /** `safeDetail(r.data) || fallback`: what the client shows after a
      failed request. */
  function ErrorText(data: Json, fallback: string, stringify: Json -> string): (r: string)
    ensures fallback != "" ==> r != ""
    ensures SafeDetail(data, stringify) != "" ==> r == SafeDetail(data, stringify)
    ensures SafeDetail(data, stringify) == "" ==> r == fallback
  {
    var d := SafeDetail(data, stringify);
    if d == "" then fallback else d
  }

  // ---------------------------------------------------------------------
  // parseInt(v, 10) and clampInt.

  /** parseInt(s, 10): skips leading whitespace, takes an optional sign and
      the longest run of decimal digits after it; None stands for NaN. */
  function ParseInt(s: string): Option<int>
  {
    ParseSignedPrefix(TrimLeft(s, IsJsSpace))
  }

  /** parseInt gives NaN exactly when no digit follows the leading
      whitespace and an optional sign, and a negative number only after a
      minus sign. */
  lemma ParseIntNaN(s: string)
    ensures ParseInt(s).None? <==> DigitRun(UnsignedPart(TrimLeft(s, IsJsSpace))) == 0
    ensures ParseInt(s).Some? && ParseInt(s).value < 0 ==> TrimLeft(s, IsJsSpace)[0] == '-'
  {
  }

  /** parseInt's reading once the leading whitespace is gone. */
  function ParseSignedPrefix(t: string): Option<int> {
    if t != [] && t[0] == '-' then
      match ParseDigitPrefix(t[1..])
      case None => None
      case Some(n) => Some(0 - n)
    else if t != [] && t[0] == '+' then
      match ParseDigitPrefix(t[1..])
      case None => None
      case Some(n) => Some(n as int)
    else
      match ParseDigitPrefix(t)
      case None => None
      case Some(n) => Some(n as int)
  }

  /** What follows an optional leading sign. */
  function UnsignedPart(t: string): (u: string)
    ensures |u| <= |t|
  {
    if t != [] && (t[0] == '-' || t[0] == '+') then t[1..] else t
  }

  /** The value of the longest leading run of digits, if there is one. */
  function ParseDigitPrefix(u: string): Option<nat> {
    var k := DigitRun(u);
    if k == 0 then None else Some(DigitsValue(u[..k]))
  }

  lemma ParseDigitPrefixOf(digits: string, rest: string)
    requires |digits| >= 1 && AllDigits(digits)
    requires rest == [] || !IsDigit(rest[0])
    ensures ParseDigitPrefix(digits + rest) == Some(DigitsValue(digits))
  {
    DigitRunOfDigits(digits, rest);
    assert (digits + rest)[..|digits|] == digits;
  }

  lemma ParseUnsigned(digits: string, rest: string)
    requires |digits| >= 1 && AllDigits(digits)
    requires rest == [] || !IsDigit(rest[0])
    ensures ParseInt(digits + rest) == Some(DigitsValue(digits) as int)
  {
    var s := digits + rest;
    assert s[0] == digits[0];
    assert !IsJsSpace(s[0]);
    assert TrimLeft(s, IsJsSpace) == s;
    ParseDigitPrefixOf(digits, rest);
  }

  lemma ParseMinus(u: string, n: nat)
    requires ParseDigitPrefix(u) == Some(n)
    ensures ParseInt("-" + u) == Some(0 - n)
  {
    var s := "-" + u;
    assert s[0] == '-';
    assert !IsJsSpace(s[0]);
    assert TrimLeft(s, IsJsSpace) == s;
    assert s[1..] == u;
  }

  /** A number written as String(i) parses back to i, whatever non-digit
      text follows it ("12kg" reads as 12). */
  lemma ParseIntRoundTrip(i: int, rest: string)
    requires rest == [] || !IsDigit(rest[0])
    ensures ParseInt(IntToDecimal(i) + rest) == Some(i)
  {
    if i < 0 {
      var digits := NatToDecimal(-i);
      assert IntToDecimal(i) + rest == "-" + (digits + rest);
      ParseDigitPrefixOf(digits, rest);
      DecimalRoundTrip(-i);
      ParseMinus(digits + rest, -i);
    } else {
      ParseUnsigned(NatToDecimal(i), rest);
      DecimalRoundTrip(i);
    }
  }

  /** clampInt(v, min, max). */
  function ClampInt(v: string, min: int, max: int): (r: int)
    ensures ParseInt(v) == None ==> r == min
    ensures min <= max ==> min <= r <= max
    ensures ParseInt(v).Some? && min <= ParseInt(v).value <= max ==> r == ParseInt(v).value
    ensures ParseInt(v).Some? && min <= max ==>
              (ParseInt(v).value > max ==> r == max) && (ParseInt(v).value < min ==> r == min)
  {
    match ParseInt(v)
    case None => min
    case Some(n) =>
      var low := if max < n then max else n;
      if min > low then min else low
  }
}
