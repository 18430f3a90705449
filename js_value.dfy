/** The values the browser client receives from the service and keeps in its
    module-level state, with the three JavaScript operations the client
    applies to them: truthiness, property access and string conversion. */
module JsValue {
  import opened Text

  /** A JavaScript value as JSON.parse produces it, plus `undefined`, which is
      what reading a missing property yields. Numbers are integers here. */
  datatype Json =
    | Undefined
    | Null
    | Bool(b: bool)
    | Num(n: int)
    | Str(s: string)
    | Arr(items: seq<Json>)
    | Obj(fields: map<string, Json>)

  /** ToBoolean: what `if (v)`, `!v` and `v || w` test. */
  predicate Truthy(v: Json) {
    match v
    case Undefined => false
    case Null => false
    case Bool(b) => b
    case Num(n) => n != 0
    case Str(s) => s != ""
    case Arr(_) => true
    case Obj(_) => true
  }

  /** The values on which a plain property access `v.p` throws a TypeError. */
  predicate IsNullish(v: Json) {
    v.Undefined? || v.Null?
  }

  /** The length of the longest prefix of xs holding neither null nor
      undefined: how far a loop that reads a property of each element gets
      before it throws, |xs| when it does not throw. */
  function NullishFree(xs: seq<Json>): (k: nat)
    ensures k <= |xs|
    ensures forall i :: 0 <= i < k ==> !IsNullish(xs[i])
    ensures k < |xs| ==> IsNullish(xs[k])
  {
    if xs == [] || IsNullish(xs[0]) then 0 else 1 + NullishFree(xs[1..])
  }

  /** Some element of the list is null or undefined. */
  predicate HasNullish(xs: seq<Json>) {
    NullishFree(xs) < |xs|
  }

  /** `v?.p`: the property p of an object, and `undefined` for everything
      else. No other kind of value carries the properties the client reads
      (date, did_train, supplement_id, took, id, name, detail, message,
      token); a plain `v.p` is this same value when v is not nullish. */
  function Prop(v: Json, p: string): (r: Json)
    ensures r != Undefined ==> v.Obj? && p in v.fields && r == v.fields[p]
    ensures v.Obj? && p in v.fields ==> r == v.fields[p]
  {
    if v.Obj? && p in v.fields then v.fields[p] else Undefined
  }

  /** `v || d`. */
  function Or(v: Json, d: Json): Json {
    if Truthy(v) then v else d
  }

  /** ToString, as used by String(v), template literals and property keys.
      An array joins its elements' strings with commas, writing null and
      undefined elements as empty strings; a plain object is
      "[object Object]". */
  function ToStr(v: Json): string
    decreases v
  {
    match v
    case Undefined => "undefined"
    case Null => "null"
    case Bool(b) => if b then "true" else "false"
    case Num(n) => IntToDecimal(n)
    case Str(s) => s
    case Arr(items) =>
      Join(seq(|items|, i requires 0 <= i < |items| =>
                 if IsNullish(items[i]) then "" else ToStr(items[i])), ",")
    case Obj(_) => "[object Object]"
  }
}
