/** JavaScript values as they come out of a parsed JSON or YAML document, with the few
    operations the manifest tools apply to them: property access, truthiness, strict
    equality and conversion to a string in a template literal. */
module Json {
  import opened Text

  /** A parsed value. Numbers are integers here (see README). */
  datatype Json =
    | JNull
    | JBool(b: bool)
    | JNum(n: int)
    | JStr(s: string)
    | JArr(items: seq<Json>)
    | JObj(fields: map<string, Json>)

  /** `value.key` (or `value?.key`): the property when `value` is an object that has it,
      `undefined` otherwise. */
  function Prop(value: Json, key: string): (r: Option<Json>)
    ensures r.Some? <==> value.JObj? && key in value.fields
    ensures r.Some? ==> r.value == value.fields[key]
  {
    if value.JObj? && key in value.fields then Some(value.fields[key]) else None
  }

  /** `Boolean(value)`. */
  predicate Truthy(value: Json)
    ensures !Truthy(value) <==> value == JNull || value == JBool(false) || value == JNum(0) || value == JStr("")
  {
    match value
    case JNull => false
    case JBool(b) => b
    case JNum(n) => n != 0
    case JStr(s) => s != ""
    case _ => true
  }

  /** `Boolean(value)` where `value` may be `undefined`. */
  predicate TruthyOpt(value: Option<Json>) {
    value.Some? && Truthy(value.value)
  }

  /** Arrays and objects compare by identity; two of them from different places in a parsed
      document are never `===` (see README). */
  predicate IsPrimitive(value: Json) {
    !value.JArr? && !value.JObj?
  }

  /** `a === b` for values at different places of a document. */
  predicate StrictEquals(a: Json, b: Json) {
    a == b && IsPrimitive(a)
  }

  /** The decimal text of an integer. */
  function IntToString(n: int): (r: string)
    ensures |r| >= 1
  {
    if n < 0 then "-" + NatToString(-n) else NatToString(n)
  }

  /** `${value}` in a template literal. */
  function Render(value: Json): (r: string)
    ensures value.JStr? ==> r == value.s
    ensures value.JNum? ==> r != [] && (r[0] == '-' <==> value.n < 0)
    decreases value
  {
    match value
    case JNull => "null"
    case JBool(b) => if b then "true" else "false"
    case JNum(n) => IntToString(n)
    case JStr(s) => s
    case JArr(items) => JoinRendered(items, value)
    case JObj(_) => "[object Object]"
  }

  /** `Array.prototype.join(",")` on array elements: `null` elements give nothing. */
  function JoinRendered(items: seq<Json>, whole: Json): string
    requires forall k :: 0 <= k < |items| ==> items[k] < whole
    decreases whole, |items|
  {
    if items == [] then ""
    else
      var head := if items[0].JNull? then "" else Render(items[0]);
      if |items| == 1 then head else head + "," + JoinRendered(items[1..], whole)
  }

  /** Strings render as themselves and numbers as their digits. */
  lemma RenderPrimitives(s: string, n: nat)
    ensures Render(JStr(s)) == s
    ensures Render(JNum(n)) == NatToString(n)
    ensures Render(JNull) == "null"
  {
  }
}
