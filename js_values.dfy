/**
 * The slice of JavaScript value semantics the middleware depends on: a parsed
 * JSON tree, reading a property or an element the way `a.b` and `a[0]` do
 * (throwing on `undefined` and `null`), and the text a template literal gives.
 * Numbers are modelled as integers.
 */
module JsValues {
  import opened Wrappers
  import Strings

  datatype Json =
    | JNull
    | JBool(b: bool)
    | JNumber(n: int)
    | JString(s: string)
    | JArray(items: seq<Json>)
    | JObject(fields: map<string, Json>)

  /** The result of a property read: it throws a TypeError, or yields a value (`None` is `undefined`). */
  datatype Read = Throws | Yields(value: Option<Json>)

  /** `v[key]` for a named property. Only objects have the properties read here; the rest give `undefined`. */
  function Member(v: Option<Json>, key: string): (r: Read)
    ensures r.Throws? <==> v.None? || v == Some(JNull)
    ensures r.Yields? && r.value.Some? ==> v.Some? && v.value.JObject? && key in v.value.fields
                                           && r.value.value == v.value.fields[key]
    ensures v.Some? && v.value.JObject? && key in v.value.fields ==> r == Yields(Some(v.value.fields[key]))
  {
    match v
    case None => Throws
    case Some(JNull) => Throws
    case Some(JObject(m)) => Yields(if key in m then Some(m[key]) else None)
    case Some(_) => Yields(None)
  }

  /** `v[i]` for an index: array elements, the characters of a string, or the property named by the digits. */
  function Element(v: Option<Json>, i: nat): (r: Read)
    ensures r.Throws? <==> v.None? || v == Some(JNull)
    ensures v.Some? && v.value.JArray? ==> r == Yields(if i < |v.value.items| then Some(v.value.items[i]) else None)
  {
    match v
    case None => Throws
    case Some(JNull) => Throws
    case Some(JArray(items)) => Yields(if i < |items| then Some(items[i]) else None)
    case Some(JString(s)) => Yields(if i < |s| then Some(JString([s[i]])) else None)
    case Some(JObject(_)) => Member(v, NatText(i))
    case Some(_) => Yields(None)
  }

  /** Reads `key` from the result of an earlier read; a throw propagates. */
  function ThenMember(r: Read, key: string): Read
  {
    if r.Throws? then Throws else Member(r.value, key)
  }

  function Digit(d: nat): char
    requires d < 10
  {
    "0123456789"[d]
  }

  /** The decimal digits of `n`, as `String(n)` writes them: no leading zero except for `0` itself. */
  function NatText(n: nat): (t: string)
    ensures |t| >= 1
    ensures forall i :: 0 <= i < |t| ==> '0' <= t[i] <= '9'
    ensures t[0] == '0' <==> n == 0
  {
    if n < 10 then [Digit(n)] else NatText(n / 10) + [Digit(n % 10)]
  }

  /** The number a string of decimal digits denotes, most significant digit first. */
  function DecimalValue(t: string): nat
    requires forall i :: 0 <= i < |t| ==> '0' <= t[i] <= '9'
  {
    if |t| == 0 then 0 else DecimalValue(t[..|t| - 1]) * 10 + (t[|t| - 1] as int - '0' as int)
  }

  /** Reading the digits back gives the number: the text is the decimal form of `n`. */
  lemma {:induction false} NatTextReadsBack(n: nat)
    ensures DecimalValue(NatText(n)) == n
  {
    if n >= 10 {
      NatTextReadsBack(n / 10);
      var t := NatText(n);
      assert t[..|t| - 1] == NatText(n / 10);
    }
  }

  function IntText(n: int): string
  {
    if n < 0 then "-" + NatText(-n) else NatText(n)
  }

  /**
   * `String(v)`, which a template literal `${v}` applies: arrays are joined by
   * `","` with `null` elements left empty, other objects print as `[object Object]`.
   */
  function JsonText(j: Json): string
  {
    match j
    case JNull => "null"
    case JBool(b) => if b then "true" else "false"
    case JNumber(n) => IntText(n)
    case JString(s) => s
    case JArray(items) =>
      Strings.Join(seq(|items|, i requires 0 <= i < |items| =>
                       if items[i] == JNull then "" else JsonText(items[i])), ",")
    case JObject(_) => "[object Object]"
  }

  /**
   * `${v}` for a value that may be `undefined`: a string is inserted as it is,
   * without escaping, and `undefined` becomes the word "undefined".
   */
  function TemplateText(v: Option<Json>): (t: string)
    ensures v.None? ==> t == "undefined"
    ensures v.Some? && v.value.JString? ==> t == v.value.s
  {
    match v
    case None => "undefined"
    case Some(j) => JsonText(j)
  }
}
