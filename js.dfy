/** The JavaScript values that `JSON.parse` produces, and the parts of
    JavaScript's semantics the core applies to them: truthiness, reading a
    property, and writing a property in strict-mode code. */
module Js {
  import opened Common
  import opened Text

  /** A JavaScript value built from parsed JSON. Numbers are integers in
      this model. An array carries its elements and its named own
      properties: `JSON.parse` creates none, but a property write adds one. */
  datatype Json =
    | JNull
    | JBool(b: bool)
    | JNumber(n: int)
    | JString(s: string)
    | JArray(items: seq<Json>, props: map<string, Json>)
    | JObject(fields: map<string, Json>)

  /** The only error raised by property access. */
  datatype JsError = TypeError

  /** Truthiness of a possibly `undefined` (None) value, as tested by `!x`. */
  predicate Truthy(v: Option<Json>) {
    match v
    case None => false
    case Some(JNull) => false
    case Some(JBool(b)) => b
    case Some(JNumber(n)) => n != 0
    case Some(JString(s)) => s != ""
    case Some(_) => true
  }

  /** An own field of an object, `undefined` when absent. */
  function Field(fields: map<string, Json>, key: string): Option<Json> {
    if key in fields then Some(fields[key]) else None
  }

  /** A value that holds own properties: an object or an array. */
  predicate HasProps(v: Json) {
    v.JObject? || v.JArray?
  }

  /** The named own properties of a value; an array's elements are not
      among them, and a primitive has none. */
  function Props(v: Json): map<string, Json> {
    match v
    case JObject(f) => f
    case JArray(_, p) => p
    case _ => map[]
  }

  /** `v` with its named own properties replaced by `m`; an array keeps its
      elements and stays an array. */
  function WithProps(v: Json, m: map<string, Json>): (r: Json)
    requires HasProps(v)
    ensures HasProps(r) && Props(r) == m
    ensures r.JObject? == v.JObject? && (v.JArray? ==> r.items == v.items)
  {
    match v
    case JObject(_) => JObject(m)
    case JArray(xs, _) => JArray(xs, m)
  }

  /** Replacing the properties by the ones a value has changes nothing, and
      a second replacement overrides the first. */
  lemma WithPropsLaws(v: Json, m: map<string, Json>, n: map<string, Json>)
    requires HasProps(v)
    ensures WithProps(v, Props(v)) == v
    ensures WithProps(WithProps(v, m), n) == WithProps(v, n)
  {
  }

  /** `v[key]`. Reading from `undefined` or `null` throws; any other value
      yields its own property, or `undefined`. An array's elements and
      `length`, and inherited properties, are not read by the core (none of
      the names it reads is numeric or on a built-in prototype). */
  function GetProp(v: Option<Json>, key: string): (r: Result<Option<Json>, JsError>)
    ensures r.Failure? <==> v.None? || v == Some(JNull)
    ensures r.Success? && r.value.Some? ==> HasProps(v.value) && key in Props(v.value)
    ensures r.Success? && v.value.JObject? ==> r.value == Field(v.value.fields, key)
    ensures r.Success? && !HasProps(v.value) ==> r.value.None?
  {
    match v
    case None => Failure(TypeError)
    case Some(JNull) => Failure(TypeError)
    case Some(x) => Success(Field(Props(x), key))
  }

  /** `v[key] = value` in strict mode: allowed on objects and arrays, a
      TypeError on `undefined`, `null` and primitives. The written value is
      what a later read of `key` gives, and the other properties and an
      array's elements are kept. */
  function SetProp(v: Option<Json>, key: string, value: Json): (r: Result<Json, JsError>)
    ensures r.Success? <==> v.Some? && HasProps(v.value)
    ensures r.Success? ==> GetProp(Some(r.value), key) == Success(Some(value))
    ensures r.Success? ==> forall k :: k != key ==> GetProp(Some(r.value), k) == GetProp(v, k)
    ensures r.Success? ==> r.value.JObject? == v.value.JObject? && (v.value.JArray? ==> r.value.items == v.value.items)
  {
    match v
    case Some(JObject(m)) => Success(WithProps(v.value, m[key := value]))
    case Some(JArray(_, m)) => Success(WithProps(v.value, m[key := value]))
    case _ => Failure(TypeError)
  }

  /** A JSON array of strings. */
  function Strings(xs: seq<string>): (r: Json)
    ensures r.JArray? && |r.items| == |xs| && r.props == map[]
  {
    JArray(seq(|xs|, i requires 0 <= i < |xs| => JString(xs[i])), map[])
  }

  /** The decimal digits of `n`, most significant first. */
  function DigitsText(n: nat): (r: string)
    ensures |r| > 0 && forall i :: 0 <= i < |r| ==> '0' <= r[i] <= '9'
  {
    var d := [('0' as int + n % 10) as char];
    if n < 10 then d else DigitsText(n / 10) + d
  }

  /** `String(v)`, as a template literal renders a value: an array renders
      as its elements joined by commas, any object as "[object Object]". */
  function ToText(v: Json): string
    decreases v, 1
  {
    match v
    case JNull => "null"
    case JBool(b) => if b then "true" else "false"
    case JNumber(n) => if n < 0 then "-" + DigitsText(-n) else DigitsText(n)
    case JString(s) => s
    case JArray(xs, _) => Join(seq(|xs|, i requires 0 <= i < |xs| => ItemText(xs[i])), ",")
    case JObject(_) => "[object Object]"
  }

  /** An array element as `join` renders it: `null` becomes the empty string. */
  function ItemText(x: Json): string
    decreases x, 2
  {
    if x.JNull? then "" else ToText(x)
  }

  /** `xs.join(sep)` */
  function JoinItems(xs: seq<Json>, sep: string): string {
    Join(seq(|xs|, i requires 0 <= i < |xs| => ItemText(xs[i])), sep)
  }

  /** `${v}` in a template literal; `undefined` renders as "undefined". */
  function TemplateText(v: Option<Json>): (r: string)
    ensures v.Some? && v.value.JString? ==> r == v.value.s
    ensures v.None? ==> r == "undefined"
  {
    if v.None? then "undefined" else ToText(v.value)
  }

  /** Joining a JSON array of strings is joining the strings. */
  lemma JoinStrings(xs: seq<string>, sep: string)
    ensures JoinItems(Strings(xs).items, sep) == Join(xs, sep)
  {
    var ys := Strings(xs).items;
    var texts := seq(|ys|, i requires 0 <= i < |ys| => ItemText(ys[i]));
    forall i | 0 <= i < |xs|
      ensures texts[i] == xs[i]
    {
      assert ys[i] == JString(xs[i]);
      assert ItemText(ys[i]) == ToText(ys[i]) == xs[i];
    }
    assert texts == xs;
  }
}
