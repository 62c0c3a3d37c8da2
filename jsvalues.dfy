/** Decoded response bodies as JavaScript sees them, and the three JavaScript
    operations the extractors apply to them: a property read `v[key]`, an
    optional-chain read `v?.[key]`, and truthiness (used by `a || b` and by
    `if (a && b)`). JSON numbers are integers here. */
module JsValues {
  import opened Wrappers
  import opened Text

  /** A decoded body: parsed JSON, or a text body as a `JString`. */
  datatype Json =
    | JNull
    | JBool(b: bool)
    | JNumber(n: int)
    | JString(s: string)
    | JArray(items: seq<Json>)
    | JObject(fields: map<string, Json>)

  /** What a caught exception carries: a TypeError raised by the extractor's
      own code, or the rejection of the HTTP request. */
  datatype Failure = TypeError(message: string) | RequestFailed(reason: string)

  /** `v[key]` where `v` may be `undefined` (`None`): reading a property of
      `undefined` or `null` throws a TypeError; a property of any other
      primitive or of an array is `undefined` for the keys the scrapers use
      (none of them names a built-in property). */
  function Get(v: Option<Json>, key: string): (r: Result<Option<Json>, Failure>)
    ensures r.Err? <==> v.None? || v.value.JNull?
    ensures v.Some? && v.value.JObject? ==> r == Ok(if key in v.value.fields then Some(v.value.fields[key]) else None)
  {
    match v
    case None => Err(TypeError("Cannot read properties of undefined (reading '" + key + "')"))
    case Some(JNull) => Err(TypeError("Cannot read properties of null (reading '" + key + "')"))
    case Some(JObject(fields)) => Ok(if key in fields then Some(fields[key]) else None)
    case Some(_) => Ok(None)
  }

  /** `v?.[key]`: like `Get`, but `undefined` instead of a TypeError. */
  function Chain(v: Option<Json>, key: string): (r: Option<Json>)
    ensures r.Some? ==> v.Some? && v.value.JObject? && key in v.value.fields
  {
    match v
    case Some(JObject(fields)) => if key in fields then Some(fields[key]) else None
    case _ => None
  }

  /** JavaScript truthiness; `undefined` is falsy. */
  predicate Truthy(v: Option<Json>) {
    match v
    case None => false
    case Some(JNull) => false
    case Some(JBool(b)) => b
    case Some(JNumber(n)) => n != 0
    case Some(JString(s)) => s != ""
    case Some(_) => true
  }

  /** `v || null`. */
  function OrNull(v: Option<Json>): (r: Json)
    ensures Truthy(v) ==> r == v.value
    ensures !Truthy(v) ==> r == JNull
  {
    if Truthy(v) then v.value else JNull
  }

  /** `String(v)`: how a regex `exec` turns a non-string argument into text. */
  function ToText(v: Json): string
    decreases v, 1
  {
    match v
    case JNull => "null"
    case JBool(b) => if b then "true" else "false"
    case JNumber(n) => if n < 0 then "-" + NatToString(-n) else NatToString(n)
    case JString(s) => s
    case JArray(items) => JoinedText(items)
    case JObject(_) => "[object Object]"
  }

  /** `items.join(",")` as `String` applies it to an array: null elements
      become the empty string. */
  function JoinedText(items: seq<Json>): string
    decreases items, 0
  {
    if |items| == 0 then ""
    else
      var head := if items[0].JNull? then "" else ToText(items[0]);
      if |items| == 1 then head else head + "," + JoinedText(items[1..])
  }

  /** The string form of a value that is not a string or an array has no
      '<' in it, so no tag pattern can match it. */
  lemma ScalarTextHasNoTag(v: Json)
    requires !v.JString? && !v.JArray?
    ensures forall k :: 0 <= k < |ToText(v)| ==> ToText(v)[k] != '<'
  {
    if v.JNumber? {
      var d := NatToString(if v.n < 0 then -v.n else v.n);
      assert forall k :: 0 <= k < |d| ==> IsDigit(d[k]);
    }
  }
}
