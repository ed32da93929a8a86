/** JSON values as Python's json module produces them, with Python's truthiness and dict.get. */
module Json {
  import opened Wrappers

  /** Numbers are kept as reals; dictionaries lose their key order. */
  datatype Json =
    | JNull
    | JBool(b: bool)
    | JNum(n: real)
    | JStr(s: string)
    | JArr(items: seq<Json>)
    | JObj(fields: map<string, Json>)

  /** Python's `bool(x)` on a decoded JSON value: None, False, 0, "", [] and {} are false. */
  predicate Truthy(j: Json) {
    match j
    case JNull => false
    case JBool(b) => b
    case JNum(n) => n != 0.0
    case JStr(s) => s != ""
    case JArr(items) => items != []
    case JObj(fields) => fields != map[]
  }

  /** `d.get(key, default)`: the stored value whenever the key is present, even a JSON null. */
  function Get(d: map<string, Json>, key: string, default: Json): (r: Json)
    ensures key in d ==> r == d[key]
    ensures key !in d ==> r == default
  {
    if key in d then d[key] else default
  }

  /** A list of strings as json.dump writes it. */
  function EncodeStrings(xs: seq<string>): (j: Json)
    ensures j.JArr? && |j.items| == |xs|
    ensures forall i :: 0 <= i < |xs| ==> j.items[i] == JStr(xs[i])
  {
    JArr(seq(|xs|, i requires 0 <= i < |xs| => JStr(xs[i])))
  }

  /** Reads back a list of strings; anything else is not one. */
  function DecodeStrings(j: Json): (r: Option<seq<string>>)
    ensures r.Some? <==> j.JArr? && forall i :: 0 <= i < |j.items| ==> j.items[i].JStr?
  {
    if j.JArr? && forall i :: 0 <= i < |j.items| ==> j.items[i].JStr? then
      Some(seq(|j.items|, i requires 0 <= i < |j.items| => j.items[i].s))
    else
      None
  }

  lemma StringsRoundTrip(xs: seq<string>)
    ensures DecodeStrings(EncodeStrings(xs)) == Some(xs)
  {
    var d := DecodeStrings(EncodeStrings(xs));
    assert d.Some?;
    assert d.value == xs;
  }

  /** An optional string as json.dump writes it: None becomes null. */
  function EncodeOptString(o: Option<string>): (j: Json)
    ensures o.None? <==> j == JNull
  {
    match o
    case None => JNull
    case Some(s) => JStr(s)
  }

  function DecodeOptString(j: Json): (r: Option<Option<string>>)
    ensures r.Some? <==> j.JNull? || j.JStr?
  {
    match j
    case JNull => Some(None)
    case JStr(s) => Some(Some(s))
    case _ => None
  }

  lemma OptStringRoundTrip(o: Option<string>)
    ensures DecodeOptString(EncodeOptString(o)) == Some(o)
  {
  }

  function DecodeString(j: Json): (r: Option<string>)
    ensures r.Some? <==> j.JStr?
  {
    if j.JStr? then Some(j.s) else None
  }
}
