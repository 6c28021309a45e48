/**
 * JSON values as Python's `json` module hands them to the game: the parsed
 * form of a payload. Floating-point numbers are not modelled. The text form is
 * behind a `Codec`, a pair of functions standing for `json.dumps` and
 * `json.loads`; a decode of `None` is a `JSONDecodeError`.
 */
module Json {
  import opened Wrappers

  datatype Json =
    | JNull
    | JBool(b: bool)
    | JInt(i: int)
    | JStr(s: string)
    | JArr(items: seq<Json>)
    | JObj(fields: map<string, Json>)

  /** `json.dumps` / `json.loads`, seen only through what they promise each other. */
  datatype Codec = Codec(encode: Json -> string, decode: string -> Option<Json>)

  /** Decoding an encoded value gives the value back: the codec is injective. */
  ghost predicate Lawful(c: Codec) {
    forall v :: c.decode(c.encode(v)) == Some(v)
  }

  /** `d.get(key, default)` on a Python dictionary. */
  function Get(d: map<string, Json>, key: string, default: Json): (r: Json)
    ensures key in d ==> r == d[key]
    ensures key !in d ==> r == default
  {
    if key in d then d[key] else default
  }

  /**
   * The integer a value stands for in Python arithmetic: an int, or a bool
   * (True is 1, False is 0). Strings, lists, dicts and None make `79 + idx * v`
   * raise a TypeError, which is `None` here.
   */
  function AsNumber(v: Json): (r: Option<int>)
    ensures r.Some? <==> (v.JInt? || v.JBool?)
    ensures v.JInt? ==> r == Some(v.i)
    ensures v.JBool? ==> r == Some(if v.b then 1 else 0)
  {
    match v
    case JInt(i) => Some(i)
    case JBool(b) => Some(if b then 1 else 0)
    case _ => None
  }
}
