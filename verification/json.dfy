/** JSON documents as Python's `json` module loads them, with integer numbers only. */
module Json {
  import opened Base

  datatype Json =
    | JNull
    | JBool(b: bool)
    | JNum(n: int)
    | JStr(s: string)
    | JArr(items: seq<Json>)
    | JObj(fields: map<string, Json>)

  /** Python's `d.get(key, default)` on a dict. */
  function Get(d: map<string, Json>, key: string, default: Json): (r: Json)
    ensures key in d ==> r == d[key]
    ensures key !in d ==> r == default
  {
    if key in d then d[key] else default
  }

  /** The strings of a list of strings, as JSON. */
  function StrList(xs: seq<string>): (r: seq<Json>)
    ensures |r| == |xs|
    ensures forall i :: 0 <= i < |xs| ==> r[i] == JStr(xs[i])
  {
    if |xs| == 0 then [] else [JStr(xs[0])] + StrList(xs[1..])
  }

  /** The text and JSON codecs the tool relies on, as given functions. */
  datatype Codec = Codec(
    decode: Bytes -> Option<string>,  // reading a file as UTF-8 text; None on UnicodeDecodeError
    encode: string -> Bytes,          // writing text as UTF-8
    parse: string -> Option<Json>,    // json.loads; None on JSONDecodeError
    dump: Json -> string,             // json.dumps(..., indent=2, ensure_ascii=False)
    dumpAscii: Json -> string)        // json.dumps(..., indent=2), escaping non-ASCII
}
