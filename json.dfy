/**
 * JSON values and the JSON.stringify / JSON.parse pair. The text format itself is not
 * modelled: a codec is any pair of total functions. Where the rest of the model reads
 * back what it wrote, it asks only that parsing the text stringified from that one value
 * gives the value back.
 */
module JsonModel {
  import opened Util

  datatype Json =
    | JNull
    | JBool(b: bool)
    | JNum(n: real)
    | JStr(s: string)
    | JArr(items: seq<Json>)
    | JObj(fields: map<string, Json>)

  /** JSON.stringify and JSON.parse; a parse failure carries the SyntaxError message. */
  datatype Codec = Codec(stringify: Json -> string, parse: string -> Result<Json, string>)

  /** Parsing the text stringified from `v` gives `v` back. */
  ghost predicate RoundTripsOn(c: Codec, v: Json) {
    c.parse(c.stringify(v)) == Ok(v)
  }

  /** Asking this of one value is no contradiction: some codec meets it. */
  lemma RoundTripsOnSatisfiable(v: Json)
    ensures exists c :: RoundTripsOn(c, v)
  {
    var c := Codec(_ => "", _ => Ok(v));
    assert RoundTripsOn(c, v);
  }

  /** A number that is an integer, read back as one. */
  function AsInt(j: Json): (r: Option<int>)
    ensures r.Some? <==> j.JNum? && j.n.Floor as real == j.n
    ensures r.Some? ==> j == JNum(r.value as real)
  {
    if j.JNum? && j.n.Floor as real == j.n then Some(j.n.Floor) else None
  }

  function AsReal(j: Json): (r: Option<real>)
    ensures r.Some? <==> j.JNum?
  {
    if j.JNum? then Some(j.n) else None
  }

  function AsString(j: Json): (r: Option<string>)
    ensures r.Some? <==> j.JStr?
  {
    if j.JStr? then Some(j.s) else None
  }

  /** The field `key` of an object; absent for a missing key or a non-object. */
  function Field(j: Json, key: string): (r: Option<Json>)
    ensures r.Some? <==> j.JObj? && key in j.fields
  {
    if j.JObj? && key in j.fields then Some(j.fields[key]) else None
  }
}
