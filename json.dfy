/** A JSON value, as far as the wire shapes of the booking portal need one. */
module Json {

  import opened Wrappers

  datatype Json =
    | JNull
    | JBool(b: bool)
    | JNumber(n: int)
    | JString(s: string)
    | JArray(items: seq<Json>)
    | JObject(members: map<string, Json>)

  /** A required string field of an object. */
  function StringField(m: map<string, Json>, key: string): (r: Option<string>)
    ensures r.Some? <==> key in m && m[key].JString?
    ensures r.Some? ==> m[key] == JString(r.value)
  {
    if key in m && m[key].JString? then Some(m[key].s) else None
  }

  /** An `Option<String>` field: absent or `null` reads as `None`. */
  function OptionalStringField(m: map<string, Json>, key: string): (r: Option<Option<string>>)
    ensures r.None? <==> key in m && !m[key].JNull? && !m[key].JString?
    ensures r == Some(None) <==> key !in m || m[key].JNull?
  {
    if key !in m || m[key].JNull? then Some(None)
    else if m[key].JString? then Some(Some(m[key].s))
    else None
  }

  /** How serde writes an `Option<String>`. */
  function OptionalString(o: Option<string>): (j: Json)
    ensures o.None? <==> j.JNull?
  {
    match o
    case None => JNull
    case Some(s) => JString(s)
  }

  lemma OptionalStringRoundTrip(m: map<string, Json>, key: string, o: Option<string>)
    requires key in m && m[key] == OptionalString(o)
    ensures OptionalStringField(m, key) == Some(o)
  {
  }
}
