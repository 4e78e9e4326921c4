/**
 * JSON values as the edge functions receive and send them, the JavaScript property reads
 * they perform on such values, and the HTTP responses they build.
 */
module Json {
  import opened Options
  import opened Text

  /** A parsed JSON value. Numbers are kept exact; object key order is not kept. */
  datatype Json =
    | JNull
    | JBool(b: bool)
    | JNumber(n: real)
    | JString(s: string)
    | JArray(items: seq<Json>)
    | JObject(fields: map<string, Json>)

  /** A property key: `.name` or `[i]`. */
  datatype Key = Name(name: string) | Index(i: nat)

  function KeyText(key: Key): string {
    match key
    case Name(n) => n
    case Index(i) => NatToDecimal(i)
  }

  /**
   * `v[key]` on a value that is neither null nor undefined: an own member of an object, an
   * element of an array, a one-character string for an index into a string, and undefined
   * (None) otherwise. None of the keys the handlers read ("choices", "message", "content",
   * the input fields, 0) is a property that strings, numbers, booleans or arrays inherit, so
   * those give undefined as well.
   */
  function Get(v: Json, key: Key): (r: Option<Json>)
    ensures r.Some? ==> v.JObject? || v.JArray? || v.JString?
    ensures v.JObject? ==> (r.Some? <==> KeyText(key) in v.fields)
    ensures v.JArray? && key.Index? ==> (r.Some? <==> key.i < |v.items|)
    ensures v.JString? ==> (r.Some? <==> key.Index? && key.i < |v.s|)
    ensures v.JArray? && key.Name? ==> r.None?
    ensures v.JObject? && KeyText(key) in v.fields ==> r == Some(v.fields[KeyText(key)])
    ensures v.JArray? && key.Index? && key.i < |v.items| ==> r == Some(v.items[key.i])
    ensures v.JString? && key.Index? && key.i < |v.s| ==> r == Some(JString([v.s[key.i]]))
  {
    match (v, key)
    case (JObject(m), _) => if KeyText(key) in m then Some(m[KeyText(key)]) else None
    case (JArray(a), Index(i)) => if i < |a| then Some(a[i]) else None
    case (JString(t), Index(i)) => if i < |t| then Some(JString([t[i]])) else None
    case _ => None
  }

  /** The message of the TypeError that V8 throws when a property of null or undefined is read. */
  function ReadErrorMessage(base: string, key: Key): string {
    "Cannot read properties of " + base + " (reading '" + KeyText(key) + "')"
  }

  /** `v[key]`, where v may be undefined (None): reading from undefined or null throws a TypeError. */
  function Read(v: Option<Json>, key: Key): (r: Result<Option<Json>, string>)
    ensures r.Err? <==> (v.None? || v == Some(JNull))
    ensures r.Ok? ==> r.value == Get(v.value, key)
  {
    match v
    case None => Err(ReadErrorMessage("undefined", key))
    case Some(JNull) => Err(ReadErrorMessage("null", key))
    case Some(j) => Ok(Get(j, key))
  }

  /** `v?.[key]`: optional chaining gives undefined instead of throwing. */
  function ReadOptional(v: Option<Json>, key: Key): (r: Option<Json>)
    ensures Read(v, key).Err? ==> r.None?
    ensures Read(v, key).Ok? ==> r == Read(v, key).value
  {
    match v
    case None => None
    case Some(JNull) => None
    case Some(j) => Get(j, key)
  }

  /** The value is neither undefined nor null, so a property of it can be read. */
  predicate Defined(v: Option<Json>) {
    v.Some? && v.value != JNull
  }

  /** How a body (of a request or of an upstream reply) parses: `await req.json()` or `await response.json()`. */
  datatype Parse = Unparsable(message: string) | Parsed(value: Json)

  // ---------------------------------------------------------------------------
  // HTTP responses

  datatype Body = NoBody | JsonBody(value: Json)

  datatype Response = Response(status: nat, headers: map<string, string>, body: Body)

  /** The CORS headers every edge function sends with every response. */
  const CorsHeaders: map<string, string> :=
    map[
      "Access-Control-Allow-Origin" := "*",
      "Access-Control-Allow-Headers" := "authorization, x-client-info, apikey, content-type"
    ]

  const JsonHeaders: map<string, string> := CorsHeaders["Content-Type" := "application/json"]

  /** `new Response(null, { headers: corsHeaders })`: the answer to a CORS preflight. */
  const Preflight: Response := Response(200, CorsHeaders, NoBody)

  /** `new Response(JSON.stringify(value), { status, headers: { ...corsHeaders, "Content-Type": "application/json" } })`. */
  function JsonResponse(status: nat, value: Json): (r: Response)
    ensures r.status == status && r.body == JsonBody(value)
    ensures r.headers.Keys == CorsHeaders.Keys + {"Content-Type"}
    ensures r.headers["Content-Type"] == "application/json"
    ensures forall h :: h in CorsHeaders ==> r.headers[h] == CorsHeaders[h]
  {
    Response(status, JsonHeaders, JsonBody(value))
  }

  /** A JSON object with string members. */
  function StringObject(members: map<string, string>): Json {
    JObject(map k | k in members :: JString(members[k]))
  }
}
