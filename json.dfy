/**
 * A JSON document as the parts' serialisers see it: a tree of values whose
 * objects are keyed by strings. `At` and the `As...` conversions are the
 * checked accessors the source uses (`j.at(key)` and the implicit numeric,
 * string and boolean conversions); their failures are the exceptions the
 * JSON library throws, returned here as `Err`.
 */
module Json {
  import opened Wrappers

  datatype Json =
    | JNull
    | JBool(b: bool)
    | JNumber(n: real)
    | JString(s: string)
    | JObject(fields: map<string, Json>)

  /** `OutOfRange` is a missing key; `TypeError` is a value of the wrong kind. */
  datatype JsonError = OutOfRange(key: string) | TypeError

  /** `j.at(key)`: the member named `key` of an object. */
  function At(j: Json, key: string): (r: Result<Json, JsonError>)
    ensures r.Ok? <==> j.JObject? && key in j.fields
    ensures r.Ok? ==> r.value == j.fields[key]
    ensures r.Err? && j.JObject? ==> r.error == OutOfRange(key)
    ensures !j.JObject? ==> r == Err(TypeError)
  {
    match j
    case JObject(fields) => if key in fields then Ok(fields[key]) else Err(OutOfRange(key))
    case _ => Err(TypeError)
  }

  function AsNumber(j: Json): (r: Result<real, JsonError>)
    ensures r.Ok? <==> j.JNumber?
    ensures r.Ok? ==> j == JNumber(r.value)
  {
    if j.JNumber? then Ok(j.n) else Err(TypeError)
  }

  function AsString(j: Json): (r: Result<string, JsonError>)
    ensures r.Ok? <==> j.JString?
    ensures r.Ok? ==> j == JString(r.value)
  {
    if j.JString? then Ok(j.s) else Err(TypeError)
  }

  function AsBool(j: Json): (r: Result<bool, JsonError>)
    ensures r.Ok? <==> j.JBool?
    ensures r.Ok? ==> j == JBool(r.value)
  {
    if j.JBool? then Ok(j.b) else Err(TypeError)
  }

  /** `double v = j.at(key)`. */
  function NumberAt(j: Json, key: string): (r: Result<real, JsonError>)
    ensures r.Ok? <==> j.JObject? && key in j.fields && j.fields[key].JNumber?
    ensures r.Ok? ==> j.fields[key] == JNumber(r.value)
  {
    var v :- At(j, key);
    AsNumber(v)
  }

  /** `std::string v = j.at(key)`. */
  function StringAt(j: Json, key: string): (r: Result<string, JsonError>)
    ensures r.Ok? <==> j.JObject? && key in j.fields && j.fields[key].JString?
    ensures r.Ok? ==> j.fields[key] == JString(r.value)
  {
    var v :- At(j, key);
    AsString(v)
  }

  /** `bool v = j.at(key)`. */
  function BoolAt(j: Json, key: string): (r: Result<bool, JsonError>)
    ensures r.Ok? <==> j.JObject? && key in j.fields && j.fields[key].JBool?
    ensures r.Ok? ==> j.fields[key] == JBool(r.value)
  {
    var v :- At(j, key);
    AsBool(v)
  }
}
