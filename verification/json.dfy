/**
 * An abstract JSON value, standing for a parsed JsonDocument element, and the
 * three JsonElement accessors the bot uses. Each accessor throws when it is
 * applied to the wrong kind of value; that is modelled as a Failure.
 */
module Json {
  import opened Wrappers
  import opened Faults

  /** A balance as a double. The model never computes with it, it only stores it. */
  datatype Balance = Balance(amount: real)

  datatype Json =
    | JObject(properties: map<string, Json>)
    | JArray(items: seq<Json>)
    | JString(text: string)
      /** `asDouble` is what TryGetDouble reports for this number token, None when it reports false. */
    | JNumber(asDouble: Option<Balance>)
    | JBool(truth: bool)
    | JNull

  /** TryGetProperty: a lookup in the object's properties; it throws on any other kind of value. */
  function TryGetProperty(j: Json, key: string): (r: Result<Option<Json>, Fault>)
    ensures r.Failure? <==> !j.JObject?
    ensures r.Success? ==> (r.value.Some? <==> key in j.properties)
    ensures r.Success? && r.value.Some? ==> r.value.value == j.properties[key]
  {
    match j
    case JObject(props) => Success(if key in props then Some(props[key]) else None)
    case _ => Failure(WrongValueKind)
  }

  /** GetString: the text of a string, null (None) for a JSON null, and a throw otherwise. */
  function GetString(j: Json): (r: Result<Option<string>, Fault>)
    ensures r.Failure? <==> !(j.JString? || j.JNull?)
    ensures r == Success(None) <==> j.JNull?
    ensures j.JString? ==> r == Success(Some(j.text))
  {
    match j
    case JString(t) => Success(Some(t))
    case JNull => Success(None)
    case _ => Failure(WrongValueKind)
  }

  /** TryGetDouble: the double of a number token, if it has one; it throws on any other kind of value. */
  function TryGetDouble(j: Json): (r: Result<Option<Balance>, Fault>)
    ensures r.Failure? <==> !j.JNumber?
    ensures j.JNumber? ==> r == Success(j.asDouble)
  {
    match j
    case JNumber(d) => Success(d)
    case _ => Failure(WrongValueKind)
  }
}
