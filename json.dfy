/**
 * An abstract JSON value, as the Qt JSON classes present a parsed document,
 * and the three Qt accessors the extractor relies on: looking up a key of an
 * object, converting a value to an object and converting a value to an int.
 * The JSON text parser itself is not part of this model.
 */
module Json {

  datatype JsonValue =
    | Number(n: int)                             // a JSON number whose value is integral
    | Object(members: map<string, JsonValue>)    // a JSON object
    | Undefined                                  // what looking up an absent key yields
    | Other                                      // null, true, false, a string, an array or a non-integral number

  type JsonObject = map<string, JsonValue>

  /** The range of the C++ `int` that `QJsonValue::toInt` returns. */
  const IntMin: int := -0x8000_0000
  const IntMax: int := 0x7FFF_FFFF

  predicate InIntRange(i: int) {
    IntMin <= i <= IntMax
  }

  /** `QJsonObject::value`: the member at `key`, or Undefined when there is none. */
  function Value(obj: JsonObject, key: string): (v: JsonValue)
    ensures key in obj ==> v == obj[key]
    ensures key !in obj ==> v == Undefined
  {
    if key in obj then obj[key] else Undefined
  }

  /** `QJsonValue::toObject` (and `QJsonDocument::object`): the object, or an empty object for anything else. */
  function ToObject(v: JsonValue): (obj: JsonObject)
    ensures v.Object? ==> obj == v.members
    ensures !v.Object? ==> obj == map[]
  {
    match v
    case Object(members) => members
    case _ => map[]
  }

  /**
   * `QJsonValue::toInt` with its default 0: an integral number that fits in
   * a C++ `int` converts to itself, every other value converts to 0.
   */
  function ToInt(v: JsonValue): (r: int)
    ensures InIntRange(r)
    ensures v.Number? && InIntRange(v.n) ==> r == v.n
    ensures r != 0 ==> v.Number? && v.n == r
  {
    if v.Number? && InIntRange(v.n) then v.n else 0
  }
}
