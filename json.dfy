// The part of ArduinoJson the firmware relies on, as values: a parsed JSON
// document is a tree whose objects are maps from key to value. Parsing text
// and printing text are outside the model.

module Json {
  import opened Common

  datatype Value =
    | Null
    | Bool(b: bool)
    | Int(i: int)        // an integral JSON number
    | Real(r: real)      // a JSON number with a fraction or exponent
    | Str(s: string)
    | Array(items: seq<Value>)
    | Object(fields: JsonObject)

  type JsonObject = map<string, Value>

  const INT_MIN: int := -0x8000_0000
  const INT_MAX: int := 0x7FFF_FFFF

  /** `obj.containsKey(key)` */
  predicate ContainsKey(obj: JsonObject, key: string)
  {
    key in obj
  }

  /**
   * `obj[key] | dflt` for a string default: the member's text when it is a
   * string, the default otherwise (absent, null, number, object, ...).
   */
  function StringOr(obj: JsonObject, key: string, dflt: string): string
  {
    if key in obj && obj[key].Str? then obj[key].s else dflt
  }

  /**
   * `obj[key] | dflt` for an `int` default: the member's value when it is an
   * integral number that fits a 32-bit `int`, the default otherwise.
   */
  function IntOr(obj: JsonObject, key: string, dflt: int): int
  {
    if key in obj && obj[key].Int? && INT_MIN <= obj[key].i <= INT_MAX then obj[key].i else dflt
  }

  /**
   * `obj[key].as<JsonObject>()`: the member object, or the null object (which
   * behaves as an empty object: it contains no key) for anything else.
   */
  function ObjectOf(obj: JsonObject, key: string): JsonObject
  {
    if key in obj && obj[key].Object? then obj[key].fields else map[]
  }
}
