// The parsed form of a rule and the side effects evaluating it can have.
// A rule is a JSON document; deserialisation itself (ArduinoJson) is not
// modelled, only the tree it produces.

module RuleJson {
  import opened Values

  /**
   * A JSON value as the evaluator sees it. Numbers that are written without
   * a fraction arrive as JInt, the others as JFloat.
   */
  datatype Json =
    | JNull
    | JBool(b: bool)
    | JInt(n: int)
    | JFloat(x: real)
    | JString(s: string)
    | JArray(items: seq<Json>)
    | JObject

  /** One call of an actuator setter: relay `actuator` is driven with `level`. */
  datatype Write = Write(actuator: ActuatorId, level: real)
}
