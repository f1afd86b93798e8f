// The older float-only rule evaluator. Every number is a float, there are
// no string or integer values, strings resolve to actuators, sensors or the
// clock through environment callbacks, and all six comparisons demand two
// floats. Operator names are tested in the same strcmp chain as the newer
// engine's built-in dispatch.

module LegacyCore {
  import opened Wrappers
  import Values
  import opened RuleJson
  import opened Registry
  import opened Core
  import opened CoreLaws

  /** The legacy error codes. */
  datatype LegacyError =
    | UnrecTypeError
    | IfConditionError
    | BoolActuatorError
    | AndOrError
    | NotError
    | ComparisonTypeError
    | ComparisonTypeEqualityError
    | UnrecFuncError
    | UnrecStrError
    | UnrecActuatorError
    | TimeError

  /** RuleReturn: the type tag with the payload the tag carries. */
  datatype RuleReturn =
    | RError(code: LegacyError)
    | RFloat(val: real)
    | RVoid
    | RActuator(setter: Values.ActuatorId)

  /** The `val` field: the float of a FLOAT_TYPE return and 0 for every other type. */
  function Val(r: RuleReturn): real {
    if r.RFloat? then r.val else 0.0
  }

  /** A return together with the setter calls made while computing it. */
  datatype Result = Result(ret: RuleReturn, writes: seq<Write>)

  /**
   * The legacy environment. A callback the caller leaves unset is a lookup
   * that answers None, or a None clock or time parser.
   */
  datatype LegacyEnv = LegacyEnv(
    tryReadSensor: string -> Option<real>,
    tryGetActuator: string -> Option<Values.ActuatorId>,
    getCurrentSeconds: Option<int>,
    parseTimeLiteral: Option<string -> int>)

  function Done(r: RuleReturn): Result {
    Result(r, [])
  }

  function BoolReturn(b: bool): RuleReturn {
    RFloat(if b then 1.0 else 0.0)
  }

  /** A clock or time-parser answer: a negative number of seconds is TIME_ERROR. */
  function Seconds(secs: int): (r: RuleReturn)
    ensures secs < 0 <==> r == RError(TimeError)
    ensures secs >= 0 <==> r == RFloat(secs as real)
  {
    if secs < 0 then RError(TimeError) else RFloat(secs as real)
  }

  /**
   * A string literal: a time literal through the parser callback, then an
   * actuator, then a sensor, then "currentTime", else UNREC_STR_ERROR.
   */
  function LEvalString(s: string, env: LegacyEnv): RuleReturn {
    if |s| > 0 && s[0] == '@' then
      Seconds(if env.parseTimeLiteral.Some? then env.parseTimeLiteral.value(s) else -1)
    else if env.tryGetActuator(s).Some? then RActuator(env.tryGetActuator(s).value)
    else if env.tryReadSensor(s).Some? then RFloat(env.tryReadSensor(s).value)
    else if s == "currentTime" then
      Seconds(if env.getCurrentSeconds.Some? then env.getCurrentSeconds.value else -1)
    else RError(UnrecStrError)
  }

  /**
   * A literal that is neither a string nor an array. An integer inside the
   * 32-bit range is cast to float and one outside it is read as a float,
   * which is the same number here.
   */
  function LEvalScalar(e: Json): RuleReturn
    requires !e.JString? && !e.JArray?
  {
    match e
    case JBool(b) => BoolReturn(b)
    case JInt(n) => RFloat(n as real)
    case JFloat(x) => RFloat(x)
    case _ => RError(UnrecTypeError)
  }

  /** The legacy processRuleCore. */
  function LEval(e: Json, env: LegacyEnv): Result
    decreases e, 4
  {
    match e
    case JString(s) => Done(LEvalString(s, env))
    case JArray(items) => LEvalCall(items, env)
    case _ => Done(LEvalScalar(e))
  }

  /** Argument k of a call; past the end of the array it is a JSON null. */
  function LArg(items: seq<Json>, k: nat, env: LegacyEnv): (r: Result)
    ensures k >= |items| ==> r == Done(RError(UnrecTypeError))
    decreases JArray(items), 0
  {
    if k < |items| then LEval(items[k], env) else Done(LEvalScalar(JNull))
  }

  function LEvalCall(items: seq<Json>, env: LegacyEnv): Result
    decreases JArray(items), 3
  {
    if |items| == 0 || !items[0].JString? then Done(RError(UnrecFuncError))
    else
      match OperatorNamed(items[0].s)
      case None => Done(RError(UnrecFuncError))
      case Some(op) => LEvalOp(op, items, env)
  }

  function LEvalOp(op: Builtin, items: seq<Json>, env: LegacyEnv): Result
    decreases JArray(items), 2
  {
    match op
    case NOP => Done(RVoid)
    case IF => LEvalIf(items, env)
    case SET => LEvalSet(items, env)
    case AND => LEvalAndOr(op, items, env)
    case OR => LEvalAndOr(op, items, env)
    case NOT => LEvalNot(items, env)
    case _ => LEvalCompare(op, items, env)
  }

  /** IF: the condition must be a float; one branch is evaluated. */
  function LEvalIf(items: seq<Json>, env: LegacyEnv): Result
    decreases JArray(items), 1
  {
    var c := LArg(items, 1, env);
    if c.ret.RError? then c
    else if !c.ret.RFloat? then Result(RError(IfConditionError), c.writes)
    else
      var b := if c.ret.val > 0.0 then LArg(items, 2, env) else LArg(items, 3, env);
      Result(b.ret, c.writes + b.writes)
  }

  /** SET: both operands are evaluated; an actuator and a float drive the actuator. */
  function LEvalSet(items: seq<Json>, env: LegacyEnv): Result
    decreases JArray(items), 1
  {
    var act := LArg(items, 1, env);
    var v := LArg(items, 2, env);
    var ws := act.writes + v.writes;
    if act.ret.RError? then Result(act.ret, ws)
    else if v.ret.RError? then Result(v.ret, ws)
    else if !act.ret.RActuator? || !v.ret.RFloat? then Result(RError(BoolActuatorError), ws)
    else Result(RVoid, ws + [Write(act.ret.setter, v.ret.val)])
  }

  /** AND and OR share one body; the short circuit reads the `val` field of any type. */
  function LEvalAndOr(op: Builtin, items: seq<Json>, env: LegacyEnv): Result
    requires op == AND || op == OR
    decreases JArray(items), 1
  {
    var a := LArg(items, 1, env);
    if a.ret.RError? then a
    else if op == AND && !(Val(a.ret) > 0.0) then Result(BoolReturn(false), a.writes)
    else if op == OR && Val(a.ret) > 0.0 then Result(BoolReturn(true), a.writes)
    else
      var b := LArg(items, 2, env);
      var ws := a.writes + b.writes;
      if b.ret.RError? then Result(b.ret, ws)
      else if !a.ret.RFloat? || !b.ret.RFloat? then Result(RError(AndOrError), ws)
      else
        var x, y := a.ret.val > 0.0, b.ret.val > 0.0;
        Result(BoolReturn(if op == AND then x && y else x || y), ws)
  }

  function LEvalNot(items: seq<Json>, env: LegacyEnv): Result
    decreases JArray(items), 1
  {
    var a := LArg(items, 1, env);
    if a.ret.RError? then a
    else if !a.ret.RFloat? then Result(RError(NotError), a.writes)
    else Result(BoolReturn(!(a.ret.val > 0.0)), a.writes)
  }

  /** The comparison `op` on two floats. */
  predicate Compares(op: Builtin, x: real, y: real)
    requires op.IsComparison()
  {
    match op
    case EQ => x == y
    case NE => x != y
    case GT => x > y
    case LT => x < y
    case GTE => x >= y
    case LTE => x <= y
  }

  /** All six comparisons demand two floats. */
  function LEvalCompare(op: Builtin, items: seq<Json>, env: LegacyEnv): Result
    requires op.IsComparison()
    decreases JArray(items), 1
  {
    var a := LArg(items, 1, env);
    var b := LArg(items, 2, env);
    var ws := a.writes + b.writes;
    if a.ret.RError? then Result(a.ret, ws)
    else if b.ret.RError? then Result(b.ret, ws)
    else if !a.ret.RFloat? || !b.ret.RFloat? then Result(RError(ComparisonTypeEqualityError), ws)
    else Result(BoolReturn(Compares(op, a.ret.val, b.ret.val)), ws)
  }
}
