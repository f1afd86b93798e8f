// The rule evaluator (processRuleCore). A rule is a JSON tree: a string,
// number or boolean is a literal, an array ["NAME", arg1, ...] is a call.
// Evaluation yields a Value and, because SET drives actuators as it goes,
// the sequence of setter calls made on the way, in the order they happen.
//
// Two dispatch modes are modelled. BuiltIns is the chain of operator-name
// tests of core.cpp, where unknown strings fall back to a value-reading
// callback. Registered looks the name up in a function registry, checks the
// argument count each registry handler insists on, and reports a name
// that is not registered as FUNCTION_NOT_FOUND.

module Core {
  import opened Wrappers
  import opened Values
  import opened RuleJson
  import opened Registry
  import opened Sensors
  import TimeLiteral

  /** A value together with the setter calls made while computing it. */
  datatype Outcome = Outcome(value: Value, writes: seq<Write>)

  /** How call names and otherwise unknown strings are resolved. */
  datatype Lookup =
    | BuiltIns(readValue: string -> Option<Value>)
    | Registered(handlers: map<string, Handler>, sensors: Snapshot)

  /**
   * The evaluation environment. A missing callback of the source is a
   * function that answers None for every name.
   */
  datatype Env = Env(tryGetActuator: string -> Option<ActuatorId>, lookup: Lookup)

  /** An actuator the environment can hand out, by name or as a read value. */
  ghost predicate Resolvable(env: Env, id: ActuatorId) {
    exists name: string ::
      env.tryGetActuator(name) == Some(id)
      || (env.lookup.BuiltIns? && env.lookup.readValue(name) == Some(Actuator(id)))
  }

  /** Every actuator the outcome refers to or drove came from the environment. */
  ghost predicate Sound(env: Env, o: Outcome) {
    (o.value.Actuator? ==> Resolvable(env, o.value.setter))
    && (forall w :: w in o.writes ==> Resolvable(env, w.actuator))
  }

  function Pure(v: Value): Outcome {
    Outcome(v, [])
  }

  /** A truth value as the engine returns it: Float 1.0 or 0.0. */
  function Bool(b: bool): Value {
    Float(if b then 1.0 else 0.0)
  }

  predicate IsTruthValue(v: Value) {
    v == Float(1.0) || v == Float(0.0)
  }

  /** A value counts as true when its float reading is positive. */
  predicate Truthy(v: Value) {
    AsFloat(v) > 0.0
  }

  /**
   * A string literal: a time literal, else an actuator name, else a value
   * the environment can read, else UNREC_STR_ERROR.
   */
  function EvalString(s: string, env: Env): (r: Value)
    ensures r.Actuator? ==> Resolvable(env, r.setter)
    ensures TimeLiteral.JsonIsTimeLiteral(s) ==> r.Int? || r == Error(TimeError)
  {
    if TimeLiteral.JsonIsTimeLiteral(s) then
      var secs := TimeLiteral.ParseTimeLiteral(s);
      if secs < 0 then Error(TimeError) else Int(secs)
    else
      match env.tryGetActuator(s)
      case Some(id) => Actuator(id)
      case None =>
        if env.lookup.BuiltIns? && env.lookup.readValue(s).Some? then
          var v := env.lookup.readValue(s).value;
          assert v.Actuator? ==> env.lookup.readValue(s) == Some(Actuator(v.setter));
          v
        else Error(UnrecStr)
  }

  /**
   * A literal that is neither a string nor an array. An integer outside
   * the 32-bit range is not an `int` to the JSON library and is read as a
   * float.
   */
  function EvalScalar(e: Json): (r: Value)
    requires !e.JString? && !e.JArray?
    ensures !r.Str? && !r.Actuator? && !r.Void?
    ensures r.Error? <==> e.JNull? || e.JObject?
  {
    match e
    case JBool(b) => Bool(b)
    case JInt(n) => if InIntRange(n) then Int(n) else Float(n as real)
    case JFloat(x) => Float(x)
    case _ => Error(UnrecType)
  }

  /** Evaluate a rule expression. */
  function Eval(e: Json, env: Env): (r: Outcome)
    ensures Sound(env, r)
    ensures !e.JArray? ==> r.writes == []
    decreases e, 4
  {
    match e
    case JString(s) => Pure(EvalString(s, env))
    case JArray(items) => EvalCall(items, env)
    case _ => Pure(EvalScalar(e))
  }

  /**
   * Argument k of a call. Reading past the end of the array yields a JSON
   * null, which evaluates to UNREC_TYPE_ERROR.
   */
  function Arg(items: seq<Json>, k: nat, env: Env): (r: Outcome)
    ensures Sound(env, r)
    ensures k >= |items| ==> r == Pure(Error(UnrecType))
    decreases JArray(items), 0
  {
    if k < |items| then Eval(items[k], env) else Pure(EvalScalar(JNull))
  }

  /** A call ["NAME", args...]. */
  function EvalCall(items: seq<Json>, env: Env): (r: Outcome)
    ensures Sound(env, r)
    decreases JArray(items), 3
  {
    if |items| == 0 || !items[0].JString? then Pure(Error(UnrecFunc))
    else
      var name := items[0].s;
      match env.lookup
      case BuiltIns(_) =>
        (match OperatorNamed(name)
         case Some(op) => EvalOp(op, items, env)
         case None => Pure(Error(UnrecFunc)))
      case Registered(handlers, sensors) =>
        if name !in handlers then Pure(Error(FunctionNotFound))
        else
          match handlers[name]
          case Core(op) =>
            if Arity(op).Some? && |items| != Arity(op).value then Pure(Error(ArityError(op)))
            else EvalOp(op, items, env)
          case Sensor(kind) => Pure(ValidateZeroArgSensor(|items|, Reading(kind, sensors)))
  }

  /** The operator `op` applied to the arguments of `items` (items[0] is its name). */
  function EvalOp(op: Builtin, items: seq<Json>, env: Env): (r: Outcome)
    ensures Sound(env, r)
    ensures op.IsComparison() || op == AND || op == OR || op == NOT ==> r.value.Error? || IsTruthValue(r.value)
    ensures op == SET || op == NOP ==> r.value.Error? || r.value.Void?
    decreases JArray(items), 2
  {
    match op
    case NOP => Pure(Void)
    case IF => EvalIf(items, env)
    case SET => EvalSet(items, env)
    case AND => EvalAnd(items, env)
    case OR => EvalOr(items, env)
    case NOT => EvalNot(items, env)
    case _ => EvalCompare(op, items, env)
  }

  /** IF: only the branch the condition selects is evaluated. */
  function EvalIf(items: seq<Json>, env: Env): (r: Outcome)
    ensures Sound(env, r)
    decreases JArray(items), 1
  {
    var c := Arg(items, 1, env);
    if c.value.Error? then c
    else if !c.value.IsNumeric() then Outcome(Error(IfCondition), c.writes)
    else
      var b := if Truthy(c.value) then Arg(items, 2, env) else Arg(items, 3, env);
      Outcome(b.value, c.writes + b.writes)
  }

  /**
   * SET: both operands are evaluated, then the actuator is driven with the
   * float reading of the value.
   */
  function EvalSet(items: seq<Json>, env: Env): (r: Outcome)
    ensures Sound(env, r)
    ensures r.value.Error? || r.value.Void?
    decreases JArray(items), 1
  {
    var act := Arg(items, 1, env);
    var val := Arg(items, 2, env);
    var ws := act.writes + val.writes;
    if act.value.Error? then Outcome(act.value, ws)
    else if val.value.Error? then Outcome(val.value, ws)
    else if !act.value.Actuator? || !val.value.IsNumeric() then Outcome(Error(BoolActuator), ws)
    else Outcome(Void, ws + [Write(act.value.setter, AsFloat(val.value))])
  }

  /** AND: a first operand that is not positive decides the result alone. */
  function EvalAnd(items: seq<Json>, env: Env): (r: Outcome)
    ensures Sound(env, r)
    ensures r.value.Error? || IsTruthValue(r.value)
    decreases JArray(items), 1
  {
    var a := Arg(items, 1, env);
    if a.value.Error? then a
    else if !Truthy(a.value) then Outcome(Bool(false), a.writes)
    else
      var b := Arg(items, 2, env);
      if b.value.Error? then Outcome(b.value, a.writes + b.writes)
      else if !a.value.IsNumeric() || !b.value.IsNumeric() then Outcome(Error(AndOr), a.writes + b.writes)
      else Outcome(Bool(Truthy(a.value) && Truthy(b.value)), a.writes + b.writes)
  }

  /** OR: a positive first operand decides the result alone. */
  function EvalOr(items: seq<Json>, env: Env): (r: Outcome)
    ensures Sound(env, r)
    ensures r.value.Error? || IsTruthValue(r.value)
    decreases JArray(items), 1
  {
    var a := Arg(items, 1, env);
    if a.value.Error? then a
    else if Truthy(a.value) then Outcome(Bool(true), a.writes)
    else
      var b := Arg(items, 2, env);
      if b.value.Error? then Outcome(b.value, a.writes + b.writes)
      else if !a.value.IsNumeric() || !b.value.IsNumeric() then Outcome(Error(AndOr), a.writes + b.writes)
      else Outcome(Bool(Truthy(a.value) || Truthy(b.value)), a.writes + b.writes)
  }

  function EvalNot(items: seq<Json>, env: Env): (r: Outcome)
    ensures Sound(env, r)
    ensures r.value.Error? || IsTruthValue(r.value)
    decreases JArray(items), 1
  {
    var a := Arg(items, 1, env);
    if a.value.Error? then a
    else if !a.value.IsNumeric() then Outcome(Error(Not), a.writes)
    else Outcome(Bool(!Truthy(a.value)), a.writes)
  }

  /** The ordering operator named by `op`, on two values. */
  predicate Ordered(op: Builtin, a: Value, b: Value)
    requires op.IsOrdering()
  {
    match op
    case GT => Greater(a, b)
    case LT => Less(a, b)
    case GTE => GreaterEq(a, b)
    case LTE => LessEq(a, b)
  }

  /**
   * EQ and NE compare any two non-error values with the value equality;
   * the four orderings insist on numbers.
   */
  function EvalCompare(op: Builtin, items: seq<Json>, env: Env): (r: Outcome)
    requires op.IsComparison()
    ensures Sound(env, r)
    ensures r.value.Error? || IsTruthValue(r.value)
    decreases JArray(items), 1
  {
    var a := Arg(items, 1, env);
    var b := Arg(items, 2, env);
    var ws := a.writes + b.writes;
    if a.value.Error? then Outcome(a.value, ws)
    else if b.value.Error? then Outcome(b.value, ws)
    else if op == EQ then Outcome(Bool(Equal(a.value, b.value)), ws)
    else if op == NE then Outcome(Bool(NotEqual(a.value, b.value)), ws)
    else if !a.value.IsNumeric() || !b.value.IsNumeric() then Outcome(Error(ComparisonType), ws)
    else Outcome(Bool(Ordered(op, a.value, b.value)), ws)
  }
}
