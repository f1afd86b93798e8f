// What the evaluator promises about each operator, stated on whole call
// expressions: the order string literals are resolved in, error
// propagation (the first operand's error wins), short-circuiting of AND and
// OR, IF evaluating one branch only, SET driving its actuator exactly once,
// and the errors for unknown names and wrong argument counts.

module CoreLaws {
  import opened Wrappers
  import opened Values
  import opened RuleJson
  import opened Registry
  import opened Sensors
  import opened Core
  import TimeLiteral

  /** The rule expression ["NAME", args...] calling `op`. */
  function Call(op: Builtin, args: seq<Json>): Json {
    JArray([JString(OperatorName(op))] + args)
  }

  /**
   * The environment sends a call of `op` with `n` array elements to the
   * operator itself: always with built-in dispatch, and with registry
   * dispatch when the name is registered to `op` and the count is right.
   */
  predicate Routes(env: Env, op: Builtin, n: nat) {
    match env.lookup
    case BuiltIns(_) => true
    case Registered(handlers, _) =>
      OperatorName(op) in handlers && handlers[OperatorName(op)] == Core(op)
      && (Arity(op).None? || Arity(op).value == n)
  }

  /** A call that is routed to its operator evaluates as that operator. */
  lemma CallRoutes(env: Env, op: Builtin, args: seq<Json>)
    requires Routes(env, op, |args| + 1)
    ensures Eval(Call(op, args), env) == EvalOp(op, [JString(OperatorName(op))] + args, env)
  {
    OperatorNameRoundTrip(op, OperatorName(op));
  }

  /** The arguments of a call, as the operator sees them. */
  lemma ArgsOfCall(op: Builtin, args: seq<Json>, env: Env, k: nat)
    requires 1 <= k
    ensures Arg([JString(OperatorName(op))] + args, k, env)
            == if k - 1 < |args| then Eval(args[k - 1], env) else Pure(Error(UnrecType))
  {
  }

  // ---------------------------------------------------------------------
  // Literals
  // ---------------------------------------------------------------------

  /**
   * String literals: a time literal is read as seconds or TIME_ERROR and is
   * never looked up as an actuator; any other string is an actuator name
   * first, a readable value second, and UNREC_STR_ERROR otherwise. No
   * literal drives an actuator.
   */
  lemma StringResolutionOrder(s: string, env: Env)
    ensures Eval(JString(s), env).writes == []
    ensures TimeLiteral.JsonIsTimeLiteral(s) ==>
              var secs := TimeLiteral.ParseTimeLiteral(s);
              Eval(JString(s), env).value == if secs < 0 then Error(TimeError) else Int(secs)
    ensures !TimeLiteral.JsonIsTimeLiteral(s) && env.tryGetActuator(s).Some? ==>
              Eval(JString(s), env).value == Actuator(env.tryGetActuator(s).value)
    ensures !TimeLiteral.JsonIsTimeLiteral(s) && env.tryGetActuator(s).None?
            && env.lookup.BuiltIns? && env.lookup.readValue(s).Some? ==>
              Eval(JString(s), env).value == env.lookup.readValue(s).value
    ensures !TimeLiteral.JsonIsTimeLiteral(s) && env.tryGetActuator(s).None?
            && (env.lookup.Registered? || env.lookup.readValue(s).None?) ==>
              Eval(JString(s), env).value == Error(UnrecStr)
  {
  }

  /** A time literal is never mistaken for an actuator, whatever the resolver says. */
  lemma TimeLiteralNeverActuator(s: string, env: Env)
    requires TimeLiteral.JsonIsTimeLiteral(s)
    ensures !Eval(JString(s), env).value.Actuator?
    ensures Eval(JString(s), env).value.Int? ==> 0 <= Eval(JString(s), env).value.i < TimeLiteral.SecondsPerDay
  {
  }

  /** Booleans read as 1.0 and 0.0, 32-bit integers as Int, other numbers as Float. */
  lemma ScalarLiterals(env: Env, b: bool, n: int, x: real)
    ensures Eval(JBool(b), env) == Pure(Float(if b then 1.0 else 0.0))
    ensures InIntRange(n) ==> Eval(JInt(n), env) == Pure(Int(n))
    ensures !InIntRange(n) ==> Eval(JInt(n), env) == Pure(Float(n as real))
    ensures Eval(JFloat(x), env) == Pure(Float(x))
    ensures Eval(JNull, env) == Pure(Error(UnrecType)) && Eval(JObject, env) == Pure(Error(UnrecType))
  {
  }

  // ---------------------------------------------------------------------
  // Calls that do not reach an operator
  // ---------------------------------------------------------------------

  /** An empty array, or one whose first element is not a string, is not a call. */
  lemma NotACall(items: seq<Json>, env: Env)
    requires |items| == 0 || !items[0].JString?
    ensures Eval(JArray(items), env) == Pure(Error(UnrecFunc))
  {
  }

  /**
   * An unknown name: UNREC_FUNC_ERROR with built-in dispatch,
   * FUNCTION_NOT_FOUND with registry dispatch. No argument is evaluated.
   */
  lemma UnknownName(name: string, args: seq<Json>, env: Env)
    ensures env.lookup.BuiltIns? && OperatorNamed(name).None? ==>
              Eval(JArray([JString(name)] + args), env) == Pure(Error(UnrecFunc))
    ensures env.lookup.Registered? && name !in env.lookup.handlers ==>
              Eval(JArray([JString(name)] + args), env) == Pure(Error(FunctionNotFound))
  {
  }

  /**
   * A registry handler refuses a call with the wrong number of elements
   * with its own error code, before evaluating any argument.
   */
  lemma WrongArity(name: string, args: seq<Json>, env: Env, op: Builtin)
    requires env.lookup.Registered?
    requires name in env.lookup.handlers && env.lookup.handlers[name] == Core(op)
    requires Arity(op).Some? && |args| + 1 != Arity(op).value
    ensures Eval(JArray([JString(name)] + args), env) == Pure(Error(ArityError(op)))
  {
  }

  /** A sensor name reads the snapshot when called with no arguments, and fails otherwise. */
  lemma SensorCall(name: string, args: seq<Json>, env: Env, kind: SensorKind)
    requires env.lookup.Registered?
    requires name in env.lookup.handlers && env.lookup.handlers[name] == Sensor(kind)
    ensures args == [] ==> Eval(JArray([JString(name)] + args), env) == Pure(Float(Reading(kind, env.lookup.sensors)))
    ensures args != [] ==> Eval(JArray([JString(name)] + args), env) == Pure(Error(UnrecFunc))
  {
  }

  // ---------------------------------------------------------------------
  // The operators
  // ---------------------------------------------------------------------

  /** NOP is Void and evaluates none of its arguments, so it drives nothing. */
  lemma NopIgnoresArguments(env: Env, args: seq<Json>)
    requires Routes(env, NOP, |args| + 1)
    ensures Eval(Call(NOP, args), env) == Pure(Void)
  {
    CallRoutes(env, NOP, args);
  }

  /**
   * IF: an Error condition is returned as it is; a condition that is not a
   * number is IF_CONDITION_ERROR; otherwise the result is the chosen
   * branch's value, after the condition's and that branch's setter calls.
   */
  lemma IfSemantics(env: Env, c: Json, t: Json, f: Json)
    requires Routes(env, IF, 4)
    ensures var r := Eval(Call(IF, [c, t, f]), env);
            var cv := Eval(c, env);
            (cv.value.Error? ==> r == cv)
            && (!cv.value.Error? && !cv.value.IsNumeric() ==> r == Outcome(Error(IfCondition), cv.writes))
            && (cv.value.IsNumeric() && AsFloat(cv.value) > 0.0 ==>
                  r == Outcome(Eval(t, env).value, cv.writes + Eval(t, env).writes))
            && (cv.value.IsNumeric() && AsFloat(cv.value) <= 0.0 ==>
                  r == Outcome(Eval(f, env).value, cv.writes + Eval(f, env).writes))
  {
    var items := [JString(OperatorName(IF))] + [c, t, f];
    CallRoutes(env, IF, [c, t, f]);
    assert Eval(Call(IF, [c, t, f]), env) == EvalIf(items, env);
    assert Arg(items, 1, env) == Eval(c, env) by { assert items[1] == c; }
    assert Arg(items, 2, env) == Eval(t, env) by { assert items[2] == t; }
    assert Arg(items, 3, env) == Eval(f, env) by { assert items[3] == f; }
  }

  /** The branch IF does not take has no effect at all: it may be anything. */
  lemma IfUntakenBranchIrrelevant(env: Env, c: Json, t: Json, f: Json, t': Json, f': Json)
    requires Routes(env, IF, 4)
    requires Eval(c, env).value.IsNumeric()
    ensures AsFloat(Eval(c, env).value) > 0.0 ==> Eval(Call(IF, [c, t, f]), env) == Eval(Call(IF, [c, t, f']), env)
    ensures AsFloat(Eval(c, env).value) <= 0.0 ==> Eval(Call(IF, [c, t, f]), env) == Eval(Call(IF, [c, t', f]), env)
  {
    IfSemantics(env, c, t, f);
    IfSemantics(env, c, t, f');
    IfSemantics(env, c, t', f);
  }

  /** A SET call evaluates as SET of its two operands' outcomes. */
  lemma SetOperands(env: Env, act: Json, val: Json)
    requires Routes(env, SET, 3)
    ensures Eval(Call(SET, [act, val]), env) == EvalSet([JString(OperatorName(SET)), act, val], env)
    ensures Arg([JString(OperatorName(SET)), act, val], 1, env) == Eval(act, env)
    ensures Arg([JString(OperatorName(SET)), act, val], 2, env) == Eval(val, env)
  {
    var items := [JString(OperatorName(SET))] + [act, val];
    assert items == [JString(OperatorName(SET)), act, val];
    CallRoutes(env, SET, [act, val]);
  }

  /**
   * SET evaluates both operands. The actuator's error is reported before
   * the value's; then a non-actuator or non-numeric operand is
   * BOOL_ACTUATOR_ERROR; otherwise the actuator is driven once with the
   * value's float reading, after every setter call of the operands, and the
   * result is Void.
   */
  lemma SetSemantics(env: Env, act: Json, val: Json)
    requires Routes(env, SET, 3)
    ensures var r := Eval(Call(SET, [act, val]), env);
            var a := Eval(act, env);
            var v := Eval(val, env);
            var ws := a.writes + v.writes;
            (a.value.Error? ==> r == Outcome(a.value, ws))
            && (!a.value.Error? && v.value.Error? ==> r == Outcome(v.value, ws))
            && (!a.value.Error? && !v.value.Error? && (!a.value.Actuator? || !v.value.IsNumeric()) ==>
                  r == Outcome(Error(BoolActuator), ws))
            && (a.value.Actuator? && v.value.IsNumeric() ==>
                  r == Outcome(Void, ws + [Write(a.value.setter, AsFloat(v.value))]))
  {
    SetOperands(env, act, val);
    var items := [JString(OperatorName(SET)), act, val];
    var a, v := Eval(act, env), Eval(val, env);
    if a.value.Actuator? && v.value.IsNumeric() {
      assert EvalSet(items, env) == Outcome(Void, a.writes + v.writes + [Write(a.value.setter, AsFloat(v.value))]);
    }
  }

  /** ["SET", "relay_k", n] drives the resolved actuator with n and nothing else. */
  lemma SetNamedActuator(env: Env, name: string, id: ActuatorId, n: int)
    requires Routes(env, SET, 3)
    requires !TimeLiteral.JsonIsTimeLiteral(name) && env.tryGetActuator(name) == Some(id)
    requires InIntRange(n)
    ensures Eval(Call(SET, [JString(name), JInt(n)]), env) == Outcome(Void, [Write(id, n as real)])
  {
    SetSemantics(env, JString(name), JInt(n));
  }

  lemma AndOperands(env: Env, a: Json, b: Json)
    requires Routes(env, AND, 3)
    ensures Eval(Call(AND, [a, b]), env) == EvalAnd([JString(OperatorName(AND)), a, b], env)
    ensures Arg([JString(OperatorName(AND)), a, b], 1, env) == Eval(a, env)
    ensures Arg([JString(OperatorName(AND)), a, b], 2, env) == Eval(b, env)
  {
    var items := [JString(OperatorName(AND))] + [a, b];
    assert items == [JString(OperatorName(AND)), a, b];
    CallRoutes(env, AND, [a, b]);
  }

  lemma OrOperands(env: Env, a: Json, b: Json)
    requires Routes(env, OR, 3)
    ensures Eval(Call(OR, [a, b]), env) == EvalOr([JString(OperatorName(OR)), a, b], env)
    ensures Arg([JString(OperatorName(OR)), a, b], 1, env) == Eval(a, env)
    ensures Arg([JString(OperatorName(OR)), a, b], 2, env) == Eval(b, env)
  {
    var items := [JString(OperatorName(OR))] + [a, b];
    assert items == [JString(OperatorName(OR)), a, b];
    CallRoutes(env, OR, [a, b]);
  }

  /**
   * AND: an Error first operand is returned; a first operand that is not
   * positive gives 0.0 without evaluating the second; otherwise the
   * second's error is returned, both must be numbers (AND_OR_ERROR
   * otherwise), and the result is 1.0 exactly when both are positive.
   */
  lemma AndSemantics(env: Env, a: Json, b: Json)
    requires Routes(env, AND, 3)
    ensures var r := Eval(Call(AND, [a, b]), env);
            var av := Eval(a, env);
            var bv := Eval(b, env);
            (av.value.Error? ==> r == av)
            && (!av.value.Error? && AsFloat(av.value) <= 0.0 ==> r == Outcome(Float(0.0), av.writes))
            && (!av.value.Error? && AsFloat(av.value) > 0.0 ==>
                  r.writes == av.writes + bv.writes
                  && (bv.value.Error? ==> r.value == bv.value)
                  && (!bv.value.Error? && (!av.value.IsNumeric() || !bv.value.IsNumeric()) ==> r.value == Error(AndOr))
                  && (av.value.IsNumeric() && bv.value.IsNumeric() ==>
                        r.value == Float(if AsFloat(bv.value) > 0.0 then 1.0 else 0.0)))
  {
    AndOperands(env, a, b);
    var items := [JString(OperatorName(AND)), a, b];
    var av := Eval(a, env);
    if !av.value.Error? && Truthy(av.value) {
      assert EvalAnd(items, env).writes == av.writes + Eval(b, env).writes;
    }
  }

  /** OR, the dual: a positive first operand gives 1.0 without evaluating the second. */
  lemma OrSemantics(env: Env, a: Json, b: Json)
    requires Routes(env, OR, 3)
    ensures var r := Eval(Call(OR, [a, b]), env);
            var av := Eval(a, env);
            var bv := Eval(b, env);
            (av.value.Error? ==> r == av)
            && (!av.value.Error? && AsFloat(av.value) > 0.0 ==> r == Outcome(Float(1.0), av.writes))
            && (!av.value.Error? && AsFloat(av.value) <= 0.0 ==>
                  r.writes == av.writes + bv.writes
                  && (bv.value.Error? ==> r.value == bv.value)
                  && (!bv.value.Error? && (!av.value.IsNumeric() || !bv.value.IsNumeric()) ==> r.value == Error(AndOr))
                  && (av.value.IsNumeric() && bv.value.IsNumeric() ==>
                        r.value == Float(if AsFloat(bv.value) > 0.0 then 1.0 else 0.0)))
  {
    OrOperands(env, a, b);
    var items := [JString(OperatorName(OR)), a, b];
    var av := Eval(a, env);
    if !av.value.Error? && !Truthy(av.value) {
      assert EvalOr(items, env).writes == av.writes + Eval(b, env).writes;
    }
  }

  /**
   * Short-circuiting: once the first operand decides AND or OR, the second
   * may be anything, even a call that would fail.
   */
  lemma ShortCircuit(env: Env, a: Json, b: Json, b': Json)
    requires !Eval(a, env).value.Error?
    ensures Routes(env, AND, 3) && AsFloat(Eval(a, env).value) <= 0.0 ==>
              Eval(Call(AND, [a, b]), env) == Eval(Call(AND, [a, b']), env)
    ensures Routes(env, OR, 3) && AsFloat(Eval(a, env).value) > 0.0 ==>
              Eval(Call(OR, [a, b]), env) == Eval(Call(OR, [a, b']), env)
  {
    if Routes(env, AND, 3) {
      AndSemantics(env, a, b);
      AndSemantics(env, a, b');
    }
    if Routes(env, OR, 3) {
      OrSemantics(env, a, b);
      OrSemantics(env, a, b');
    }
  }

  /** NOT is 1.0 exactly when its numeric operand is not positive. */
  lemma NotSemantics(env: Env, a: Json)
    requires Routes(env, NOT, 2)
    ensures var r := Eval(Call(NOT, [a]), env);
            var av := Eval(a, env);
            r.writes == av.writes
            && (av.value.Error? ==> r.value == av.value)
            && (!av.value.Error? && !av.value.IsNumeric() ==> r.value == Error(Not))
            && (av.value.IsNumeric() ==> (r.value == Float(1.0) <==> AsFloat(av.value) <= 0.0))
            && (av.value.IsNumeric() ==> IsTruthValue(r.value))
  {
    var items := [JString(OperatorName(NOT))] + [a];
    CallRoutes(env, NOT, [a]);
    assert Eval(Call(NOT, [a]), env) == EvalNot(items, env);
    assert Arg(items, 1, env) == Eval(a, env) by { assert items[1] == a; }
  }

  /** A comparison call evaluates as the comparison of its two operands' outcomes. */
  lemma CompareOperands(env: Env, op: Builtin, a: Json, b: Json)
    requires op.IsComparison() && Routes(env, op, 3)
    ensures Eval(Call(op, [a, b]), env) == EvalCompare(op, [JString(OperatorName(op)), a, b], env)
    ensures Arg([JString(OperatorName(op)), a, b], 1, env) == Eval(a, env)
    ensures Arg([JString(OperatorName(op)), a, b], 2, env) == Eval(b, env)
  {
    var items := [JString(OperatorName(op))] + [a, b];
    assert items == [JString(OperatorName(op)), a, b];
    CallRoutes(env, op, [a, b]);
    assert EvalOp(op, items, env) == EvalCompare(op, items, env);
  }

  /**
   * Comparisons evaluate both operands; the first operand's error wins,
   * then the second's.
   */
  lemma ComparisonErrorOrder(env: Env, op: Builtin, a: Json, b: Json)
    requires op.IsComparison() && Routes(env, op, 3)
    ensures var r := Eval(Call(op, [a, b]), env);
            r.writes == Eval(a, env).writes + Eval(b, env).writes
            && (Eval(a, env).value.Error? ==> r.value == Eval(a, env).value)
            && (!Eval(a, env).value.Error? && Eval(b, env).value.Error? ==> r.value == Eval(b, env).value)
  {
    CompareOperands(env, op, a, b);
  }

  /** EQ and NE accept any two non-error values and always disagree. */
  lemma EqualityOperators(env: Env, a: Json, b: Json)
    requires Routes(env, EQ, 3) && Routes(env, NE, 3)
    requires !Eval(a, env).value.Error? && !Eval(b, env).value.Error?
    ensures Eval(Call(EQ, [a, b]), env).value == Float(if Equal(Eval(a, env).value, Eval(b, env).value) then 1.0 else 0.0)
    ensures Eval(Call(NE, [a, b]), env).value == Float(if Equal(Eval(a, env).value, Eval(b, env).value) then 0.0 else 1.0)
  {
    CompareOperands(env, EQ, a, b);
    CompareOperands(env, NE, a, b);
  }

  /** The orderings insist on numbers and then compare the float readings. */
  lemma OrderingOperators(env: Env, op: Builtin, a: Json, b: Json)
    requires op.IsOrdering() && Routes(env, op, 3)
    requires !Eval(a, env).value.Error? && !Eval(b, env).value.Error?
    ensures var av := Eval(a, env).value;
            var bv := Eval(b, env).value;
            var r := Eval(Call(op, [a, b]), env).value;
            (!av.IsNumeric() || !bv.IsNumeric() ==> r == Error(ComparisonType))
            && (av.IsNumeric() && bv.IsNumeric() ==>
                  var x, y := AsFloat(av), AsFloat(bv);
                  r == Float(if (op == GT && x > y) || (op == LT && x < y) || (op == GTE && x >= y) || (op == LTE && x <= y)
                             then 1.0 else 0.0))
  {
    CompareOperands(env, op, a, b);
  }
}
