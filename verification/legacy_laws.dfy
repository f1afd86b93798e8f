// What the float-only evaluator promises, and how it relates to the newer
// engine: on rules made of numbers, booleans and the operators that compute
// numbers, both engines produce the same number and drive nothing; they part
// ways on what the newer engine adds (integers, strings, EQ/NE on any kind).

module LegacyLaws {
  import opened Wrappers
  import opened Values
  import opened RuleJson
  import opened Registry
  import opened Core
  import opened CoreLaws
  import opened LegacyCore

  /** A call routed by name evaluates as its operator. */
  lemma LegacyCallRoutes(env: LegacyEnv, op: Builtin, args: seq<Json>)
    ensures LEval(Call(op, args), env) == LEvalOp(op, [JString(OperatorName(op))] + args, env)
  {
    OperatorNameRoundTrip(op, OperatorName(op));
  }

  /**
   * Literals: booleans and all numbers become FLOAT, integers included;
   * null and objects are UNREC_TYPE_ERROR.
   */
  lemma LegacyScalarLiterals(env: LegacyEnv, b: bool, n: int, x: real)
    ensures LEval(JBool(b), env) == Done(RFloat(if b then 1.0 else 0.0))
    ensures LEval(JInt(n), env) == Done(RFloat(n as real))
    ensures LEval(JFloat(x), env) == Done(RFloat(x))
    ensures LEval(JNull, env) == Done(RError(UnrecTypeError)) && LEval(JObject, env) == Done(RError(UnrecTypeError))
  {
  }

  /**
   * String literals: an '@' string goes to the time parser (TIME_ERROR when
   * there is none or it answers negative); otherwise an actuator name comes
   * first, a sensor second, "currentTime" third; anything else is
   * UNREC_STR_ERROR.
   */
  lemma LegacyStringOrder(s: string, env: LegacyEnv)
    ensures var r := LEval(JString(s), env);
            r.writes == []
            && (|s| > 0 && s[0] == '@' ==>
                  r.ret == (if env.parseTimeLiteral.None? || env.parseTimeLiteral.value(s) < 0 then RError(LegacyError.TimeError)
                            else RFloat(env.parseTimeLiteral.value(s) as real)))
            && (!(|s| > 0 && s[0] == '@') && env.tryGetActuator(s).Some? ==>
                  r.ret == RActuator(env.tryGetActuator(s).value))
            && (!(|s| > 0 && s[0] == '@') && env.tryGetActuator(s).None? && env.tryReadSensor(s).Some? ==>
                  r.ret == RFloat(env.tryReadSensor(s).value))
            && (!(|s| > 0 && s[0] == '@') && env.tryGetActuator(s).None? && env.tryReadSensor(s).None? ==>
                  r.ret == (if s != "currentTime" then RError(UnrecStrError)
                            else if env.getCurrentSeconds.None? || env.getCurrentSeconds.value < 0 then RError(LegacyError.TimeError)
                            else RFloat(env.getCurrentSeconds.value as real)))
  {
  }

  /**
   * IF: an error condition is returned; a condition that is not FLOAT is
   * IF_CONDITION_ERROR; otherwise only the chosen branch is evaluated.
   */
  lemma LegacyIfSemantics(env: LegacyEnv, c: Json, t: Json, f: Json)
    ensures var r := LEval(Call(IF, [c, t, f]), env);
            var cv := LEval(c, env);
            (cv.ret.RError? ==> r == cv)
            && (!cv.ret.RError? && !cv.ret.RFloat? ==> r == Result(RError(IfConditionError), cv.writes))
            && (cv.ret.RFloat? && cv.ret.val > 0.0 ==> r == Result(LEval(t, env).ret, cv.writes + LEval(t, env).writes))
            && (cv.ret.RFloat? && cv.ret.val <= 0.0 ==> r == Result(LEval(f, env).ret, cv.writes + LEval(f, env).writes))
  {
    var items := [JString(OperatorName(IF))] + [c, t, f];
    LegacyCallRoutes(env, IF, [c, t, f]);
    assert LEval(Call(IF, [c, t, f]), env) == LEvalIf(items, env);
    assert LArg(items, 1, env) == LEval(c, env) by { assert items[1] == c; }
    assert LArg(items, 2, env) == LEval(t, env) by { assert items[2] == t; }
    assert LArg(items, 3, env) == LEval(f, env) by { assert items[3] == f; }
  }

  /**
   * SET: both operands are evaluated; the actuator's error wins, then the
   * value's; an operand of the wrong type is BOOL_ACTUATOR_ERROR; otherwise
   * the actuator is driven once with the float and the result is VOID.
   */
  lemma LegacySetSemantics(env: LegacyEnv, act: Json, v: Json)
    ensures var r := LEval(Call(SET, [act, v]), env);
            var a := LEval(act, env);
            var b := LEval(v, env);
            var ws := a.writes + b.writes;
            (a.ret.RError? ==> r == Result(a.ret, ws))
            && (!a.ret.RError? && b.ret.RError? ==> r == Result(b.ret, ws))
            && (!a.ret.RError? && !b.ret.RError? && (!a.ret.RActuator? || !b.ret.RFloat?) ==>
                  r == Result(RError(BoolActuatorError), ws))
            && (a.ret.RActuator? && b.ret.RFloat? ==> r == Result(RVoid, ws + [Write(a.ret.setter, b.ret.val)]))
  {
    var items := [JString(OperatorName(SET))] + [act, v];
    LegacyCallRoutes(env, SET, [act, v]);
    assert LEval(Call(SET, [act, v]), env) == LEvalSet(items, env);
    assert LArg(items, 1, env) == LEval(act, env) by { assert items[1] == act; }
    assert LArg(items, 2, env) == LEval(v, env) by { assert items[2] == v; }
  }

  /** An AND or OR call evaluates as AND or OR of its operands' results. */
  lemma LegacyAndOrOperands(env: LegacyEnv, op: Builtin, a: Json, b: Json)
    requires op == AND || op == OR
    ensures LEval(Call(op, [a, b]), env) == LEvalAndOr(op, [JString(OperatorName(op)), a, b], env)
    ensures LArg([JString(OperatorName(op)), a, b], 1, env) == LEval(a, env)
    ensures LArg([JString(OperatorName(op)), a, b], 2, env) == LEval(b, env)
  {
    var items := [JString(OperatorName(op))] + [a, b];
    assert items == [JString(OperatorName(op)), a, b];
    LegacyCallRoutes(env, op, [a, b]);
  }

  /**
   * AND and OR decide on the first operand's `val` before the second is
   * evaluated, whatever the first operand's type: a VOID or actuator first
   * operand (val 0) makes AND false at once.
   */
  lemma LegacyShortCircuit(env: LegacyEnv, a: Json, b: Json, b': Json)
    requires !LEval(a, env).ret.RError?
    ensures !(Val(LEval(a, env).ret) > 0.0) ==>
              LEval(Call(AND, [a, b]), env) == Result(RFloat(0.0), LEval(a, env).writes)
              && LEval(Call(AND, [a, b]), env) == LEval(Call(AND, [a, b']), env)
    ensures Val(LEval(a, env).ret) > 0.0 ==>
              LEval(Call(OR, [a, b]), env) == Result(RFloat(1.0), LEval(a, env).writes)
              && LEval(Call(OR, [a, b]), env) == LEval(Call(OR, [a, b']), env)
  {
    LegacyAndOrOperands(env, AND, a, b);
    LegacyAndOrOperands(env, AND, a, b');
    LegacyAndOrOperands(env, OR, a, b);
    LegacyAndOrOperands(env, OR, a, b');
  }

  /** A comparison call evaluates as the comparison of its operands' results. */
  lemma LegacyCompareOperands(env: LegacyEnv, op: Builtin, a: Json, b: Json)
    requires op.IsComparison()
    ensures LEval(Call(op, [a, b]), env) == LEvalCompare(op, [JString(OperatorName(op)), a, b], env)
    ensures LArg([JString(OperatorName(op)), a, b], 1, env) == LEval(a, env)
    ensures LArg([JString(OperatorName(op)), a, b], 2, env) == LEval(b, env)
  {
    var items := [JString(OperatorName(op))] + [a, b];
    assert items == [JString(OperatorName(op)), a, b];
    LegacyCallRoutes(env, op, [a, b]);
    assert LEvalOp(op, items, env) == LEvalCompare(op, items, env);
  }

  /**
   * All six comparisons, EQ and NE included, demand two FLOATs: any other
   * pair of non-error operands is COMPARISON_TYPE_EQUALITY_ERROR.
   */
  lemma LegacyComparisonsNeedFloats(env: LegacyEnv, op: Builtin, a: Json, b: Json)
    requires op.IsComparison()
    requires !LEval(a, env).ret.RError? && !LEval(b, env).ret.RError?
    ensures var r := LEval(Call(op, [a, b]), env).ret;
            var x, y := LEval(a, env).ret, LEval(b, env).ret;
            (!x.RFloat? || !y.RFloat? <==> r == RError(ComparisonTypeEqualityError))
            && (x.RFloat? && y.RFloat? ==> r == RFloat(if Compares(op, x.val, y.val) then 1.0 else 0.0))
  {
    LegacyCompareOperands(env, op, a, b);
  }

  // ---------------------------------------------------------------------
  // The two engines on numeric rules
  // ---------------------------------------------------------------------

  /**
   * Rules made only of numbers, booleans and calls of IF, AND, OR, NOT and
   * the six comparisons, each with the argument count its handler expects.
   */
  predicate NumericRule(e: Json)
    decreases e
  {
    match e
    case JBool(_) => true
    case JInt(_) => true
    case JFloat(_) => true
    case JArray(items) =>
      |items| >= 2 && items[0].JString? && OperatorNamed(items[0].s).Some?
      && OperatorNamed(items[0].s).value != SET && OperatorNamed(items[0].s).value != NOP
      && Arity(OperatorNamed(items[0].s).value) == Some(|items|)
      && forall k :: 1 <= k < |items| ==> NumericRule(items[k])
    case _ => false
  }

  /** The newer engine's number and the legacy FLOAT are the same, and neither drove anything. */
  predicate Agrees(o: Outcome, r: Result) {
    o.value.IsNumeric() && o.writes == [] && r == Done(RFloat(AsFloat(o.value)))
  }

  lemma IfAgrees(items: seq<Json>, env: Env, lenv: LegacyEnv)
    requires |items| == 4
    requires forall k :: 1 <= k < 4 ==> Agrees(Arg(items, k, env), LArg(items, k, lenv))
    ensures Agrees(EvalIf(items, env), LEvalIf(items, lenv))
  {
    assert Agrees(Arg(items, 1, env), LArg(items, 1, lenv));
    assert Agrees(Arg(items, 2, env), LArg(items, 2, lenv));
    assert Agrees(Arg(items, 3, env), LArg(items, 3, lenv));
  }

  lemma AndOrAgrees(op: Builtin, items: seq<Json>, env: Env, lenv: LegacyEnv)
    requires op == AND || op == OR
    requires |items| == 3
    requires Agrees(Arg(items, 1, env), LArg(items, 1, lenv)) && Agrees(Arg(items, 2, env), LArg(items, 2, lenv))
    ensures op == AND ==> Agrees(EvalAnd(items, env), LEvalAndOr(op, items, lenv))
    ensures op == OR ==> Agrees(EvalOr(items, env), LEvalAndOr(op, items, lenv))
  {
  }

  lemma NotAgrees(items: seq<Json>, env: Env, lenv: LegacyEnv)
    requires |items| == 2
    requires Agrees(Arg(items, 1, env), LArg(items, 1, lenv))
    ensures Agrees(EvalNot(items, env), LEvalNot(items, lenv))
  {
  }

  lemma CompareAgrees(op: Builtin, items: seq<Json>, env: Env, lenv: LegacyEnv)
    requires op.IsComparison() && |items| == 3
    requires Agrees(Arg(items, 1, env), LArg(items, 1, lenv)) && Agrees(Arg(items, 2, env), LArg(items, 2, lenv))
    ensures Agrees(EvalCompare(op, items, env), LEvalCompare(op, items, lenv))
  {
    var a, b := Arg(items, 1, env).value, Arg(items, 2, env).value;
    assert Equal(a, b) <==> AsFloat(a) == AsFloat(b);
  }

  /**
   * On numeric rules the float-only evaluator and the newer engine with
   * built-in dispatch compute the same number, and neither drives an
   * actuator, whatever either environment holds.
   */
  lemma {:induction false} NumericRulesAgree(e: Json, env: Env, lenv: LegacyEnv)
    requires env.lookup.BuiltIns? && NumericRule(e)
    ensures Agrees(Eval(e, env), LEval(e, lenv))
    decreases e
  {
    match e
    case JBool(_) =>
    case JInt(_) =>
    case JFloat(_) =>
    case JArray(items) =>
      forall k | 1 <= k < |items|
        ensures Agrees(Arg(items, k, env), LArg(items, k, lenv))
      {
        NumericRulesAgree(items[k], env, lenv);
      }
      var op := OperatorNamed(items[0].s).value;
      assert Eval(e, env) == EvalOp(op, items, env);
      assert LEval(e, lenv) == LEvalOp(op, items, lenv);
      match op
      case IF => IfAgrees(items, env, lenv);
      case AND => AndOrAgrees(op, items, env, lenv);
      case OR => AndOrAgrees(op, items, env, lenv);
      case NOT => NotAgrees(items, env, lenv);
      case _ => CompareAgrees(op, items, env, lenv);
  }

  /**
   * Beyond numbers the engines part ways: EQ of two actuator names is true
   * for the newer engine, which compares their float readings, and
   * COMPARISON_TYPE_EQUALITY_ERROR for the legacy one.
   */
  lemma ActuatorEqualityDiffers(env: Env, lenv: LegacyEnv, s: string, t: string)
    requires env.lookup.BuiltIns?
    requires !(|s| > 0 && s[0] == '@') && !(|t| > 0 && t[0] == '@')
    requires env.tryGetActuator(s).Some? && env.tryGetActuator(t).Some?
    requires lenv.tryGetActuator(s).Some? && lenv.tryGetActuator(t).Some?
    ensures Eval(Call(EQ, [JString(s), JString(t)]), env).value == Float(1.0)
    ensures LEval(Call(EQ, [JString(s), JString(t)]), lenv).ret == RError(ComparisonTypeEqualityError)
  {
    assert Eval(JString(s), env).value.Actuator? && Eval(JString(t), env).value.Actuator?;
    EqualityOperators(env, JString(s), JString(t));
    LegacyComparisonsNeedFloats(lenv, EQ, JString(s), JString(t));
  }
}
