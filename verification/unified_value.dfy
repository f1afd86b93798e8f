// The tagged value every rule expression evaluates to (UnifiedValue):
// its kinds, the error codes it can carry, the conversions to float and
// int (with the strict and the two-stage string parses behind them), the
// error-aware comparison operators and the factories.

module Values {
  import opened Wrappers
  import opened Text

  /** Error codes carried by an Error value. */
  datatype ErrorCode =
    | NoError
    | ParseError
    | TypeConversionError
    | UnrecType
    | UnrecFunc
    | UnrecStr
    | IfCondition
    | BoolActuator
    | AndOr
    | Not
    | ComparisonType
    | TimeError
    | UnrecActuator
    | SensorRead
    | ActuatorSet
    // reported by the registry-dispatching evaluator for a name it does not know
    | FunctionNotFound

  /** An actuator setter is identified by the relay index it is bound to. */
  type ActuatorId = int

  datatype Value =
    | Float(f: real)
    | Int(i: int)
    | Str(s: string)
    | Void
    | Actuator(setter: ActuatorId)
    | Error(code: ErrorCode)
  {
    predicate IsNumeric() {
      Float? || Int?
    }
  }

  const IntMin: int := -0x8000_0000
  const IntMax: int := 0x7fff_ffff

  predicate InIntRange(n: int) {
    IntMin <= n <= IntMax
  }

  /** The error code of a value: its own code for an Error, NO_ERROR otherwise. */
  function ErrorCodeOf(v: Value): ErrorCode {
    if v.Error? then v.code else NoError
  }

  // ---------------------------------------------------------------------
  // Strict number parsing (strtof / strtol over decimal notation)
  // ---------------------------------------------------------------------

  function Pow10(n: nat): (p: nat)
    ensures p >= 1
  {
    if n == 0 then 1 else 10 * Pow10(n - 1)
  }

  predicate HasSign(s: string) {
    |s| > 0 && (s[0] == '-' || s[0] == '+')
  }

  /** The text after an optional leading sign. */
  function Unsigned(s: string): string {
    if HasSign(s) then s[1..] else s
  }

  function ApplySign(s: string, x: real): real {
    if |s| > 0 && s[0] == '-' then -x else x
  }

  /**
   * An unsigned decimal `digits ['.' digits]` with at least one digit,
   * consumed in full; None when strtof would stop early or read nothing.
   */
  function ParseDecimal(body: string): Option<real> {
    var whole := LeadingDigits(body);
    var rest := body[|whole|..];
    if |rest| == 0 then
      if |whole| == 0 then None else Some(DigitsValue(whole) as real)
    else if rest[0] == '.' && AllDigits(rest[1..]) && |body| > 1 then
      Some(DigitsValue(whole) as real + DigitsValue(rest[1..]) as real / Pow10(|rest| - 1) as real)
    else
      None
  }

  /** strtof with the whole text required to convert. */
  function ParseStrictReal(s: string): Option<real> {
    match ParseDecimal(Unsigned(s))
    case Some(x) => Some(ApplySign(s, x))
    case None => None
  }

  /** strtol in base 10 with the whole text required to convert. */
  function ParseStrictInt(s: string): Option<int> {
    var body := Unsigned(s);
    if |body| > 0 && AllDigits(body) then
      Some(if |s| > 0 && s[0] == '-' then 0 - DigitsValue(body) as int else DigitsValue(body) as int)
    else
      None
  }

  /** parseStringAsFloat: the strict parse, or 0 when it fails. */
  function StringAsFloat(s: string): real {
    match ParseStrictReal(s)
    case Some(x) => x
    case None => 0.0
  }

  /** isValidZeroFloat: whether strtof converts the whole text. */
  predicate IsValidZeroFloat(s: string) {
    ParseStrictReal(s).Some?
  }

  /** static_cast<int> of a float: truncation toward zero. */
  function Trunc(x: real): int {
    if x >= 0.0 then x.Floor else -((-x).Floor)
  }

  /**
   * parseStringAsInt: a pure integer within the int range first; then the
   * strict float parse truncated, when it converted; otherwise 0.
   */
  function StringAsInt(s: string): int {
    var whole := ParseStrictInt(s);
    if whole.Some? && InIntRange(whole.value) then whole.value
    else
      var x := StringAsFloat(s);
      if x != 0.0 || IsValidZeroFloat(s) then Trunc(x) else 0
  }

  // ---------------------------------------------------------------------
  // Conversions
  // ---------------------------------------------------------------------

  function AsFloat(v: Value): real {
    match v
    case Float(f) => f
    case Int(i) => i as real
    case Str(s) => StringAsFloat(s)
    case _ => 0.0
  }

  function AsInt(v: Value): int {
    match v
    case Int(i) => i
    case Float(f) => Trunc(f)
    case Str(s) => StringAsInt(s)
    case _ => 0
  }

  // ---------------------------------------------------------------------
  // Comparison operators
  // ---------------------------------------------------------------------

  predicate Equal(a: Value, b: Value) {
    if a.Error? || b.Error? then false
    else if a.Str? && b.Str? then a.s == b.s
    else AsFloat(a) == AsFloat(b)
  }

  predicate NotEqual(a: Value, b: Value) {
    !Equal(a, b)
  }

  predicate Greater(a: Value, b: Value) {
    !a.Error? && !b.Error? && AsFloat(a) > AsFloat(b)
  }

  predicate Less(a: Value, b: Value) {
    !a.Error? && !b.Error? && AsFloat(a) < AsFloat(b)
  }

  predicate GreaterEq(a: Value, b: Value) {
    !a.Error? && !b.Error? && AsFloat(a) >= AsFloat(b)
  }

  predicate LessEq(a: Value, b: Value) {
    !a.Error? && !b.Error? && AsFloat(a) <= AsFloat(b)
  }

  // ---------------------------------------------------------------------
  // Factories and setter access
  // ---------------------------------------------------------------------

  function CreateVoid(): (r: Value)
    ensures r.Void? && ErrorCodeOf(r) == NoError
    ensures !r.IsNumeric() && AsFloat(r) == 0.0 && AsInt(r) == 0
  {
    Void
  }

  function CreateError(c: ErrorCode): (r: Value)
    ensures r.Error? && ErrorCodeOf(r) == c
    ensures forall v :: !Equal(r, v) && !Equal(v, r)
  {
    Error(c)
  }

  function CreateActuator(id: ActuatorId): (r: Value)
    ensures r.Actuator? && ErrorCodeOf(r) == NoError && !r.IsNumeric()
  {
    Actuator(id)
  }

  /** The bound setter of an Actuator value; none for every other kind. */
  function GetActuatorSetter(v: Value): (r: Option<ActuatorId>)
    ensures r.Some? <==> v.Actuator?
    ensures r.Some? ==> v == CreateActuator(r.value)
  {
    if v.Actuator? then Some(v.setter) else None
  }

  // ---------------------------------------------------------------------
  // Properties
  // ---------------------------------------------------------------------

  lemma TruncOfInt(n: int)
    ensures Trunc(n as real) == n
  {
  }

  /** Every string the strict integer parse accepts converts to the same float. */
  lemma StrictIntIsStrictReal(s: string)
    requires ParseStrictInt(s).Some?
    ensures ParseStrictReal(s) == Some(ParseStrictInt(s).value as real)
  {
    var body := Unsigned(s);
    LeadingDigitsOfDigits(body);
    assert body[|body|..] == [];
  }

  /**
   * The two-stage integer parse agrees with truncating the strict float
   * parse, on every string.
   */
  lemma StringAsIntIsTruncatedFloat(s: string)
    ensures StringAsInt(s) == Trunc(StringAsFloat(s))
  {
    var whole := ParseStrictInt(s);
    if whole.Some? {
      StrictIntIsStrictReal(s);
      TruncOfInt(whole.value);
    }
  }

  /** asInt is asFloat truncated toward zero, for every kind of value. */
  lemma AsIntIsTruncatedAsFloat(v: Value)
    ensures AsInt(v) == Trunc(AsFloat(v))
  {
    match v
    case Str(s) => StringAsIntIsTruncatedFloat(s);
    case Int(i) => TruncOfInt(i);
    case _ =>
  }

  /** Characters strtof can consume in decimal notation. */
  predicate IsDecimalChar(c: char) {
    IsDigit(c) || c == '.' || c == '-' || c == '+'
  }

  lemma {:induction false} DecimalOnlyDecimalChars(body: string)
    requires ParseDecimal(body).Some?
    ensures forall k :: 0 <= k < |body| ==> IsDecimalChar(body[k])
  {
    var whole := LeadingDigits(body);
    var rest := body[|whole|..];
    assert body == whole + rest;
    forall k | 0 <= k < |body|
      ensures IsDecimalChar(body[k])
    {
      if k < |whole| {
        assert body[k] == whole[k];
      } else {
        assert body[k] == rest[k - |whole|];
        if k > |whole| {
          assert rest[k - |whole|] == rest[1..][k - |whole| - 1];
        }
      }
    }
  }

  /**
   * Strictness: a text holding any character that cannot belong to a
   * decimal number (a letter, a space, ...) converts to 0.
   */
  lemma ForeignCharParsesToZero(s: string, k: nat)
    requires k < |s| && !IsDecimalChar(s[k])
    ensures ParseStrictReal(s).None? && StringAsFloat(s) == 0.0
  {
    if ParseStrictReal(s).Some? {
      DecimalOnlyDecimalChars(Unsigned(s));
      assert false;
    }
  }

  /** Strictness on the texts the unit tests use: trailing garbage or nothing at all gives 0. */
  lemma StrictParseExamples()
    ensures AsFloat(Str("123.45abc")) == 0.0
    ensures AsFloat(Str("123.45 ")) == 0.0
    ensures AsFloat(Str("")) == 0.0
  {
    ForeignCharParsesToZero("123.45abc", 6);
    ForeignCharParsesToZero("123.45 ", 6);
  }

  lemma StrictIntParseExample()
    ensures AsInt(Str("123abc")) == 0
  {
    ForeignCharParsesToZero("123abc", 3);
    assert ParseStrictInt("123abc").None? by {
      assert !IsDigit("123abc"[3]);
    }
  }

  /** Truncation toward zero on the values the unit tests use. */
  lemma TruncationExamples()
    ensures AsInt(Float(25.5)) == 25
    ensures AsInt(Float(25.7)) == 25
    ensures AsInt(Float(-3.8)) == -3
  {
  }

  lemma ParseNegativeExample()
    ensures AsFloat(Str("-3.8")) == -3.8
    ensures AsInt(Str("-3.8")) == -3
  {
    var s := "-3.8";
    var body := "3.8";
    assert Unsigned(s) == body;
    assert LeadingDigits(body) == "3";
    assert body[1..] == ".8";
    assert DigitsValue("8") == 8;
    assert ParseStrictInt(s).None? by {
      assert !IsDigit(body[1]);
    }
    assert ParseStrictReal(s) == Some(-3.8);
    StringAsIntIsTruncatedFloat(s);
  }

  /** A text in float notation converts to the same int as the float itself. */
  lemma ParseFractionExample()
    ensures AsFloat(Str("25.7")) == 25.7
    ensures AsInt(Str("25.7")) == 25 == AsInt(Float(25.7))
  {
    var s := "25.7";
    assert Unsigned(s) == s;
    assert LeadingDigits(s) == "25";
    assert s[2..] == ".7";
    assert DigitsValue("25") == 25;
    assert ParseStrictInt(s).None? by {
      assert !IsDigit(s[2]);
    }
    assert ParseStrictReal(s) == Some(25.7);
    StringAsIntIsTruncatedFloat(s);
  }

  /** An Error is never equal to anything, itself included. */
  lemma ErrorNeverEqual(a: Value, b: Value)
    requires a.Error? || b.Error?
    ensures !Equal(a, b) && NotEqual(a, b)
    ensures !Greater(a, b) && !Less(a, b) && !GreaterEq(a, b) && !LessEq(a, b)
  {
  }

  /** Equality is symmetric, and reflexive exactly on the non-error values. */
  lemma EqualSymmetricReflexive(a: Value, b: Value)
    ensures Equal(a, b) == Equal(b, a)
    ensures Equal(a, a) <==> !a.Error?
  {
  }

  /**
   * Two strings compare by text while mixed kinds compare by asFloat, so
   * equality is not transitive across kinds.
   */
  lemma EqualNotTransitive()
    ensures Equal(Str("1"), Float(1.0)) && Equal(Float(1.0), Str("1.0"))
    ensures !Equal(Str("1"), Str("1.0"))
  {
    assert LeadingDigits("1") == "1";
    assert ParseStrictReal("1") == Some(1.0);
    var t := "1.0";
    assert LeadingDigits(t) == "1";
    assert t[1..] == ".0";
    assert ParseStrictReal(t) == Some(1.0);
  }

  /** The orderings are mirror images of each other and agree with == on numbers. */
  lemma OrderingDuality(a: Value, b: Value)
    ensures Less(a, b) == Greater(b, a) && LessEq(a, b) == GreaterEq(b, a)
    ensures !a.Error? && !b.Error? ==> (LessEq(a, b) <==> !Greater(a, b))
    ensures !a.Error? && !b.Error? ==> (GreaterEq(a, b) <==> !Less(a, b))
    ensures !(a.Str? && b.Str?) ==> (Equal(a, b) <==> LessEq(a, b) && GreaterEq(a, b))
  {
  }

  /** The setter read back from a freshly created actuator is the one it was created with. */
  lemma ActuatorRoundTrip(id: ActuatorId)
    ensures GetActuatorSetter(CreateActuator(id)) == Some(id)
    ensures GetActuatorSetter(CreateVoid()).None? && GetActuatorSetter(Float(1.0)).None?
  {
  }
}
