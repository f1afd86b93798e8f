// SensorValue, the earlier three-kind value (float, int, string) that
// UnifiedValue grew out of. It has the same conversions and the same
// string-by-text equality, but no Error kind, so its comparisons never
// short-circuit to false.

module SensorValues {
  import opened Wrappers
  import Values

  datatype SensorValue = SFloat(f: real) | SInt(i: int) | SStr(s: string)

  function AsFloat(v: SensorValue): real {
    match v
    case SFloat(f) => f
    case SInt(i) => i as real
    case SStr(s) => Values.StringAsFloat(s)
  }

  function AsInt(v: SensorValue): int {
    match v
    case SInt(i) => i
    case SFloat(f) => Values.Trunc(f)
    case SStr(s) => Values.StringAsInt(s)
  }

  predicate Equal(a: SensorValue, b: SensorValue) {
    if a.SStr? && b.SStr? then a.s == b.s else AsFloat(a) == AsFloat(b)
  }

  predicate NotEqual(a: SensorValue, b: SensorValue) {
    !Equal(a, b)
  }

  predicate Less(a: SensorValue, b: SensorValue) {
    AsFloat(a) < AsFloat(b)
  }

  predicate Greater(a: SensorValue, b: SensorValue) {
    AsFloat(a) > AsFloat(b)
  }

  /** The UnifiedValue of the same kind and payload. */
  function ToUnified(v: SensorValue): (u: Values.Value)
    ensures !u.Error? && (u.IsNumeric() || u.Str?)
  {
    match v
    case SFloat(f) => Values.Float(f)
    case SInt(i) => Values.Int(i)
    case SStr(s) => Values.Str(s)
  }

  /**
   * A SensorValue converts and compares exactly as the UnifiedValue of the
   * same kind: the later type is a conservative extension of this one.
   */
  lemma AgreesWithUnified(a: SensorValue, b: SensorValue)
    ensures AsFloat(a) == Values.AsFloat(ToUnified(a))
    ensures AsInt(a) == Values.AsInt(ToUnified(a))
    ensures Equal(a, b) == Values.Equal(ToUnified(a), ToUnified(b))
    ensures NotEqual(a, b) == Values.NotEqual(ToUnified(a), ToUnified(b))
    ensures Less(a, b) == Values.Less(ToUnified(a), ToUnified(b))
    ensures Greater(a, b) == Values.Greater(ToUnified(a), ToUnified(b))
  {
  }

  /**
   * The two-stage integer parse is consistent with the float path: a text
   * that strictly parses to x gives the same int as the float x.
   */
  lemma {:induction false} AsIntConsistentWithFloat(s: string, x: real)
    requires Values.ParseStrictReal(s) == Some(x)
    ensures AsInt(SStr(s)) == AsInt(SFloat(x))
  {
    Values.StringAsIntIsTruncatedFloat(s);
  }

  /** Without an Error kind the comparisons are total away from two strings. */
  lemma Trichotomy(a: SensorValue, b: SensorValue)
    requires !(a.SStr? && b.SStr?)
    ensures Equal(a, b) || Less(a, b) || Greater(a, b)
    ensures Less(a, b) == Greater(b, a)
    ensures Equal(a, b) ==> !Less(a, b) && !Greater(a, b)
  {
  }
}
