// Shared wrappers and the small pieces of C / Arduino behaviour the
// firmware leans on: C's truncating integer division, decimal digits,
// integer printing (std::to_string, Arduino String(int)) and the lenient
// integer reader (atoi, String::toInt).

module Wrappers {
  datatype Option<+T> = None | Some(value: T)
}

module Text {

  /** C integer division: the quotient is truncated toward zero. */
  function CDiv(a: int, b: int): int
    requires b != 0
  {
    if (a >= 0) == (b > 0) then (if a >= 0 then a / b else (-a) / (-b))
    else -(if a >= 0 then a / (-b) else (-a) / b)
  }

  /** C `%`: the remainder takes the sign of the dividend. */
  function CRem(a: int, b: int): (r: int)
    requires b != 0
    ensures a >= 0 ==> 0 <= r < (if b > 0 then b else -b)
    ensures a < 0 ==> -(if b > 0 then b else -b) < r <= 0
  {
    a - CDiv(a, b) * b
  }

  predicate IsDigit(c: char) {
    '0' <= c <= '9'
  }

  function DigitValue(c: char): (d: nat)
    requires IsDigit(c)
    ensures d < 10
  {
    c as int - '0' as int
  }

  function DigitChar(d: nat): (c: char)
    requires d < 10
    ensures IsDigit(c) && DigitValue(c) == d
  {
    (d + '0' as int) as char
  }

  predicate AllDigits(s: string) {
    forall i :: 0 <= i < |s| ==> IsDigit(s[i])
  }

  /** The value of a string of decimal digits, most significant digit first. */
  function DigitsValue(s: string): nat
    requires AllDigits(s)
  {
    if |s| == 0 then 0 else DigitsValue(s[..|s| - 1]) * 10 + DigitValue(s[|s| - 1])
  }

  lemma TwoDigitsValue(s: string)
    requires |s| == 2 && AllDigits(s)
    ensures DigitsValue(s) == DigitValue(s[0]) * 10 + DigitValue(s[1])
  {
    var first := s[..1];
    assert first == [s[0]] && s[..|s| - 1] == first;
    assert first[..0] == [];
    assert DigitsValue(first) == DigitValue(s[0]);
  }

  /** Decimal text of a natural number, without leading zeros. */
  function NatToString(n: nat): (r: string)
    ensures 1 <= |r| && AllDigits(r)
    ensures DigitsValue(r) == n
    ensures r[0] == '0' ==> n == 0
    decreases n
  {
    if n < 10 then [DigitChar(n)]
    else
      var prefix := NatToString(n / 10);
      var r := prefix + [DigitChar(n % 10)];
      assert r[..|r| - 1] == prefix;
      r
  }

  /** Decimal text of an integer, with a leading '-' when negative. */
  function IntToString(i: int): (r: string)
    ensures 1 <= |r|
    ensures i < 0 <==> r[0] == '-'
  {
    if i < 0 then "-" + NatToString(-i) else NatToString(i)
  }

  predicate IsSpace(c: char) {
    c == ' ' || c == '\t' || c == '\n' || c == '\r' || c as int == 11 || c as int == 12
  }

  function SkipSpaces(s: string): (r: string)
    ensures |r| <= |s| && r == s[|s| - |r|..]
    ensures |r| == 0 || !IsSpace(r[0])
  {
    if |s| > 0 && IsSpace(s[0]) then SkipSpaces(s[1..]) else s
  }

  /** The longest prefix of `s` made of decimal digits. */
  function LeadingDigits(s: string): (r: string)
    ensures AllDigits(r) && r <= s
    ensures |r| == |s| || !IsDigit(s[|r|])
  {
    if |s| > 0 && IsDigit(s[0]) then [s[0]] + LeadingDigits(s[1..]) else []
  }

  /**
   * C atoi and Arduino String::toInt: skip white space, take an optional
   * sign, then as many digits as follow; anything else ends the number and
   * no digits at all read as 0.
   */
  function Atoi(s: string): int {
    var t := SkipSpaces(s);
    if |t| > 0 && t[0] == '-' then 0 - DigitsValue(LeadingDigits(t[1..])) as int
    else if |t| > 0 && t[0] == '+' then DigitsValue(LeadingDigits(t[1..]))
    else DigitsValue(LeadingDigits(t))
  }

  lemma {:induction false} LeadingDigitsOfDigits(s: string)
    requires AllDigits(s)
    ensures LeadingDigits(s) == s
    decreases |s|
  {
    if |s| > 0 {
      LeadingDigitsOfDigits(s[1..]);
      assert [s[0]] + s[1..] == s;
    }
  }

  lemma {:induction false} LeadingDigitsStopsAt(s: string, rest: string)
    requires AllDigits(s)
    requires |rest| == 0 || !IsDigit(rest[0])
    ensures LeadingDigits(s + rest) == s
    decreases |s|
  {
    if |s| > 0 {
      assert (s + rest)[1..] == s[1..] + rest;
      LeadingDigitsStopsAt(s[1..], rest);
      assert [s[0]] + s[1..] == s;
    } else {
      assert s + rest == rest;
    }
  }

  /** Reading back a printed natural number gives the number. */
  lemma AtoiOfNatToString(n: nat)
    ensures Atoi(NatToString(n)) == n
  {
    var r := NatToString(n);
    assert SkipSpaces(r) == r;
    LeadingDigitsOfDigits(r);
  }

  /** atoi stops at the first character that is not a digit. */
  lemma AtoiStopsAtNonDigit(n: nat, rest: string)
    requires |rest| == 0 || !IsDigit(rest[0])
    ensures Atoi(NatToString(n) + rest) == n
  {
    var r := NatToString(n);
    var t := r + rest;
    assert t[0] == r[0] && IsDigit(t[0]);
    assert SkipSpaces(t) == t;
    assert t[0] != '-' && t[0] != '+';
    LeadingDigitsStopsAt(r, rest);
    assert Atoi(t) == DigitsValue(LeadingDigits(t));
  }

  /** Reading back a printed integer, sign included, gives the integer. */
  lemma AtoiOfIntToString(i: int)
    ensures Atoi(IntToString(i)) == i
  {
    if i < 0 {
      var r := NatToString(-i);
      var t := "-" + r;
      assert SkipSpaces(t) == t;
      assert t[1..] == r;
      LeadingDigitsOfDigits(r);
    } else {
      AtoiOfNatToString(i);
    }
  }

  /** A text made only of digits reads as their value. */
  lemma AtoiOfDigits(s: string)
    requires |s| > 0 && AllDigits(s)
    ensures Atoi(s) == DigitsValue(s)
  {
    assert IsDigit(s[0]) && !IsSpace(s[0]);
    assert SkipSpaces(s) == s;
    assert s[0] != '-' && s[0] != '+';
    LeadingDigitsOfDigits(s);
    assert Atoi(s) == DigitsValue(LeadingDigits(s));
  }

  /** A text that starts with neither white space, a sign nor a digit reads as 0. */
  lemma AtoiOfNoDigits(s: string)
    requires |s| > 0 && !IsSpace(s[0]) && !IsDigit(s[0]) && s[0] != '-' && s[0] != '+'
    ensures Atoi(s) == 0
  {
  }
}
