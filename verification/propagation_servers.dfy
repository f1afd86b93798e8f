// The "HH:MM" text of the PropagationBox settings page: formatTime writes
// a minute of the day, parseTimeAsMinutes reads it back.

module PropagationServers {
  import opened Text

  /** Arduino String::substring(left, right): the bounds are clipped to the text. */
  function Substring(s: string, left: nat, right: nat): (r: string)
    ensures left <= right <= |s| ==> r == s[left..right]
  {
    var lo, hi := if left <= right then left else right, if left <= right then right else left;
    if lo >= |s| then "" else s[lo..if hi > |s| then |s| else hi]
  }

  /** A number below ten gets a leading "0". */
  function Padded(n: int): string {
    if n < 10 then "0" + IntToString(n) else IntToString(n)
  }

  /** formatTime: the hour minutes / 60 and the minute minutes % 60, each padded, joined by ':'. */
  function FormatTime(minutes: int): string {
    Padded(CDiv(minutes, 60)) + ":" + Padded(CRem(minutes, 60))
  }

  /** parseTimeAsMinutes: characters 0-1 are the hour, 3-4 the minute. */
  function ParseTimeAsMinutes(hourMinute: string): int {
    Atoi(Substring(hourMinute, 0, 2)) * 60 + Atoi(Substring(hourMinute, 3, 5))
  }

  /** Below one hundred the padded text is two digits worth n. */
  lemma PaddedTwoDigits(n: nat)
    requires n < 100
    ensures |Padded(n)| == 2 && AllDigits(Padded(n)) && Atoi(Padded(n)) == n
  {
    var p := Padded(n);
    if n < 10 {
      assert p == ['0', DigitChar(n)];
    } else {
      assert NatToString(n / 10) == [DigitChar(n / 10)];
      assert p == [DigitChar(n / 10), DigitChar(n % 10)];
    }
    TwoDigitsValue(p);
    AtoiOfDigits(p);
  }

  /** For a non-negative count of minutes the hour and minute are the plain quotient and remainder. */
  lemma FormatTimeParts(minutes: int)
    requires minutes >= 0
    ensures FormatTime(minutes) == Padded(minutes / 60) + ":" + Padded(minutes % 60)
  {
    assert CDiv(minutes, 60) == minutes / 60;
    assert CRem(minutes, 60) == minutes % 60;
  }

  /** Characters 0-1 and 3-4 of "pp:qq". */
  lemma FieldsOf(p: string, q: string)
    requires |p| == 2 && |q| == 2
    ensures Substring(p + ":" + q, 0, 2) == p
    ensures Substring(p + ":" + q, 3, 5) == q
  {
    var t := p + ":" + q;
    assert t[0..2] == p;
    assert t[3..5] == q;
  }

  /** Below 100 hours the text is five characters with ':' in the middle. */
  lemma FormatTimeShape(minutes: int)
    requires 0 <= minutes < 6000
    ensures var t := FormatTime(minutes);
            |t| == 5 && t[2] == ':'
            && AllDigits(t[..2]) && AllDigits(t[3..])
  {
    FormatTimeParts(minutes);
    var p, q := Padded(minutes / 60), Padded(minutes % 60);
    PaddedTwoDigits(minutes / 60);
    PaddedTwoDigits(minutes % 60);
    var t := p + ":" + q;
    assert t[..2] == p && t[3..] == q;
  }

  /** Reading a formatted time gives the minutes back. */
  lemma ParseFormatRoundTrip(minutes: int)
    requires 0 <= minutes < 6000
    ensures ParseTimeAsMinutes(FormatTime(minutes)) == minutes
  {
    var h, m := minutes / 60, minutes % 60;
    FormatTimeParts(minutes);
    PaddedTwoDigits(h);
    PaddedTwoDigits(m);
    FieldsOf(Padded(h), Padded(m));
  }
}
