// Time-of-day literals in rules: "@HH:MM:SS", read as seconds since midnight.

module TimeLiteral {
  import opened Text

  const SecondsPerDay: int := 86400

  /** jsonIsTimeLiteral: a string is treated as a time literal when it starts with '@'. */
  predicate JsonIsTimeLiteral(s: string) {
    |s| > 0 && s[0] == '@'
  }

  /**
   * parseTimeLiteral: seconds since midnight for a strict "@HH:MM:SS" with
   * hours 0-23 and minutes and seconds 0-59; -1 for anything else.
   */
  function ParseTimeLiteral(t: string): (r: int)
    ensures -1 <= r < SecondsPerDay
    ensures r >= 0 ==> JsonIsTimeLiteral(t) && |t| == 9
  {
    if |t| != 9 then -1
    else if t[0] != '@' || t[3] != ':' || t[6] != ':' then -1
    else
      var hourStr := t[1..3];
      var minuteStr := t[4..6];
      var secondStr := t[7..9];
      if !AllDigits(hourStr) || !AllDigits(minuteStr) || !AllDigits(secondStr) then -1
      else
        var hours := DigitsValue(hourStr);
        var minutes := DigitsValue(minuteStr);
        var seconds := DigitsValue(secondStr);
        if hours > 23 || minutes > 59 || seconds > 59 then -1
        else hours * 3600 + minutes * 60 + seconds
  }

  // ---------------------------------------------------------------------
  // Reference definition: the canonical text of a time of day
  // ---------------------------------------------------------------------

  function TwoDigits(n: nat): (s: string)
    requires n < 100
    ensures |s| == 2 && AllDigits(s) && DigitsValue(s) == n
  {
    var s := [DigitChar(n / 10), DigitChar(n % 10)];
    TwoDigitsValue(s);
    s
  }

  /** "@HH:MM:SS" for a valid time of day. */
  function TimeText(h: nat, m: nat, s: nat): (t: string)
    requires h < 24 && m < 60 && s < 60
    ensures |t| == 9
  {
    "@" + TwoDigits(h) + ":" + TwoDigits(m) + ":" + TwoDigits(s)
  }

  ghost predicate IsTimeText(t: string) {
    exists h: nat, m: nat, s: nat | h < 24 && m < 60 && s < 60 :: t == TimeText(h, m, s)
  }

  lemma DigitCharOfValue(c: char)
    requires IsDigit(c)
    ensures DigitChar(DigitValue(c)) == c
  {
  }

  /** A two-digit string is the canonical text of its own value. */
  lemma TwoDigitsOfValue(s: string)
    requires |s| == 2 && AllDigits(s)
    ensures DigitsValue(s) < 100 && TwoDigits(DigitsValue(s)) == s
  {
    TwoDigitsValue(s);
    DigitCharOfValue(s[0]);
    DigitCharOfValue(s[1]);
  }

  /** Parsing the canonical text gives back h*3600 + m*60 + s. */
  lemma ParseTimeText(h: nat, m: nat, s: nat)
    requires h < 24 && m < 60 && s < 60
    ensures ParseTimeLiteral(TimeText(h, m, s)) == h * 3600 + m * 60 + s
  {
    var t := TimeText(h, m, s);
    assert t[1..3] == TwoDigits(h);
    assert t[4..6] == TwoDigits(m);
    assert t[7..9] == TwoDigits(s);
  }

  /** Every accepted string is the canonical text of the time it denotes. */
  lemma AcceptedIsTimeText(t: string)
    requires ParseTimeLiteral(t) >= 0
    ensures var r := ParseTimeLiteral(t);
            t == TimeText(r / 3600, r % 3600 / 60, r % 60)
  {
    var h, m, s := t[1..3], t[4..6], t[7..9];
    TwoDigitsOfValue(h);
    TwoDigitsOfValue(m);
    TwoDigitsOfValue(s);
    var hv, mv, sv := DigitsValue(h), DigitsValue(m), DigitsValue(s);
    var r := hv * 3600 + mv * 60 + sv;
    assert r / 3600 == hv && r % 3600 / 60 == mv && r % 60 == sv;
    assert t == "@" + h + ":" + m + ":" + s;
  }

  /** parseTimeLiteral accepts exactly the canonical "@HH:MM:SS" texts. */
  lemma AcceptsExactlyTimeTexts(t: string)
    ensures ParseTimeLiteral(t) >= 0 <==> IsTimeText(t)
  {
    if ParseTimeLiteral(t) >= 0 {
      AcceptedIsTimeText(t);
      var r := ParseTimeLiteral(t);
      var h: nat, m: nat, s: nat := r / 3600, r % 3600 / 60, r % 60;
      assert t == TimeText(h, m, s);
    }
    if IsTimeText(t) {
      var h: nat, m: nat, s: nat :| h < 24 && m < 60 && s < 60 && t == TimeText(h, m, s);
      ParseTimeText(h, m, s);
    }
  }

  /** The worked examples of the header that parse. */
  lemma ParseExamples()
    ensures ParseTimeLiteral("@14:30:00") == 52200
    ensures ParseTimeLiteral("@00:00:00") == 0
    ensures ParseTimeLiteral("@23:59:59") == 86399
  {
    assert TimeText(14, 30, 0) == "@14:30:00";
    ParseTimeText(14, 30, 0);
    assert TimeText(0, 0, 0) == "@00:00:00";
    ParseTimeText(0, 0, 0);
    assert TimeText(23, 59, 59) == "@23:59:59";
    ParseTimeText(23, 59, 59);
  }

  /** The worked examples of the header that are refused. */
  lemma RefusedExamples()
    ensures ParseTimeLiteral("invalid") == -1
    ensures ParseTimeLiteral("@25:00:00") == -1
  {
    var d := "@25:00:00";
    assert d[1..3] == TwoDigits(25);
  }
}
