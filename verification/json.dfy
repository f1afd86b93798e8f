// The hand-written JSON writer of the web server: escapeString quotes a
// double quote and a newline, buildJson writes a flat object of string
// keys and string values. A std::map is passed as its entries in the
// map's iteration order.

module JsonText {

  /** What escapeString appends for one character. */
  function Escaped(c: char): (r: string)
    ensures c == '"' ==> r == ['\\', '"']
    ensures c == '\n' ==> r == ['\\', 'n']
    ensures c != '"' && c != '\n' ==> r == [c]
  {
    if c == '"' then ['\\', '"'] else if c == '\n' then ['\\', 'n'] else [c]
  }

  /** The text escapeString produces: every character escaped in turn. */
  function Escape(s: string): string
    decreases |s|
  {
    if |s| == 0 then "" else Escaped(s[0]) + Escape(s[1..])
  }

  /** The number of occurrences of c in s. */
  function Occurrences(s: string, c: char): nat
    decreases |s|
  {
    if |s| == 0 then 0 else (if s[0] == c then 1 else 0) + Occurrences(s[1..], c)
  }

  /** Escaping one more character appends its escape. */
  lemma {:induction false} EscapeSnoc(s: string, c: char)
    ensures Escape(s + [c]) == Escape(s) + Escaped(c)
    decreases |s|
  {
    if |s| == 0 {
      assert s + [c] == [c];
      assert [c][1..] == [];
    } else {
      assert (s + [c])[1..] == s[1..] + [c];
      EscapeSnoc(s[1..], c);
    }
  }

  /** escapeString: the loop appends the escape of each character to result. */
  method EscapeString(str: string) returns (result: string)
    ensures result == Escape(str)
  {
    result := "";
    for i := 0 to |str|
      invariant result == Escape(str[..i])
    {
      assert str[..i + 1] == str[..i] + [str[i]];
      EscapeSnoc(str[..i], str[i]);
      result := result + Escaped(str[i]);
    }
    assert str[..|str|] == str;
  }

  /** The escaped text is one character longer for every '"' and every newline. */
  lemma {:induction false} EscapeLength(s: string)
    ensures |Escape(s)| == |s| + Occurrences(s, '"') + Occurrences(s, '\n')
    decreases |s|
  {
    if |s| > 0 {
      EscapeLength(s[1..]);
    }
  }

  /** A text with neither '"' nor a newline is written unchanged. */
  lemma {:induction false} EscapeIdentity(s: string)
    requires forall k :: 0 <= k < |s| ==> s[k] != '"' && s[k] != '\n'
    ensures Escape(s) == s
    decreases |s|
  {
    if |s| > 0 {
      EscapeIdentity(s[1..]);
      assert [s[0]] + s[1..] == s;
    }
  }

  /**
   * A backslash is copied as it is, so a backslash followed by 'n' and a
   * newline are written alike.
   */
  lemma EscapeCollides()
    ensures Escape(['\\', 'n']) == Escape(['\n']) == ['\\', 'n']
  {
    assert ['\\', 'n'][1..] == ['n'];
    assert ['n'][1..] == [];
    assert ['\n'][1..] == [];
  }

  /** "key":"value" with both sides escaped by `esc`. */
  function Member(esc: string -> string, key: string, value: string): string {
    "\"" + esc(key) + "\":\"" + esc(value) + "\""
  }

  /** The members of an object, separated by commas. */
  function Members(esc: string -> string, entries: seq<(string, string)>): string
    decreases |entries|
  {
    if |entries| == 0 then ""
    else if |entries| == 1 then Member(esc, entries[0].0, entries[0].1)
    else
      var last := entries[|entries| - 1];
      Members(esc, entries[..|entries| - 1]) + "," + Member(esc, last.0, last.1)
  }

  /** What the loop of buildJson has written after the first entries: each member followed by a comma. */
  function Listed(entries: seq<(string, string)>): string
    decreases |entries|
  {
    if |entries| == 0 then ""
    else
      var last := entries[|entries| - 1];
      Listed(entries[..|entries| - 1]) + Member(Escape, last.0, last.1) + ","
  }

  /** The loop's text is the members with a comma after the last one. */
  lemma {:induction false} ListedMembers(entries: seq<(string, string)>)
    requires entries != []
    ensures Listed(entries) == Members(Escape, entries) + ","
    decreases |entries|
  {
    if |entries| > 1 {
      ListedMembers(entries[..|entries| - 1]);
    } else {
      assert entries[..0] == [];
    }
  }

  /**
   * buildJson: "{", every member with a trailing comma, then the last
   * character is dropped and "}" appended. For a non-empty map that is
   * the object; for an empty map the dropped character is the brace.
   */
  method BuildJson(entries: seq<(string, string)>) returns (json: string)
    ensures entries != [] ==> json == "{" + Members(Escape, entries) + "}"
    ensures entries == [] ==> json == "}"
  {
    json := "{";
    for i := 0 to |entries|
      invariant json == "{" + Listed(entries[..i])
    {
      var key := EscapeString(entries[i].0);
      var value := EscapeString(entries[i].1);
      var member := "\"" + key + "\":\"" + value + "\"";
      assert member == Member(Escape, entries[i].0, entries[i].1);
      ListedStep(entries, i);
      json := json + member + ",";
    }
    assert entries[..|entries|] == entries;
    DropLastComma(entries);
    json := json[..|json| - 1];
    json := json + "}";
  }

  /** Dropping the last character of the loop's text leaves the object's opening. */
  lemma DropLastComma(entries: seq<(string, string)>)
    ensures var t := "{" + Listed(entries);
            t[..|t| - 1] == if entries == [] then "" else "{" + Members(Escape, entries)
  {
    if entries != [] {
      ListedMembers(entries);
      var m := "{" + Members(Escape, entries);
      assert "{" + Listed(entries) == m + ",";
    }
  }

  lemma ListedStep(entries: seq<(string, string)>, i: nat)
    requires i < |entries|
    ensures "{" + Listed(entries[..i + 1]) == "{" + Listed(entries[..i]) + Member(Escape, entries[i].0, entries[i].1) + ","
  {
    assert entries[..i + 1][..i] == entries[..i];
    assert Listed(entries[..i + 1]) == Listed(entries[..i]) + Member(Escape, entries[i].0, entries[i].1) + ",";
  }

  /** The escape a JSON writer needs: the backslash is escaped as well. */
  function JsonEscape(s: string): string
    decreases |s|
  {
    if |s| == 0 then ""
    else (if s[0] == '\\' then ['\\', '\\'] else Escaped(s[0])) + JsonEscape(s[1..])
  }

  /** Reads the escapes back: \" \n \\ stand for '"', newline and backslash. */
  function Unescape(s: string): string
    decreases |s|
  {
    if |s| == 0 then ""
    else if s[0] == '\\' && |s| >= 2 then
      (if s[1] == 'n' then ['\n'] else [s[1]]) + Unescape(s[2..])
    else [s[0]] + Unescape(s[1..])
  }

  /** Every text is read back from its escape. */
  lemma {:induction false} JsonEscapeRoundTrip(s: string)
    ensures Unescape(JsonEscape(s)) == s
    decreases |s|
  {
    if |s| > 0 {
      JsonEscapeRoundTrip(s[1..]);
      var head := if s[0] == '\\' then ['\\', '\\'] else Escaped(s[0]);
      var t := head + JsonEscape(s[1..]);
      if |head| == 2 {
        assert t[2..] == JsonEscape(s[1..]);
      } else {
        assert t[1..] == JsonEscape(s[1..]);
      }
      assert [s[0]] + s[1..] == s;
    }
  }

  /** So different texts never share an escape. */
  lemma JsonEscapeInjective(a: string, b: string)
    requires JsonEscape(a) == JsonEscape(b)
    ensures a == b
  {
    JsonEscapeRoundTrip(a);
    JsonEscapeRoundTrip(b);
  }

  /** Without a backslash the two escapes agree. */
  lemma {:induction false} EscapesAgree(s: string)
    requires forall k :: 0 <= k < |s| ==> s[k] != '\\'
    ensures Escape(s) == JsonEscape(s)
    decreases |s|
  {
    if |s| > 0 {
      EscapesAgree(s[1..]);
    }
  }

  /** The object text of the entries, "{}" when there are none. */
  function JsonObject(entries: seq<(string, string)>): (r: string)
    ensures |r| >= 2 && r[0] == '{' && r[|r| - 1] == '}'
    ensures entries == [] ==> r == "{}"
  {
    "{" + Members(JsonEscape, entries) + "}"
  }

  /** Members built with two escapes that agree on every key and value are the same. */
  lemma {:induction false} MembersAgree(entries: seq<(string, string)>)
    requires forall k :: 0 <= k < |entries| ==> Escape(entries[k].0) == JsonEscape(entries[k].0)
    requires forall k :: 0 <= k < |entries| ==> Escape(entries[k].1) == JsonEscape(entries[k].1)
    ensures Members(Escape, entries) == Members(JsonEscape, entries)
    decreases |entries|
  {
    if |entries| > 1 {
      MembersAgree(entries[..|entries| - 1]);
    }
  }

  /**
   * buildJson writes the object exactly when the map is not empty and no
   * key or value holds a backslash.
   */
  lemma BuildJsonAgrees(entries: seq<(string, string)>)
    requires entries != []
    requires forall k :: 0 <= k < |entries| ==> forall j :: 0 <= j < |entries[k].0| ==> entries[k].0[j] != '\\'
    requires forall k :: 0 <= k < |entries| ==> forall j :: 0 <= j < |entries[k].1| ==> entries[k].1[j] != '\\'
    ensures "{" + Members(Escape, entries) + "}" == JsonObject(entries)
  {
    forall k | 0 <= k < |entries|
      ensures Escape(entries[k].0) == JsonEscape(entries[k].0)
      ensures Escape(entries[k].1) == JsonEscape(entries[k].1)
    {
      EscapesAgree(entries[k].0);
      EscapesAgree(entries[k].1);
    }
    MembersAgree(entries);
  }
}
