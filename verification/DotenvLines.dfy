/** What a line of a dotenv file means to the parser, and when unescaping a double-quoted value gives the value that
    was escaped. */
module DotenvLines {
  import opened Common
  import opened Adopt

  /** Nothing to trim. */
  predicate IsTight(s: string) {
    s != "" ==> !IsWhitespace(s[0]) && !IsWhitespace(s[|s| - 1])
  }

  lemma {:induction false} TightIsTrimmed(s: string)
    ensures IsTight(s) ==> Trim(s) == s && TrimStart(s) == s
  {
  }

  lemma {:induction false} TrimIsTight(s: string)
    ensures IsTight(Trim(s))
  {
    StartIsTight(s);
    EndIsTight(TrimStart(s));
  }

  lemma {:induction false} StartIsTight(s: string)
    ensures TrimStart(s) != "" ==> !IsWhitespace(TrimStart(s)[0])
  {
    if s != "" && IsWhitespace(s[0]) {
      StartIsTight(s[1..]);
    }
  }

  lemma {:induction false} EndIsTight(s: string)
    ensures TrimEnd(s) != "" ==> !IsWhitespace(TrimEnd(s)[|TrimEnd(s)| - 1])
    ensures TrimEnd(s) <= s
  {
    if s != "" && IsWhitespace(s[|s| - 1]) {
      EndIsTight(s[..|s| - 1]);
    }
  }

  /** The characters that Unicode counts as white space. */
  const WHITE_SPACE := "\t\n\U{B}\U{C}\r \U{85}\U{A0}\U{1680}\U{2000}\U{2001}\U{2002}\U{2003}\U{2004}\U{2005}"
    + "\U{2006}\U{2007}\U{2008}\U{2009}\U{200A}\U{2028}\U{2029}\U{202F}\U{205F}\U{3000}"

  predicate IsWhite(c: char) {
    c in WHITE_SPACE
  }

  predicate IsBlank(s: string) {
    forall i :: 0 <= i < |s| ==> IsWhite(s[i])
  }

  lemma {:induction false} WhiteSpaceIs(c: char)
    ensures IsWhitespace(c) <==> IsWhite(c)
  {
  }

  lemma {:induction false} StartLeavesBlank(s: string) returns (a: string)
    ensures IsBlank(a) && s == a + TrimStart(s)
  {
    hide IsWhite, IsWhitespace;
    a := "";
    if s != "" && IsWhitespace(s[0]) {
      var rest := StartLeavesBlank(s[1..]);
      a := [s[0]] + rest;
      WhiteSpaceIs(s[0]);
      assert s == [s[0]] + s[1..];
    }
  }

  lemma {:induction false} EndLeavesBlank(s: string) returns (b: string)
    ensures IsBlank(b) && s == TrimEnd(s) + b
  {
    hide IsWhite, IsWhitespace;
    b := "";
    if s != "" && IsWhitespace(s[|s| - 1]) {
      var rest := EndLeavesBlank(s[..|s| - 1]);
      b := rest + [s[|s| - 1]];
      WhiteSpaceIs(s[|s| - 1]);
      assert s == s[..|s| - 1] + [s[|s| - 1]];
    }
  }

  lemma {:induction false} TrimmedApart(a: string, t: string, b: string)
    requires IsBlank(a) && IsBlank(b) && (t != "" ==> !IsWhite(t[0]) && !IsWhite(t[|t| - 1]))
    ensures Trim(a + t + b) == t
  {
    hide IsBlank, IsWhite, IsWhitespace;
    assert a + t + b == a + (t + b);
    StartIsBlank(a, t + b);
    EndIsBlank(t, b);
    if t == "" {
      StartIsBlank(b, "");
      assert b + "" == b && t + b == b;
    } else {
      WhiteSpaceIs(t[0]);
      WhiteSpaceIs(t[|t| - 1]);
    }
  }

  lemma {:induction false} StartIsBlank(a: string, s: string)
    requires IsBlank(a)
    ensures TrimStart(a + s) == TrimStart(s)
  {
    hide IsWhite, IsWhitespace;
    if a == "" {
      assert a + s == s;
    } else {
      WhiteSpaceIs(a[0]);
      StartIsBlank(a[1..], s);
      assert (a + s)[1..] == a[1..] + s;
    }
  }

  lemma {:induction false} EndIsBlank(s: string, b: string)
    requires IsBlank(b)
    ensures TrimEnd(s + b) == TrimEnd(s)
  {
    hide IsWhite, IsWhitespace;
    if b == "" {
      assert s + b == s;
    } else {
      var n := |b| - 1;
      WhiteSpaceIs(b[n]);
      EndIsBlank(s, b[..n]);
      assert (s + b)[..|s + b| - 1] == s + b[..n];
    }
  }

  /** Trimming takes the white space from both ends and nothing else. */
  lemma {:induction false} TrimIff(s: string, t: string)
    ensures Trim(s) == t <==>
            && (t != "" ==> !IsWhite(t[0]) && !IsWhite(t[|t| - 1]))
            && exists a, b :: IsBlank(a) && IsBlank(b) && s == a + t + b
  {
    hide IsBlank, IsWhite, IsWhitespace;
    if Trim(s) == t {
      var a := StartLeavesBlank(s);
      var b := EndLeavesBlank(TrimStart(s));
      assert s == a + (t + b) == a + t + b;
      TrimIsTight(s);
      if t != "" {
        WhiteSpaceIs(t[0]);
        WhiteSpaceIs(t[|t| - 1]);
      }
    }
    if a, b :| IsBlank(a) && IsBlank(b) && s == a + t + b {
      if t != "" ==> !IsWhite(t[0]) && !IsWhite(t[|t| - 1]) {
        TrimmedApart(a, t, b);
      }
    }
  }

  lemma {:induction false} SplitsAtFirst(name: string, value: string)
    requires '=' !in name
    ensures SplitOnce(name + "=" + value, '=') == Some((name, value))
  {
    var s := name + "=" + value;
    if name == "" {
      assert s[1..] == value;
    } else {
      assert s[1..] == name[1..] + "=" + value;
      SplitsAtFirst(name[1..], value);
      assert name == [name[0]] + name[1..];
    }
  }

  lemma {:induction false} NoneToSplit(s: string)
    requires '=' !in s
    ensures SplitOnce(s, '=') == None
  {
    if s != "" {
      NoneToSplit(s[1..]);
    }
  }

  /** A name that needs no care: not empty, without blanks around it, no comment, no equals sign, no keyword. */
  predicate IsPlainName(name: string) {
    name != "" && IsTight(name) && '=' !in name && name[0] != '#' && !("export " <= name + "=")
  }

  /** An assignment gives its name and its unquoted value, with or without the keyword, and whatever blanks stand around
      the line. Blank lines, comments and lines without an equals sign give nothing. */
  lemma {:induction false} AssignmentMeans(raw: string, name: string, value: string)
    requires IsPlainName(name) && IsTight(value)
    ensures Trim(raw) == name + "=" + value ==> ParseDotenvLine(raw) == Some((name, Unquote(value)))
    ensures Trim(raw) == "export " + name + "=" + value ==> ParseDotenvLine(raw) == Some((name, Unquote(value)))
  {
    hide IsWhitespace, Unquote;
    var plain := name + "=" + value;
    TightIsTrimmed(name);
    TightIsTrimmed(value);
    SplitsAtFirst(name, value);
    StartsPlain(name, value);
    assert "export " + name + "=" + value == "export " + plain;
    assert ("export " + plain)[|"export "|..] == plain;
  }

  lemma {:induction false} StartsPlain(name: string, value: string)
    requires IsPlainName(name)
    ensures var plain := name + "=" + value;
            TrimStart(plain) == plain && plain != "" && plain[0] != '#' && !("export " <= plain)
  {
    var plain, keyword := name + "=" + value, "export ";
    assert plain[0] == name[0];
    if |keyword| <= |name| + 1 {
      assert plain[..|keyword|] == (name + "=")[..|keyword|];
    } else {
      assert plain[|name|] == '=' && '=' !in keyword && keyword[|name|] in keyword;
    }
  }

  lemma {:induction false} OtherLinesMeanNothing(raw: string)
    ensures Trim(raw) == "" || Trim(raw)[0] == '#' || '=' !in raw ==> ParseDotenvLine(raw) == None
  {
    var line := Trim(raw);
    if line != "" && line[0] != '#' && '=' !in raw {
      var keyword := "export ";
      TrimTakesPart(raw);
      var rest := if keyword <= line then line[|keyword|..] else line;
      StartTakesPart(rest);
      NoneToSplit(TrimStart(rest));
    }
  }

  lemma {:induction false} StartTakesPart(s: string)
    ensures forall c :: c in TrimStart(s) ==> c in s
  {
    if s != "" && IsWhitespace(s[0]) {
      StartTakesPart(s[1..]);
    }
  }

  lemma {:induction false} TrimTakesPart(s: string)
    ensures forall c :: c in Trim(s) ==> c in s
  {
    StartTakesPart(s);
    EndIsTight(TrimStart(s));
    assert forall c :: c in Trim(s) ==> c in TrimStart(s) by {
      var t, u := TrimStart(s), Trim(s);
      assert forall i :: 0 <= i < |u| ==> u[i] == t[i];
    }
  }

  // ---- Quotes ----------------------------------------------------------------------------------------

  /** A value without matching quotes around it is taken as it is, a single-quoted one without its quotes. */
  lemma {:induction false} UnquotedMeans(value: string, inner: string)
    ensures |value| < 2 || value[0] != value[|value| - 1] || (value[0] != '"' && value[0] != '\'') ==>
              Unquote(value) == value
    ensures Unquote("'" + inner + "'") == inner
  {
    var quoted := "'" + inner + "'";
    assert quoted[1..|quoted| - 1] == inner;
  }

  /** How a value is written between double quotes: backslash, double quote and newline behind a backslash. */
  function Escaped(value: string): string {
    if value == "" then ""
    else EscapedChar(value[0]) + Escaped(value[1..])
  }

  function EscapedChar(c: char): string {
    if c == '\n' then "\\n" else if c == '"' then "\\\"" else if c == '\\' then "\\\\" else [c]
  }

  /** A backslash right before an n, which is not a newline. */
  predicate HasBackslashN(value: string) {
    exists i :: 0 <= i < |value| - 1 && value[i] == '\\' && value[i + 1] == 'n'
  }

  /** Escaped, but for the newlines. */
  function WithNewlines(value: string): string {
    if value == "" then "" else Quoted(value[0]) + WithNewlines(value[1..])
  }

  function Quoted(c: char): string {
    if c == '\n' then "\n" else EscapedChar(c)
  }

  /** Only the backslashes doubled. */
  function WithBackslashes(value: string): string {
    if value == "" then "" else Doubled(value[0]) + WithBackslashes(value[1..])
  }

  function Doubled(c: char): string {
    if c == '\\' then "\\\\" else [c]
  }

  lemma {:induction false} ReplaceSkips(c: char, s: string, from: string, to: string)
    requires |from| == 2 && (c != from[0] || s == "" || s[0] != from[1])
    ensures ReplaceAll([c] + s, from, to) == [c] + ReplaceAll(s, from, to)
  {
    assert ([c] + s)[1..] == s;
    if s != "" {
      assert ([c] + s)[..2] == [c, s[0]];
    }
  }

  lemma {:induction false} ReplaceTakes(s: string, from: string, to: string)
    requires from != ""
    ensures ReplaceAll(from + s, from, to) == to + ReplaceAll(s, from, to)
  {
    assert (from + s)[|from|..] == s && (from + s)[..|from|] == from;
  }

  /** Two characters in front that stand for themselves. */
  lemma {:induction false} ReplaceSkipsTwo(c: char, d: char, s: string, from: string, to: string)
    requires |from| == 2 && (c != from[0] || d != from[1]) && (d != from[0] || s == "" || s[0] != from[1])
    ensures ReplaceAll([c, d] + s, from, to) == [c, d] + ReplaceAll(s, from, to)
  {
    hide ReplaceAll;
    ReplaceSkips(d, s, from, to);
    ReplaceSkips(c, [d] + s, from, to);
    assert [c, d] + s == [c] + ([d] + s);
    assert [c] + ([d] + ReplaceAll(s, from, to)) == [c, d] + ReplaceAll(s, from, to);
  }

  lemma {:induction false} NothingToReplace(from: string, to: string)
    requires from != ""
    ensures ReplaceAll("", from, to) == ""
  {
  }

  /** What the escape of one character becomes, when it is no backslash before an n. */
  lemma {:induction false} NewlineComesBack(c: char, tail: string)
    requires c == '\\' ==> tail == "" || tail[0] != 'n'
    ensures ReplaceAll(EscapedChar(c) + tail, "\\n", "\n") == Quoted(c) + ReplaceAll(tail, "\\n", "\n")
  {
    hide ReplaceAll;
    var from, to := "\\n", "\n";
    if c == '\n' {
      ReplaceTakes(tail, from, to);
    } else if c == '\\' || c == '"' {
      ReplaceSkipsTwo('\\', c, tail, from, to);
      assert EscapedChar(c) == ['\\', c];
    } else {
      ReplaceSkips(c, tail, from, to);
    }
  }

  lemma {:induction false} QuoteComesBack(c: char, tail: string)
    requires tail == "" || tail[0] != '"'
    ensures ReplaceAll(Quoted(c) + tail, "\\\"", "\"") == Doubled(c) + ReplaceAll(tail, "\\\"", "\"")
  {
    hide ReplaceAll;
    var from, to := "\\\"", "\"";
    if c == '"' {
      ReplaceTakes(tail, from, to);
    } else if c == '\\' {
      ReplaceSkipsTwo('\\', '\\', tail, from, to);
      assert Quoted(c) == ['\\', '\\'] == Doubled(c);
    } else {
      ReplaceSkips(c, tail, from, to);
    }
  }

  lemma {:induction false} BackslashComesBack(c: char, tail: string)
    ensures ReplaceAll(Doubled(c) + tail, "\\\\", "\\") == [c] + ReplaceAll(tail, "\\\\", "\\")
  {
    hide ReplaceAll;
    if c == '\\' {
      ReplaceTakes(tail, "\\\\", "\\");
    } else {
      ReplaceSkips(c, tail, "\\\\", "\\");
    }
  }

  lemma {:induction false} NewlinesComeBack(value: string)
    requires !HasBackslashN(value)
    ensures ReplaceAll(Escaped(value), "\\n", "\n") == WithNewlines(value)
  {
    hide ReplaceAll, EscapedChar, Quoted;
    if value == "" {
      NothingToReplace("\\n", "\n");
    } else {
      var c, rest := value[0], value[1..];
      TailHasNone(value);
      NewlinesComeBack(rest);
      EscapedStart(rest);
      NewlineComesBack(c, Escaped(rest));
    }
  }

  lemma {:induction false} TailHasNone(value: string)
    requires value != "" && !HasBackslashN(value)
    ensures !HasBackslashN(value[1..])
    ensures value[0] == '\\' && |value| > 1 ==> value[1] != 'n'
  {
    var rest := value[1..];
    assert forall i :: 0 <= i < |rest| ==> rest[i] == value[i + 1];
  }

  lemma {:induction false} QuotesComeBack(value: string)
    ensures ReplaceAll(WithNewlines(value), "\\\"", "\"") == WithBackslashes(value)
  {
    hide ReplaceAll, Quoted, Doubled;
    if value == "" {
      NothingToReplace("\\\"", "\"");
    } else {
      QuotesComeBack(value[1..]);
      NoQuoteFirst(value[1..]);
      QuoteComesBack(value[0], WithNewlines(value[1..]));
    }
  }

  lemma {:induction false} NoQuoteFirst(value: string)
    ensures WithNewlines(value) == "" || WithNewlines(value)[0] != '"'
  {
  }

  lemma {:induction false} BackslashesComeBack(value: string)
    ensures ReplaceAll(WithBackslashes(value), "\\\\", "\\") == value
  {
    hide ReplaceAll, Doubled;
    if value == "" {
      NothingToReplace("\\\\", "\\");
    } else {
      BackslashesComeBack(value[1..]);
      BackslashComesBack(value[0], WithBackslashes(value[1..]));
      assert value == [value[0]] + value[1..];
    }
  }

  function Newlines(s: string): nat {
    if s == "" then 0 else (if s[0] == '\n' then 1 else 0) + Newlines(s[1..])
  }

  lemma {:induction false} NewlinesOfBoth(s: string, t: string)
    ensures Newlines(s + t) == Newlines(s) + Newlines(t)
  {
    if s == "" {
      assert s + t == t;
    } else {
      assert (s + t)[1..] == s[1..] + t;
      NewlinesOfBoth(s[1..], t);
    }
  }

  lemma {:induction false} ReplacingKeepsNewlines(s: string, from: string, to: string)
    requires from != "" && '\n' !in from && '\n' !in to
    ensures Newlines(ReplaceAll(s, from, to)) == Newlines(s)
    decreases |s|
  {
    if |s| >= |from| {
      if s[..|from|] == from {
        ReplacingKeepsNewlines(s[|from|..], from, to);
        NoNewlines(from);
        NoNewlines(to);
        NewlinesOfBoth(from, s[|from|..]);
        NewlinesOfBoth(to, ReplaceAll(s[|from|..], from, to));
        assert s == from + s[|from|..];
      } else {
        ReplacingKeepsNewlines(s[1..], from, to);
        NewlinesOfBoth([s[0]], s[1..]);
        NewlinesOfBoth([s[0]], ReplaceAll(s[1..], from, to));
        assert s == [s[0]] + s[1..];
      }
    }
  }

  lemma {:induction false} NoNewlines(s: string)
    requires '\n' !in s
    ensures Newlines(s) == 0
  {
    if s != "" {
      NoNewlines(s[1..]);
    }
  }

  /** How often a backslash stands right before an n. */
  function BackslashNs(value: string): nat {
    if |value| < 2 then 0
    else (if value[0] == '\\' && value[1] == 'n' then 1 else 0) + BackslashNs(value[1..])
  }

  lemma {:induction false} BackslashNsCount(value: string)
    ensures HasBackslashN(value) <==> BackslashNs(value) > 0
  {
    if |value| >= 2 {
      var rest := value[1..];
      BackslashNsCount(rest);
      assert forall i :: 0 <= i < |rest| ==> rest[i] == value[i + 1];
      if i :| 0 <= i < |value| - 1 && value[i] == '\\' && value[i + 1] == 'n' {
        if i > 0 {
          assert rest[i - 1] == '\\' && rest[i] == 'n';
        }
      }
    }
  }

  /** Unescaping newlines first makes one out of every backslash before an n as well. */
  lemma {:induction false} NewlinesAppear(value: string)
    ensures Newlines(ReplaceAll(Escaped(value), "\\n", "\n")) == Newlines(value) + BackslashNs(value)
    decreases |value|
  {
    hide ReplaceAll, EscapedChar, Quoted, Newlines;
    if value == "" {
      NothingToReplace("\\n", "\n");
      NoNewlines("");
    } else if value[0] == '\\' && |value| > 1 && value[1] == 'n' {
      BackslashNAppears(value);
      NewlinesAppear(value[1..][1..]);
    } else {
      var c, rest := value[0], value[1..];
      NewlinesAppear(rest);
      EscapedStart(rest);
      NewlineComesBack(c, Escaped(rest));
      NewlinesOfQuoted(c);
      NewlinesOfBoth(Quoted(c), ReplaceAll(Escaped(rest), "\\n", "\n"));
      NewlinesOfBoth([c], rest);
      assert value == [c] + rest;
    }
  }

  /** A backslash and an n, escaped and read again, are one newline more than they were. */
  lemma {:induction false} BackslashNAppears(value: string)
    requires |value| > 1 && value[0] == '\\' && value[1] == 'n'
    ensures var rest := value[1..][1..];
            && Newlines(ReplaceAll(Escaped(value), "\\n", "\n"))
               == 1 + Newlines(ReplaceAll(Escaped(rest), "\\n", "\n"))
            && Newlines(value) == Newlines(rest) && BackslashNs(value) == 1 + BackslashNs(rest)
  {
    hide ReplaceAll;
    var rest, from := value[1..][1..], "\\n";
    NIsPlain(value[1..]);
    assert Escaped(value) == ['\\'] + (from + Escaped(rest));
    ReplaceSkips('\\', from + Escaped(rest), from, "\n");
    ReplaceTakes(Escaped(rest), from, "\n");
    var after := ReplaceAll(Escaped(rest), from, "\n");
    NewlinesOfBoth("\n", after);
    NewlinesOfBoth("\\", "\n" + after);
    CountsOne();
  }

  lemma {:induction false} NewlinesOfQuoted(c: char)
    ensures Newlines(Quoted(c)) == Newlines([c])
  {
    if c == '\\' || c == '"' {
      NoNewlines(Quoted(c));
      NoNewlines([c]);
    }
  }

  lemma {:induction false} CountsOne()
    ensures Newlines("\n") == 1 && Newlines("\\") == 0
  {
    assert "\n"[1..] == "" && "\\"[1..] == "";
  }

  lemma {:induction false} NIsPlain(rest: string)
    requires rest != "" && rest[0] == 'n'
    ensures Escaped(rest) == "n" + Escaped(rest[1..]) && Newlines(rest) == Newlines(rest[1..])
    ensures BackslashNs(rest) == BackslashNs(rest[1..])
  {
  }

  lemma {:induction false} EscapedStart(rest: string)
    ensures Escaped(rest) != "" && Escaped(rest)[0] == 'n' <==> rest != "" && rest[0] == 'n'
  {
  }

  /** Reading a double-quoted value gives back what was escaped if and only if it has no backslash before an n: the
      reader unescapes newlines before backslashes. */
  lemma {:induction false} UnquoteUndoesEscapeIff(value: string)
    ensures Unquote("\"" + Escaped(value) + "\"") == value <==> !HasBackslashN(value)
  {
    hide ReplaceAll, Escaped;
    var quoted := "\"" + Escaped(value) + "\"";
    assert quoted[1..|quoted| - 1] == Escaped(value);
    var once := ReplaceAll(Escaped(value), "\\n", "\n");
    var twice := ReplaceAll(once, "\\\"", "\"");
    if HasBackslashN(value) {
      NewlinesAppear(value);
      BackslashNsCount(value);
      ReplacingKeepsNewlines(once, "\\\"", "\"");
      ReplacingKeepsNewlines(twice, "\\\\", "\\");
    } else {
      NewlinesComeBack(value);
      QuotesComeBack(value);
      BackslashesComeBack(value);
    }
  }

  /** The least such value: a backslash and an n. It is read as a backslash and a newline. */
  lemma {:induction false} BackslashNIsMisread()
    ensures Escaped("\\n") == "\\\\n" && Unquote("\"" + Escaped("\\n") + "\"") == "\\\n"
  {
    var value := "\\n";
    assert value[1..] == "n" && "n"[1..] == "";
    assert Escaped("n") == "n" && Escaped(value) == "\\\\n";
    var quoted := "\"" + Escaped(value) + "\"";
    assert quoted[1..|quoted| - 1] == "\\\\n";
    assert "\\\\n"[1..] == "\\n" && "\\n"[2..] == "";
    assert ReplaceAll("", "\\n", "\n") == "" && ReplaceAll("\\n", "\\n", "\n") == "\n";
    assert ReplaceAll("\\\\n", "\\n", "\n") == "\\\n";
    var read := "\\\n";
    assert read[1..] == "\n";
    assert ReplaceAll("\n", "\\\"", "\"") == "\n" && ReplaceAll("\n", "\\\\", "\\") == "\n";
    assert ReplaceAll(read, "\\\"", "\"") == read && ReplaceAll(read, "\\\\", "\\") == read;
  }
}
