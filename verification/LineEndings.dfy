/** The text of a source file and its lines: what splitting it and joining the lines again keeps. Everywhere else a
    source file is its sequence of lines. */
module LineEndings {
  import opened Adopt

  /** Where the first newline is; the length if there is none. */
  function FirstBreak(text: string): (n: nat)
    ensures n <= |text| && '\n' !in text[..n]
    ensures n < |text| ==> text[n] == '\n'
  {
    if text == "" || text[0] == '\n' then 0
    else
      var n := FirstBreak(text[1..]);
      assert text[..n + 1] == [text[0]] + text[1..][..n];
      n + 1
  }

  predicate EndsInReturn(line: string) {
    line != "" && line[|line| - 1] == '\r'
  }

  function WithoutReturn(line: string): string {
    if EndsInReturn(line) then line[..|line| - 1] else line
  }

  /** The lines of a text: each ends at a newline or at a return and a newline, the last one also at the end. */
  function Lines(text: string): seq<string> {
    var n := FirstBreak(text);
    if n < |text| then [WithoutReturn(text[..n])] + Lines(text[n + 1..])
    else if text == "" then []
    else [text]
  }

  /** The text that is written for changed lines: joined by newlines, with one at the end. */
  function Written(lines: seq<string>): string {
    Join(lines) + "\n"
  }

  /** The same, line by line. */
  function Ended(lines: seq<string>): string {
    if lines == [] then "" else lines[0] + "\n" + Ended(lines[1..])
  }

  lemma {:induction false} WrittenIsEnded(lines: seq<string>)
    requires lines != []
    ensures Written(lines) == Ended(lines)
  {
    if |lines| == 1 {
      assert lines[1..] == [];
      assert Ended(lines) == lines[0] + "\n" + "";
    } else {
      WrittenIsEnded(lines[1..]);
      assert lines[0] + "\n" + Join(lines[1..]) + "\n" == lines[0] + "\n" + (Join(lines[1..]) + "\n");
    }
  }

  predicate NoBreaks(lines: seq<string>) {
    forall i :: 0 <= i < |lines| ==> '\n' !in lines[i]
  }

  predicate NoReturns(lines: seq<string>) {
    forall i :: 0 <= i < |lines| ==> !EndsInReturn(lines[i])
  }

  lemma {:induction false} BreakAt(line: string, rest: string)
    requires '\n' !in line
    ensures FirstBreak(line + "\n" + rest) == |line|
  {
    if line != "" {
      assert (line + "\n" + rest)[1..] == line[1..] + "\n" + rest;
      BreakAt(line[1..], rest);
    }
  }

  lemma {:induction false} LinesOfEnded(lines: seq<string>)
    requires NoBreaks(lines)
    ensures Lines(Ended(lines)) == seq(|lines|, i requires 0 <= i < |lines| => WithoutReturn(lines[i]))
  {
    if lines != [] {
      var rest := Ended(lines[1..]);
      var text := lines[0] + "\n" + rest;
      BreakAt(lines[0], rest);
      assert text[..|lines[0]|] == lines[0] && text[|lines[0]| + 1..] == rest;
      LinesOfEnded(lines[1..]);
    }
  }

  lemma {:induction false} LinesHaveNoBreaks(text: string)
    ensures NoBreaks(Lines(text))
  {
    var n := FirstBreak(text);
    if n < |text| {
      LinesHaveNoBreaks(text[n + 1..]);
    } else {
      assert text[..n] == text;
    }
  }

  /** What is written reads back as the same lines if and only if there are lines, none of them contains a newline
      and none ends in a return. */
  lemma {:induction false} WrittenReadsBackIff(lines: seq<string>)
    ensures Lines(Written(lines)) == lines <==> lines != [] && NoBreaks(lines) && NoReturns(lines)
  {
    hide Lines, Ended;
    LinesHaveNoBreaks(Written(lines));
    if lines == [] {
      OneBreak();
    } else if NoBreaks(lines) {
      WrittenIsEnded(lines);
      LinesOfEnded(lines);
      assert forall i :: 0 <= i < |lines| ==> (WithoutReturn(lines[i]) == lines[i] <==> !EndsInReturn(lines[i]));
    }
  }

  lemma {:induction false} OneBreak()
    ensures Lines("\n") == [""] && Written([]) == "\n"
  {
    assert "\n"[..0] == "" && "\n"[1..] == "";
  }

  predicate HasReturnBreak(text: string) {
    exists i :: 0 <= i < |text| - 1 && text[i] == '\r' && text[i + 1] == '\n'
  }

  predicate EndsInBreak(text: string) {
    text != "" && text[|text| - 1] == '\n'
  }

  /** Writing the lines of a text gives the same text if and only if it ends in a newline and no line of it ends in a
      return and a newline. Otherwise a rewriting changes the endings of lines that it leaves alone. */
  lemma {:induction false} RewritingKeepsTextIff(text: string)
    ensures Written(Lines(text)) == text <==> EndsInBreak(text) && !HasReturnBreak(text)
  {
    hide Lines, Ended;
    if text == "" {
    } else {
      SomeLine(text);
      WrittenIsEnded(Lines(text));
      EndedKeepsTextIff(text);
    }
  }

  lemma {:induction false} SomeLine(text: string)
    requires text != ""
    ensures Lines(text) != []
  {
  }

  lemma {:induction false} EndedKeepsTextIff(text: string)
    ensures Ended(Lines(text)) == text <==> text == "" || (EndsInBreak(text) && !HasReturnBreak(text))
  {
    var n := FirstBreak(text);
    if n < |text| {
      var line, rest := text[..n], text[n + 1..];
      assert text == line + "\n" + rest;
      EndedKeepsTextIff(rest);
      SameParts(line, rest, Ended(Lines(rest)));
      BreaksOfParts(line, rest);
      assert Lines(text)[1..] == Lines(rest);
    } else if text != "" {
      assert text == text[..n];
      assert [text][1..] == [];
      assert Ended([text]) == text + "\n" + "";
      assert |Ended([text])| == |text| + 1;
      assert '\n' !in text;
    }
  }

  lemma {:induction false} SameParts(line: string, rest: string, ended: string)
    ensures WithoutReturn(line) + "\n" + ended == line + "\n" + rest <==> !EndsInReturn(line) && ended == rest
  {
    var ours, text := WithoutReturn(line) + "\n" + ended, line + "\n" + rest;
    if EndsInReturn(line) {
      assert ours[|line| - 1] == '\n' && text[|line| - 1] == '\r';
    } else if ours == text {
      assert ended == ours[|line| + 1..] && rest == text[|line| + 1..];
    }
  }

  lemma {:induction false} BreaksOfParts(line: string, rest: string)
    requires '\n' !in line
    ensures HasReturnBreak(line + "\n" + rest) <==> EndsInReturn(line) || HasReturnBreak(rest)
    ensures EndsInBreak(line + "\n" + rest) <==> rest == "" || EndsInBreak(rest)
  {
    var text, n := line + "\n" + rest, |line| + 1;
    assert forall k :: 0 <= k < |line| ==> text[k] == line[k] && line[k] in line;
    if HasReturnBreak(text) {
      var i :| 0 <= i < |text| - 1 && text[i] == '\r' && text[i + 1] == '\n';
      if i >= n {
        assert rest[i - n] == '\r' && rest[i - n + 1] == '\n';
      }
    }
    if EndsInReturn(line) {
      assert text[|line| - 1] == '\r' && text[|line|] == '\n';
    }
    if HasReturnBreak(rest) {
      var i :| 0 <= i < |rest| - 1 && rest[i] == '\r' && rest[i + 1] == '\n';
      assert text[n + i] == '\r' && text[n + i + 1] == '\n';
    }
  }

  // ---- The text that an import stores ---------------------------------------------------------------------

  lemma {:induction false} JoinedLines(text: string)
    requires '\r' !in text
    ensures text == Join(Lines(text)) || text == Join(Lines(text)) + "\n"
  {
    hide Join;
    var n := FirstBreak(text);
    if n < |text| {
      var line, rest := text[..n], text[n + 1..];
      assert text == line + "\n" + rest;
      JoinedLines(rest);
      assert Lines(text) == [line] + Lines(rest);
      JoinsOn(line, Lines(rest));
      if rest != "" {
        SomeLine(rest);
        assert line + "\n" + (Join(Lines(rest)) + "\n") == line + "\n" + Join(Lines(rest)) + "\n";
      }
    } else if text != "" {
      assert Lines(text) == [text] == [text] + [];
      JoinsOn(text, []);
    } else {
      JoinsNothing();
    }
  }

  lemma {:induction false} JoinsNothing()
    ensures Join([]) == ""
  {
  }

  lemma {:induction false} JoinsOn(line: string, rest: seq<string>)
    ensures Join([line] + rest) == if rest == [] then line else line + "\n" + Join(rest)
  {
    assert ([line] + rest)[1..] == rest;
  }

  lemma {:induction false} TrimmedBreak(s: string)
    ensures Trim(s + "\n") == Trim(s)
  {
    if s == "" {
      assert ("\n")[1..] == "";
      assert s + "\n" == "\n";
    } else if IsWhitespace(s[0]) {
      assert (s + "\n")[1..] == s[1..] + "\n";
      TrimmedBreak(s[1..]);
    } else {
      assert (s + "\n")[..|s|] == s;
    }
  }

  /** For a file without returns, what `import` stores is the trimmed text of the whole file. */
  lemma {:induction false} TrimmedLines(text: string)
    requires '\r' !in text
    ensures TrimmedText(Lines(text)) == Trim(text)
  {
    JoinedLines(text);
    TrimmedBreak(Join(Lines(text)));
  }
}
