/** The quoting of exported values (src/main.rs), read back by the rules of sections 2.2.1 and 2.2.2 of the
    POSIX.1-2017 Shell Command Language. */
module ShellQuote {
  import opened Common

  const QUOTE := '\''
  const BACKSLASH := '\\'

  // ---------------------------------------------------------------------------------------------
  // The writer

  /** Every single quote becomes a closing quote, an escaped quote and an opening quote. */
  function Replaced(s: string): string {
    if s == "" then ""
    else (if s[0] == QUOTE then [QUOTE, BACKSLASH, QUOTE, QUOTE] else [s[0]]) + Replaced(s[1..])
  }

  function ShellEscape(s: string): string {
    [QUOTE] + Replaced(s) + [QUOTE]
  }

  /** The line `export NAME=value` without its first word. */
  function Assignment(name: string, value: string): string {
    name + "=" + ShellEscape(value)
  }

  // ---------------------------------------------------------------------------------------------
  // The shell

  /** Characters that end a word outside quotes. */
  predicate EndsWord(c: char) {
    c in {' ', '\t', '\n', '|', '&', ';', '<', '>', '(', ')'}
  }

  /** Characters that can start an expansion, a comment or double quotes. Some of them mean themselves in the middle
      of a word; the reader gives up on them everywhere, so a name that has one does not count as exportable. */
  predicate Expands(c: char) {
    c in {'$', '`', '"', '*', '?', '[', ']', '#', '~', '!', '{', '}', '^'}
  }

  /** Characters that mean themselves outside quotes. */
  predicate Plain(c: char) {
    !EndsWord(c) && !Expands(c) && c != QUOTE && c != BACKSLASH
  }

  datatype Word = Word(text: string, rest: string)

  /** The word at the front of `input`, and the input after it; None when the word is not finished or holds a
      character that may start an expansion. */
  function ReadWord(input: string, text: string): Option<Word>
    decreases |input|, 1
  {
    if input == "" then Some(Word(text, ""))
    else if EndsWord(input[0]) then Some(Word(text, input))
    else if input[0] == QUOTE then ReadQuoted(input[1..], text)
    else if input[0] == BACKSLASH then
      if |input| == 1 then None
      else if input[1] == '\n' then ReadWord(input[2..], text)
      else ReadWord(input[2..], text + [input[1]])
    else if Plain(input[0]) then ReadWord(input[1..], text + [input[0]])
    else None
  }

  /** Inside single quotes every character means itself, up to the next single quote. */
  function ReadQuoted(input: string, text: string): Option<Word>
    decreases |input|, 0
  {
    if input == "" then None
    else if input[0] == QUOTE then ReadWord(input[1..], text)
    else ReadQuoted(input[1..], text + [input[0]])
  }

  // ---------------------------------------------------------------------------------------------
  // Reading undoes quoting

  lemma {:induction false} ReadReplaced(s: string, rest: string, text: string)
    ensures ReadQuoted(Replaced(s) + [QUOTE] + rest, text) == ReadWord(rest, text + s)
  {
    var input := Replaced(s) + [QUOTE] + rest;
    if s == "" {
      assert input[1..] == rest && text + s == text;
    } else {
      var later := Replaced(s[1..]) + [QUOTE] + rest;
      ReadReplaced(s[1..], rest, text + [s[0]]);
      assert text + [s[0]] + s[1..] == text + s;
      if s[0] == QUOTE {
        ReadEscapedQuote(input, later, text);
      } else {
        assert input == [s[0]] + later;
        assert input[1..] == later;
      }
    }
  }

  lemma {:induction false} ReadEscapedQuote(input: string, later: string, text: string)
    requires input == [QUOTE, BACKSLASH, QUOTE, QUOTE] + later
    ensures ReadQuoted(input, text) == ReadQuoted(later, text + [QUOTE])
  {
    var outside := input[1..];
    assert outside[0] == BACKSLASH && outside[1] == QUOTE;
    assert outside[2..] == [QUOTE] + later;
    assert ReadWord(outside, text) == ReadWord([QUOTE] + later, text + [QUOTE]);
    assert ([QUOTE] + later)[1..] == later;
  }

  /** Whatever the value, its quoted form is one word, which is the value. */
  lemma {:induction false} QuotingIsUndone(s: string, rest: string, text: string)
    requires rest == "" || EndsWord(rest[0])
    ensures ReadWord(ShellEscape(s) + rest, text) == Some(Word(text + s, rest))
  {
    var input := ShellEscape(s) + rest;
    assert input[1..] == Replaced(s) + [QUOTE] + rest;
    ReadReplaced(s, rest, text);
  }

  lemma {:induction false} ReadPlain(name: string, rest: string, text: string)
    requires forall i :: 0 <= i < |name| ==> Plain(name[i])
    ensures ReadWord(name + rest, text) == ReadWord(rest, text + name)
  {
    if name == "" {
      assert name + rest == rest && text + name == text;
    } else {
      assert (name + rest)[1..] == name[1..] + rest;
      ReadPlain(name[1..], rest, text + [name[0]]);
      assert text + [name[0]] + name[1..] == text + name;
    }
  }

  // ---------------------------------------------------------------------------------------------
  // Which names export a value

  /** The name and the value that a word assigns: what stands before and after its first equals sign. */
  function SplitAssignment(word: string): Option<(string, string)> {
    if word == "" then None
    else if word[0] == '=' then Some(("", word[1..]))
    else
      match SplitAssignment(word[1..])
      case Some(parts) => Some(([word[0]] + parts.0, parts.1))
      case None => None
  }

  /** The shell reads `line` as one word that assigns `value` to `name`, and stops right before `rest`. Whether the
      name is a legal one is the shell's business. */
  predicate Assigns(line: string, name: string, value: string, rest: string) {
    var word := ReadWord(line, "");
    word.Some? && word.value.rest == rest && SplitAssignment(word.value.text) == Some((name, value))
  }

  /** The name, which is printed as it was given, has only characters that mean themselves and are no equals sign. */
  predicate ExportableName(name: string) {
    forall i :: 0 <= i < |name| ==> Plain(name[i]) && name[i] != '='
  }

  lemma {:induction false} SplitJoins(word: string)
    requires SplitAssignment(word).Some?
    ensures word == SplitAssignment(word).value.0 + "=" + SplitAssignment(word).value.1
    ensures '=' !in SplitAssignment(word).value.0
  {
    if word[0] != '=' {
      SplitJoins(word[1..]);
      assert word == [word[0]] + word[1..];
    }
  }

  lemma {:induction false} JoinSplits(name: string, value: string)
    requires '=' !in name
    ensures SplitAssignment(name + "=" + value) == Some((name, value))
  {
    var word := name + "=" + value;
    if name == "" {
      assert word[1..] == value;
    } else {
      assert word[1..] == name[1..] + "=" + value;
      JoinSplits(name[1..], value);
      assert name == [name[0]] + name[1..];
    }
  }

  lemma {:induction false} ReadingConsumes(input: string, text: string)
    ensures ReadWord(input, text).Some? ==> |ReadWord(input, text).value.rest| <= |input|
    ensures ReadQuoted(input, text).Some? ==> |ReadQuoted(input, text).value.rest| < |input|
    decreases |input|
  {
    if input != "" {
      ReadingConsumes(input[1..], text);
      ReadingConsumes(input[1..], text + [input[0]]);
      if |input| > 1 {
        ReadingConsumes(input[2..], text);
        ReadingConsumes(input[2..], text + [input[1]]);
      }
    }
  }

  /** Reading ends right before `rest` with at most `most` characters. */
  predicate YieldsAtMost(word: Option<Word>, rest: string, most: int) {
    word.Some? && word.value.rest == rest ==> |word.value.text| <= most
  }

  lemma {:induction false} ReadAcrossQuote(later: string, text: string)
    ensures ReadWord([QUOTE, BACKSLASH, QUOTE, QUOTE] + later, text) == ReadQuoted(later, text + [BACKSLASH])
  {
    var input := [QUOTE, BACKSLASH, QUOTE, QUOTE] + later;
    var quoted := [BACKSLASH, QUOTE, QUOTE] + later;
    var closing := [QUOTE, QUOTE] + later;
    assert input[1..] == quoted && quoted[1..] == closing;
    assert closing[1..] == [QUOTE] + later && ([QUOTE] + later)[1..] == later;
    assert ReadWord(input, text) == ReadQuoted(quoted, text) == ReadQuoted(closing, text + [BACKSLASH]);
    assert ReadQuoted(closing, text + [BACKSLASH]) == ReadWord([QUOTE] + later, text + [BACKSLASH]);
  }

  lemma {:induction false} ReadEscapedPair(later: string, text: string)
    ensures ReadWord([BACKSLASH, QUOTE, BACKSLASH, QUOTE, QUOTE] + later, text)
            == ReadQuoted(later, text + [QUOTE] + [QUOTE])
  {
    var input := [BACKSLASH, QUOTE, BACKSLASH, QUOTE, QUOTE] + later;
    var second := [BACKSLASH, QUOTE, QUOTE] + later;
    assert input[2..] == second && second[2..] == [QUOTE] + later && ([QUOTE] + later)[1..] == later;
    assert ReadWord(input, text) == ReadWord(second, text + [QUOTE]);
    assert ReadWord(second, text + [QUOTE]) == ReadWord([QUOTE] + later, text + [QUOTE] + [QUOTE]);
  }

  /** A quoted value whose opening quote is taken for a closing one yields no more characters than the value has. */
  lemma {:induction false} ReplacedYields(s: string, rest: string, text: string)
    requires rest == "" || EndsWord(rest[0])
    ensures YieldsAtMost(ReadWord(Replaced(s) + [QUOTE] + rest, text), rest, |text| + |s|)
    decreases |s|
  {
    var input := Replaced(s) + [QUOTE] + rest;
    ReadingConsumes(input[1..], text);
    if s == "" {
      assert input[1..] == rest;
    } else {
      var later := Replaced(s[1..]) + [QUOTE] + rest;
      if s[0] == QUOTE {
        assert input == [QUOTE, BACKSLASH, QUOTE, QUOTE] + later;
        ReadAcrossQuote(later, text);
        ReadReplaced(s[1..], rest, text + [BACKSLASH]);
      } else {
        assert input == [s[0]] + later && input[1..] == later;
        if s[0] == BACKSLASH {
          EscapedYields(s, rest, text);
        } else if Plain(s[0]) {
          ReplacedYields(s[1..], rest, text + [s[0]]);
        }
      }
    }
  }

  /** The same for a value that starts with a backslash, which then escapes what follows it. */
  lemma {:induction false} EscapedYields(s: string, rest: string, text: string)
    requires rest == "" || EndsWord(rest[0])
    requires s != "" && s[0] == BACKSLASH
    ensures YieldsAtMost(ReadWord([BACKSLASH] + (Replaced(s[1..]) + [QUOTE] + rest), text), rest, |text| + |s|)
    decreases |s|, 0
  {
    var input := [BACKSLASH] + (Replaced(s[1..]) + [QUOTE] + rest);
    if |s| == 1 {
      assert input[2..] == rest;
    } else {
      var later := Replaced(s[2..]) + [QUOTE] + rest;
      assert s[1..][1..] == s[2..];
      if s[1] == QUOTE {
        assert input == [BACKSLASH, QUOTE, BACKSLASH, QUOTE, QUOTE] + later;
        ReadEscapedPair(later, text);
        ReadReplaced(s[2..], rest, text + [QUOTE] + [QUOTE]);
      } else {
        assert input[1..] == [s[1]] + later;
        assert input[2..] == later;
        ReplacedYields(s[2..], rest, text);
        ReplacedYields(s[2..], rest, text + [s[1]]);
      }
    }
  }

  /** Everything the command prints after a part `name` of the name, with `rest` behind it. */
  function Printed(name: string, value: string, rest: string): string {
    name + ("=" + (ShellEscape(value) + rest))
  }

  /** Outside quotes a name that is not plain throughout costs at least one character. */
  lemma {:induction false} NameYields(name: string, value: string, rest: string, text: string)
    requires rest == "" || EndsWord(rest[0])
    requires exists i :: 0 <= i < |name| && !Plain(name[i])
    ensures YieldsAtMost(ReadWord(Printed(name, value, rest), text), rest, |text| + |name| + |value|)
    decreases |name|, 1
  {
    hide Replaced, ShellEscape;
    var input := Printed(name, value, rest);
    assert input[1..] == Printed(name[1..], value, rest);
    if name[0] == QUOTE {
      QuotedNameYields(name[1..], value, rest, text);
    } else if name[0] == BACKSLASH {
      EscapedNameYields(name, value, rest, text);
    } else if Plain(name[0]) {
      var i :| 0 <= i < |name| && !Plain(name[i]);
      assert name[1..][i - 1] == name[i];
      NameYields(name[1..], value, rest, text + [name[0]]);
    }
  }

  /** A backslash costs a character wherever it stands, even at the end, where it escapes the equals sign. */
  lemma {:induction false} EscapedNameYields(name: string, value: string, rest: string, text: string)
    requires rest == "" || EndsWord(rest[0])
    requires name != "" && name[0] == BACKSLASH
    ensures YieldsAtMost(ReadWord(Printed(name, value, rest), text), rest, |text| + |name| + |value|)
    decreases |name|, 0
  {
    hide Replaced, ShellEscape;
    var input := Printed(name, value, rest);
    if |name| == 1 {
      assert input[1] == '=' && input[2..] == ShellEscape(value) + rest;
      QuotingIsUndone(value, rest, text + "=");
    } else {
      assert input[1] == name[1] && input[2..] == Printed(name[2..], value, rest);
      AnyNameYields(name[2..], value, rest, text);
      AnyNameYields(name[2..], value, rest, text + [name[1]]);
    }
  }

  lemma {:induction false} AnyNameYields(name: string, value: string, rest: string, text: string)
    requires rest == "" || EndsWord(rest[0])
    ensures YieldsAtMost(ReadWord(Printed(name, value, rest), text), rest, |text| + |name| + 1 + |value|)
    decreases |name|, 2
  {
    if forall i :: 0 <= i < |name| ==> Plain(name[i]) {
      ReadPrinted(name, value, rest, text);
    } else {
      NameYields(name, value, rest, text);
    }
  }

  /** Inside quotes every character of a name stands for at most itself. */
  lemma {:induction false} QuotedNameYields(name: string, value: string, rest: string, text: string)
    requires rest == "" || EndsWord(rest[0])
    ensures YieldsAtMost(ReadQuoted(Printed(name, value, rest), text), rest, |text| + |name| + 1 + |value|)
    decreases |name|, 3
  {
    var input := Printed(name, value, rest);
    if name == "" {
      var escaped := ShellEscape(value) + rest;
      assert input[1..] == escaped;
      assert escaped[1..] == Replaced(value) + [QUOTE] + rest;
      ReplacedYields(value, rest, text + "=");
    } else {
      assert input[1..] == Printed(name[1..], value, rest);
      if name[0] == QUOTE {
        AnyNameYields(name[1..], value, rest, text);
      } else {
        QuotedNameYields(name[1..], value, rest, text + [name[0]]);
      }
    }
  }

  lemma {:induction false} ReadPrinted(name: string, value: string, rest: string, text: string)
    requires forall i :: 0 <= i < |name| ==> Plain(name[i])
    requires rest == "" || EndsWord(rest[0])
    ensures ReadWord(Printed(name, value, rest), text) == Some(Word(text + name + "=" + value, rest))
  {
    var left := name + "=";
    assert Printed(name, value, rest) == left + (ShellEscape(value) + rest);
    ReadPlain(left, ShellEscape(value) + rest, text);
    assert text + left == text + name + "=";
    QuotingIsUndone(value, rest, text + left);
  }

  /** What the shell assigns is the stored value, byte for byte, to the given name, and the line ends where the
      writer ended it, if and only if the name can stand unquoted. */
  lemma {:induction false} ExportAssignsIff(name: string, value: string, rest: string)
    requires rest == "" || EndsWord(rest[0])
    ensures Assigns(Assignment(name, value) + rest, name, value, rest) <==> ExportableName(name)
  {
    hide Replaced, ShellEscape;
    assert Assignment(name, value) + rest == Printed(name, value, rest);
    var word := ReadWord(Printed(name, value, rest), "");
    if ExportableName(name) {
      ReadPrinted(name, value, rest, "");
      assert "" + name + "=" + value == name + "=" + value;
      JoinSplits(name, value);
    } else if Assigns(Assignment(name, value) + rest, name, value, rest) {
      SplitJoins(word.value.text);
      var i :| 0 <= i < |name| && !(Plain(name[i]) && name[i] != '=');
      assert name[i] in name;
      NameYields(name, value, rest, "");
      assert false;
    }
  }

  /** A name with a blank exports something else, and the value is printed outside its variable. */
  lemma {:induction false} BlankEndsTheName(value: string)
    ensures ReadWord(Assignment("A B", value), "") == Some(Word("A", " B" + "=" + ShellEscape(value)))
    ensures !Assigns(Assignment("A B", value), "A B", value, "")
  {
    var input := Assignment("A B", value);
    var blank := " B" + "=" + ShellEscape(value);
    assert input[1..] == blank && blank[0] == ' ' && "" + ['A'] == "A";
    assert ReadWord(blank, "A") == Some(Word("A", blank));
  }

  /** Different values are never exported the same way. */
  lemma {:induction false} QuotingIsInjective(s: string, t: string)
    requires ShellEscape(s) == ShellEscape(t)
    ensures s == t
  {
    QuotingIsUndone(s, "", "");
    QuotingIsUndone(t, "", "");
    assert ShellEscape(s) + "" == ShellEscape(s) && ShellEscape(t) + "" == ShellEscape(t);
    assert "" + s == s && "" + t == t;
  }
}
