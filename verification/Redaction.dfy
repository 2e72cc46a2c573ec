/** Streaming output redaction: the pattern set, the one-shot meaning of redaction, the
    chunk-by-chunk stream with its hold-back buffer, and the pump that drives it. */
module Redaction {
  import opened Common
  import opened LeftmostLongest
  import PercentEncoding

  const MIN_REDACTABLE_LEN: nat := 8

  datatype Secret = Secret(name: seq<byte>, value: seq<byte>)

  predicate IsRedactable(secret: Secret) {
    MIN_REDACTABLE_LEN <= |secret.value|
  }

  /** "<vault:NAME>" */
  function Placeholder(name: seq<byte>): seq<byte> {
    [0x3C, 0x76, 0x61, 0x75, 0x6C, 0x74, 0x3A] + name + [0x3E]
  }

  /** The texts to look for on behalf of one secret, in priority order. */
  function FormsOf(secret: Secret): seq<Pattern> {
    var encoded := PercentEncoding.Encode(secret.value);
    if !IsRedactable(secret) then []
    else if encoded == secret.value then [secret.value]
    else [secret.value, encoded]
  }

  function PatternsOf(secrets: seq<Secret>): seq<Pattern> {
    if secrets == [] then []
    else PatternsOf(secrets[..|secrets| - 1]) + FormsOf(secrets[|secrets| - 1])
  }

  function ReplacementsOf(secrets: seq<Secret>): (r: seq<seq<byte>>)
    ensures |r| == |PatternsOf(secrets)|
  {
    if secrets == [] then []
    else
      var last := secrets[|secrets| - 1];
      ReplacementsOf(secrets[..|secrets| - 1])
      + seq(|FormsOf(last)|, _ => Placeholder(last.name))
  }

  datatype Redactor = Redactor(patterns: seq<Pattern>, replacements: seq<seq<byte>>,
                               holdBack: nat, lineSafe: bool)
  {
    ghost predicate Valid() {
      && |patterns| == |replacements|
      && AllNonEmpty(patterns)
      && (forall k :: 0 <= k < |patterns| ==> |patterns[k]| <= holdBack + 1)
      && (lineSafe ==> NoNewline(patterns))
    }

    /** One-shot redaction of `s` from position `i` on: at each position the winning pattern,
        if there is one, is replaced whole; otherwise one byte is copied. */
    function RedactFrom(s: seq<byte>, i: nat): seq<byte>
      requires |patterns| == |replacements| && AllNonEmpty(patterns) && i <= |s|
      decreases |s| - i
    {
      if i == |s| then []
      else
        match Winner(patterns, s, i)
        case None => [s[i]] + RedactFrom(s, i + 1)
        case Some(k) =>
          replacements[k] + RedactFrom(s, i + |patterns[k]|)
    }

    function Redact(s: seq<byte>): seq<byte>
      requires |patterns| == |replacements| && AllNonEmpty(patterns)
    {
      RedactFrom(s, 0)
    }

    /** How much of `buf` the stream may decide on before the next chunk arrives. */
    function SafeLen(buf: seq<byte>, eof: bool): (n: nat)
      ensures n <= |buf|
      ensures eof ==> n == |buf|
    {
      var held := if eof then 0 else holdBack;
      var byLength := if held <= |buf| then |buf| - held else 0;
      if lineSafe && byLength < LineEnd(buf) then LineEnd(buf) else byLength
    }
  }

  /** The position after the last newline of `buf`; 0 if there is none. */
  function LineEnd(buf: seq<byte>): (n: nat)
    ensures n <= |buf|
    ensures n > 0 ==> buf[n - 1] == NEWLINE
    ensures NEWLINE !in buf[n..]
  {
    if buf == [] then 0
    else if buf[|buf| - 1] == NEWLINE then |buf|
    else
      var n := LineEnd(buf[..|buf| - 1]);
      assert buf[n..] == buf[..|buf| - 1][n..] + [buf[|buf| - 1]];
      n
  }

  // ---- Building the redactor -------------------------------------------------------------

  method NewRedactor(secrets: seq<Secret>) returns (r: Redactor)
    ensures r.Valid()
    ensures r.patterns == PatternsOf(secrets)
    ensures r.replacements == ReplacementsOf(secrets)
    ensures r.holdBack > 0 ==> exists k :: 0 <= k < |r.patterns| && |r.patterns[k]| == r.holdBack + 1
    ensures r.lineSafe <==> NoNewlineInValues(secrets)
  {
    var patterns: seq<Pattern> := [];
    var replacements: seq<seq<byte>> := [];
    for i := 0 to |secrets|
      invariant patterns == PatternsOf(secrets[..i])
      invariant replacements == ReplacementsOf(secrets[..i])
    {
      assert secrets[..i + 1][..i] == secrets[..i];
      if IsRedactable(secrets[i]) {
        var placeholder := Placeholder(secrets[i].name);
        patterns := patterns + [secrets[i].value];
        replacements := replacements + [placeholder];
        var encoded := PercentEncoding.PercentEncode(secrets[i].value);
        if encoded != secrets[i].value {
          patterns := patterns + [encoded];
          replacements := replacements + [placeholder];
        }
      }
    }
    assert secrets[..|secrets|] == secrets;

    var longest, lineSafe := Measure(patterns);
    r := Redactor(patterns, replacements, if longest > 0 then longest - 1 else 0, lineSafe);
    PatternsAreTheForms(secrets);
    LineSafeFromValues(secrets);
  }

  /** The longest pattern's length (0 if there is none), and whether no pattern has a newline. */
  method Measure(patterns: seq<Pattern>) returns (longest: nat, lineSafe: bool)
    ensures forall j :: 0 <= j < |patterns| ==> |patterns[j]| <= longest
    ensures longest > 0 ==> exists j :: 0 <= j < |patterns| && |patterns[j]| == longest
    ensures lineSafe <==> NoNewline(patterns)
  {
    longest := 0;
    lineSafe := true;
    for k := 0 to |patterns|
      invariant forall j :: 0 <= j < k ==> |patterns[j]| <= longest
      invariant longest > 0 ==> exists j :: 0 <= j < k && |patterns[j]| == longest
      invariant lineSafe <==> forall j :: 0 <= j < k ==> NEWLINE !in patterns[j]
    {
      if longest < |patterns[k]| {
        longest := |patterns[k]|;
      }
      lineSafe := lineSafe && NEWLINE !in patterns[k];
    }
  }

  predicate NoNewline(patterns: seq<Pattern>) {
    forall k :: 0 <= k < |patterns| ==> NEWLINE !in patterns[k]
  }

  predicate NoNewlineInValues(secrets: seq<Secret>) {
    forall i :: 0 <= i < |secrets| && IsRedactable(secrets[i]) ==> NEWLINE !in secrets[i].value
  }

  /** Encoded forms never contain a newline, so only the raw values decide. */
  lemma {:induction false} LineSafeFromValues(secrets: seq<Secret>)
    ensures NoNewline(PatternsOf(secrets)) <==> NoNewlineInValues(secrets)
  {
    var patterns := PatternsOf(secrets);
    if NoNewline(patterns) {
      forall i | 0 <= i < |secrets| && IsRedactable(secrets[i])
        ensures NEWLINE !in secrets[i].value
      {
        FormsAreInPatterns(secrets, i);
      }
    }
    if NoNewlineInValues(secrets) {
      forall k | 0 <= k < |patterns| ensures NEWLINE !in patterns[k] {
        var i := OwnerOf(secrets, k);
        PercentEncoding.EncodedForm(secrets[i].value);
      }
    }
  }

  /** Every redactable value is a pattern, and so is its encoded form. */
  lemma {:induction false} FormsAreInPatterns(secrets: seq<Secret>, i: nat)
    requires i < |secrets| && IsRedactable(secrets[i])
    ensures secrets[i].value in PatternsOf(secrets)
    ensures PercentEncoding.Encode(secrets[i].value) in PatternsOf(secrets)
  {
    var n := |secrets| - 1;
    if i == n {
      assert secrets[i].value == FormsOf(secrets[n])[0];
    } else {
      FormsAreInPatterns(secrets[..n], i);
    }
  }

  /** Every pattern is a form of a redactable secret, and its replacement names that secret. */
  lemma {:induction false} OwnerOf(secrets: seq<Secret>, k: nat) returns (i: nat)
    requires k < |PatternsOf(secrets)|
    ensures i < |secrets| && IsRedactable(secrets[i])
    ensures || PatternsOf(secrets)[k] == secrets[i].value
            || PatternsOf(secrets)[k] == PercentEncoding.Encode(secrets[i].value)
    ensures ReplacementsOf(secrets)[k] == Placeholder(secrets[i].name)
  {
    var n := |secrets| - 1;
    if k < |PatternsOf(secrets[..n])| {
      i := OwnerOf(secrets[..n], k);
    } else {
      i := n;
    }
  }

  lemma {:induction false} PatternsAreTheForms(secrets: seq<Secret>)
    ensures forall k :: 0 <= k < |PatternsOf(secrets)| ==>
              MIN_REDACTABLE_LEN <= |PatternsOf(secrets)[k]|
  {
    forall k | 0 <= k < |PatternsOf(secrets)|
      ensures MIN_REDACTABLE_LEN <= |PatternsOf(secrets)[k]|
    {
      var i := OwnerOf(secrets, k);
      PercentEncoding.EncodedForm(secrets[i].value);
    }
  }

  // ---- One-shot redaction ----------------------------------------------------------------

  lemma {:induction false} Associative(a: seq<byte>, b: seq<byte>, c: seq<byte>)
    ensures (a + b) + c == a + (b + c)
  {
  }

  /** Text in which no pattern starts is copied. */
  lemma {:induction false} RedactCopies(r: Redactor, s: seq<byte>, i: nat, j: nat)
    requires r.Valid() && i <= j <= |s|
    requires NoneStartsIn(r.patterns, s, i, j)
    ensures r.RedactFrom(s, i) == s[i..j] + r.RedactFrom(s, j)
    decreases j - i
  {
    hide Winner, OccursAt;
    if i < j {
      WinnerWins(r.patterns, s, i);
      RedactCopies(r, s, i + 1, j);
      assert s[i..j] == [s[i]] + s[i + 1..j];
    }
  }

  /** The text up to a first match is copied and the match replaced. */
  lemma {:induction false} RedactThroughMatch(r: Redactor, s: seq<byte>, from: nat, m: Match)
    requires r.Valid() && from <= |s| && IsNext(r.patterns, s, from, Some(m))
    ensures r.RedactFrom(s, from)
         == s[from..m.start] + r.replacements[m.pattern] + r.RedactFrom(s, End(r.patterns, m))
  {
    RedactCopies(r, s, from, m.start);
    WinnerIsUnique(r.patterns, s, m.start, m.pattern);
    Associative(s[from..m.start], r.replacements[m.pattern], r.RedactFrom(s, End(r.patterns, m)));
  }

  lemma {:induction false} OccursInSuffix(p: Pattern, s: seq<byte>, i: nat, d: nat)
    requires i + d <= |s|
    ensures OccursAt(p, s, i + d) <==> OccursAt(p, s[i..], d)
  {
    if i + d + |p| <= |s| {
      assert s[i + d..i + d + |p|] == s[i..][d..d + |p|];
    }
  }

  /** What is redacted from position `i + d` on does not depend on the text before `i`. */
  lemma {:induction false} RedactDependsOnSuffix(r: Redactor, s: seq<byte>, i: nat, t: seq<byte>,
                                                 d: nat)
    requires r.Valid() && i + |t| == |s| && s[i..] == t && d <= |t|
    ensures r.RedactFrom(s, i + d) == r.RedactFrom(t, d)
    decreases |t| - d
  {
    hide Winner, OccursAt;
    if d < |t| {
      SameWinnerInSuffix(r, s, i, t, d);
      assert t[d] == s[i + d];
      match Winner(r.patterns, t, d)
      case None =>
        RedactDependsOnSuffix(r, s, i, t, d + 1);
      case Some(k) =>
        RedactDependsOnSuffix(r, s, i, t, d + |r.patterns[k]|);
    }
  }

  lemma {:induction false} SameWinnerInSuffix(r: Redactor, s: seq<byte>, i: nat, t: seq<byte>, d: nat)
    requires i + |t| == |s| && s[i..] == t && d <= |t|
    ensures Winner(r.patterns, s, i + d) == Winner(r.patterns, t, d)
  {
    forall k | 0 <= k < |r.patterns|
      ensures OccursAt(r.patterns[k], s, i + d) <==> OccursAt(r.patterns[k], t, d)
    {
      OccursInSuffix(r.patterns[k], s, i, d);
    }
    SameWinner(r.patterns, s, i + d, t, d);
  }

  // ---- Why the cut is safe ---------------------------------------------------------------

  lemma {:induction false} OccurrenceContains(p: Pattern, s: seq<byte>, i: nat, n: nat)
    requires OccursAt(p, s, i) && i <= n < i + |p|
    ensures s[n] in p
  {
    assert p[n - i] == s[i..i + |p|][n - i];
  }

  /** Before `SafeLen`, no continuation of the buffer can add or change a match: a pattern that
      starts there and runs past the end of the buffer is either too long or contains a
      newline. */
  lemma {:induction false} DecidedBeforeSafeLen(r: Redactor, buf: seq<byte>, eof: bool, j: nat, rest: seq<byte>)
    requires r.Valid() && j < r.SafeLen(buf, eof)
    requires eof ==> rest == []
    ensures Winner(r.patterns, buf + rest, j) == Winner(r.patterns, buf, j)
    ensures AnyOccursAt(r.patterns, buf + rest, j) <==> AnyOccursAt(r.patterns, buf, j)
  {
    forall k | 0 <= k < |r.patterns|
      ensures OccursAt(r.patterns[k], buf + rest, j) <==> OccursAt(r.patterns[k], buf, j)
    {
      var p := r.patterns[k];
      if j + |p| <= |buf| {
        assert (buf + rest)[j..j + |p|] == buf[j..j + |p|];
      } else if OccursAt(p, buf + rest, j) {
        // The pattern reaches past the buffer, so `SafeLen` came from the last newline.
        OccurrenceContains(p, buf + rest, j, LineEnd(buf) - 1);
      }
    }
    SameWinner(r.patterns, buf + rest, j, buf, j);
  }

  /** A match that crosses `SafeLen` starts fewer than `holdBack + 1` bytes before it and after the last newline. */
  lemma {:induction false} CrossingMatch(r: Redactor, buf: seq<byte>, eof: bool, i: nat, k: nat)
    requires r.Valid() && WinsAt(r.patterns, buf, i, k)
    requires r.SafeLen(buf, eof) < i + |r.patterns[k]|
    ensures r.SafeLen(buf, eof) <= i + r.holdBack
    ensures r.lineSafe ==> LineEnd(buf) <= i
  {
    var p := r.patterns[k];
    if r.lineSafe && i < LineEnd(buf) {
      OccurrenceContains(p, buf, i, LineEnd(buf) - 1);
    }
  }

  /** `out` is what redaction of `buf` emits before `cursor`, whatever follows `buf`. */
  ghost predicate Settled(r: Redactor, buf: seq<byte>, eof: bool, out: seq<byte>, cursor: nat)
    requires r.Valid() && cursor <= |buf|
  {
    forall rest: seq<byte> {:trigger r.Redact(buf + rest)} {:trigger r.RedactFrom(buf + rest, cursor)}
      | eof ==> rest == [] ::
      out + r.RedactFrom(buf + rest, cursor) == r.Redact(buf + rest)
  }

  lemma {:induction false} SettleCopied(r: Redactor, buf: seq<byte>, eof: bool, out: seq<byte>, cursor: nat, to: nat)
    requires r.Valid() && cursor <= to <= r.SafeLen(buf, eof)
    requires Settled(r, buf, eof, out, cursor)
    requires NoneStartsIn(r.patterns, buf, cursor, to)
    ensures Settled(r, buf, eof, out + buf[cursor..to], to)
  {
    forall rest: seq<byte> | eof ==> rest == []
      ensures (out + buf[cursor..to]) + r.RedactFrom(buf + rest, to) == r.Redact(buf + rest)
    {
      forall n | cursor <= n < to
        ensures !AnyOccursAt(r.patterns, buf + rest, n)
      {
        DecidedBeforeSafeLen(r, buf, eof, n, rest);
      }
      RedactCopies(r, buf + rest, cursor, to);
      assert (buf + rest)[cursor..to] == buf[cursor..to];
      Associative(out, buf[cursor..to], r.RedactFrom(buf + rest, to));
    }
  }

  lemma {:induction false} RedactMatched(r: Redactor, s: seq<byte>, i: nat, k: nat)
    requires r.Valid() && i < |s| && Winner(r.patterns, s, i) == Some(k)
    ensures r.RedactFrom(s, i) == r.replacements[k] + r.RedactFrom(s, i + |r.patterns[k]|)
  {
    hide Winner;
  }

  lemma {:induction false} SettleReplaced(r: Redactor, buf: seq<byte>, eof: bool, out: seq<byte>, i: nat, k: nat)
    requires r.Valid() && WinsAt(r.patterns, buf, i, k)
    requires i + |r.patterns[k]| <= r.SafeLen(buf, eof)
    requires Settled(r, buf, eof, out, i)
    ensures Settled(r, buf, eof, out + r.replacements[k], i + |r.patterns[k]|)
  {
    hide Redactor.RedactFrom, Redactor.SafeLen;
    forall rest: seq<byte> | eof ==> rest == []
      ensures (out + r.replacements[k]) + r.RedactFrom(buf + rest, i + |r.patterns[k]|) == r.Redact(buf + rest)
    {
      ReplacedWithRest(r, buf, eof, out, i, k, rest);
    }
  }

  lemma {:induction false} ReplacedWithRest(r: Redactor, buf: seq<byte>, eof: bool, out: seq<byte>, i: nat, k: nat,
                                            rest: seq<byte>)
    requires r.Valid() && WinsAt(r.patterns, buf, i, k)
    requires i + |r.patterns[k]| <= r.SafeLen(buf, eof) && (eof ==> rest == [])
    ensures (out + r.replacements[k]) + r.RedactFrom(buf + rest, i + |r.patterns[k]|)
         == out + r.RedactFrom(buf + rest, i)
  {
    WinnerIsUnique(r.patterns, buf, i, k);
    hide Winner, OccursAt, AnyOccursAt, Redactor.RedactFrom, LineEnd;
    DecidedBeforeSafeLen(r, buf, eof, i, rest);
    RedactMatched(r, buf + rest, i, k);
    Associative(out, r.replacements[k], r.RedactFrom(buf + rest, i + |r.patterns[k]|));
  }

  // ---- The stream ------------------------------------------------------------------------

  /** What one call owes: from `buf` (held bytes plus the new chunk) it emits `out` and keeps
      `carry`, a suffix of `buf`, so that for every continuation the text emitted now followed by
      the redaction of what is still to come is the redaction of the whole. */
  ghost predicate Flushes(r: Redactor, buf: seq<byte>, eof: bool, out: seq<byte>, carry: seq<byte>)
    requires r.Valid()
  {
    && |carry| <= |buf| && carry == buf[|buf| - |carry|..]
    && |carry| <= 2 * r.holdBack
    && (r.lineSafe ==> NEWLINE !in carry)
    && (eof ==> carry == [])
    && forall rest: seq<byte> {:trigger r.Redact(carry + rest)} {:trigger r.Redact(buf + rest)}
         | eof ==> rest == [] ::
         out + r.Redact(carry + rest) == r.Redact(buf + rest)
  }

  lemma {:induction false} SettledFlushes(r: Redactor, buf: seq<byte>, eof: bool, out: seq<byte>, cut: nat)
    requires r.Valid() && cut <= |buf| && Settled(r, buf, eof, out, cut)
    requires |buf| - cut <= 2 * r.holdBack
    requires r.lineSafe ==> LineEnd(buf) <= cut
    requires eof ==> cut == |buf|
    ensures Flushes(r, buf, eof, out, buf[cut..])
  {
    if r.lineSafe {
      assert buf[cut..] == buf[LineEnd(buf)..][cut - LineEnd(buf)..];
    }
    var carry := buf[cut..];
    forall rest: seq<byte> | eof ==> rest == []
      ensures out + r.Redact(carry + rest) == r.Redact(buf + rest)
    {
      RedactRest(r, buf, cut, rest);
    }
  }

  lemma {:induction false} RedactRest(r: Redactor, buf: seq<byte>, cut: nat, rest: seq<byte>)
    requires r.Valid() && cut <= |buf|
    ensures r.RedactFrom(buf + rest, cut) == r.Redact(buf[cut..] + rest)
  {
    assert (buf + rest)[cut..] == buf[cut..] + rest;
    RedactDependsOnSuffix(r, buf + rest, cut, buf[cut..] + rest, 0);
  }

  lemma {:induction false} AfterMatch(r: Redactor, buf: seq<byte>, eof: bool, out: seq<byte>, cursor: nat, m: Match)
    requires r.Valid() && cursor <= |buf| && IsNext(r.patterns, buf, cursor, Some(m))
    requires End(r.patterns, m) <= r.SafeLen(buf, eof)
    requires Settled(r, buf, eof, out, cursor)
    ensures Settled(r, buf, eof, out + buf[cursor..m.start] + r.replacements[m.pattern],
                    End(r.patterns, m))
  {
    hide Settled, OccursAt, LineEnd;
    SettleCopied(r, buf, eof, out, cursor, m.start);
    SettleReplaced(r, buf, eof, out + buf[cursor..m.start], m.start, m.pattern);
  }

  lemma {:induction false} AtCrossingMatch(r: Redactor, buf: seq<byte>, eof: bool, out: seq<byte>, cursor: nat,
                                           m: Match, cut: nat)
    requires r.Valid() && cursor <= r.SafeLen(buf, eof) && IsNext(r.patterns, buf, cursor, Some(m))
    requires r.SafeLen(buf, eof) < End(r.patterns, m)
    requires cut == if m.start < r.SafeLen(buf, eof) then m.start else r.SafeLen(buf, eof)
    requires Settled(r, buf, eof, out, cursor)
    ensures Flushes(r, buf, eof, out + buf[cursor..cut], buf[cut..])
  {
    CrossingMatch(r, buf, eof, m.start, m.pattern);
    SettleCopied(r, buf, eof, out, cursor, cut);
    SettledFlushes(r, buf, eof, out + buf[cursor..cut], cut);
  }

  lemma {:induction false} AfterLastMatch(r: Redactor, buf: seq<byte>, eof: bool, out: seq<byte>, cursor: nat)
    requires r.Valid() && cursor <= r.SafeLen(buf, eof) && IsNext(r.patterns, buf, cursor, None)
    requires Settled(r, buf, eof, out, cursor)
    ensures Flushes(r, buf, eof, out + buf[cursor..r.SafeLen(buf, eof)], buf[r.SafeLen(buf, eof)..])
  {
    SettleCopied(r, buf, eof, out, cursor, r.SafeLen(buf, eof));
    SettledFlushes(r, buf, eof, out + buf[cursor..r.SafeLen(buf, eof)], r.SafeLen(buf, eof));
  }

  class RedactStream {
    const redactor: Redactor
    var carry: seq<byte>

    constructor (redactor: Redactor)
      ensures this.redactor == redactor && carry == []
    {
      this.redactor := redactor;
      carry := [];
    }

    method Process(chunk: seq<byte>, eof: bool) returns (out: seq<byte>)
      requires redactor.Valid()
      modifies this
      ensures Flushes(redactor, old(carry) + chunk, eof, out, carry)
    {
      var buf := carry;
      carry := [];
      buf := buf + chunk;

      var safeLen := redactor.SafeLen(buf, eof);
      out := [];
      var cursor := 0;
      var next := FindFrom(redactor.patterns, buf, cursor);
      while next.Some?
        invariant cursor <= safeLen
        invariant IsNext(redactor.patterns, buf, cursor, next)
        invariant Settled(redactor, buf, eof, out, cursor)
        decreases |buf| - cursor
      {
        var m := next.value;
        var end := End(redactor.patterns, m);
        assert m.start < end <= |buf|;
        if safeLen < end {
          // The match reaches into the withheld tail: keep everything from its start.
          var carryFrom := if m.start < safeLen then m.start else safeLen;
          AtCrossingMatch(redactor, buf, eof, out, cursor, m, carryFrom);
          out := out + buf[cursor..carryFrom];
          carry := buf[carryFrom..];
          return;
        }
        AfterMatch(redactor, buf, eof, out, cursor, m);
        out := out + buf[cursor..m.start];
        out := out + redactor.replacements[m.pattern];
        cursor := end;
        next := FindFrom(redactor.patterns, buf, cursor);
      }
      AfterLastMatch(redactor, buf, eof, out, cursor);
      out := out + buf[cursor..safeLen];
      carry := buf[safeLen..];
    }
  }

  // ---- Whole streams ---------------------------------------------------------------------

  /** The invariant of a stream that has received `seen`, emitted `dst` and holds `carry`: the
      emitted bytes followed by the redaction of what is held and still to come are the redaction
      of everything, for every continuation. In particular the emitted bytes are final. */
  ghost predicate Emitted(r: Redactor, seen: seq<byte>, dst: seq<byte>, carry: seq<byte>)
    requires r.Valid()
  {
    forall rest: seq<byte> {:trigger r.Redact(carry + rest)} {:trigger r.Redact(seen + rest)} ::
      dst + r.Redact(carry + rest) == r.Redact(seen + rest)
  }

  lemma {:induction false} EmittedStep(r: Redactor, seen: seq<byte>, dst: seq<byte>, held: seq<byte>,
                                       chunk: seq<byte>, out: seq<byte>, carry: seq<byte>)
    requires r.Valid() && Emitted(r, seen, dst, held)
    requires Flushes(r, held + chunk, false, out, carry)
    ensures Emitted(r, seen + chunk, dst + out, carry)
  {
    forall rest: seq<byte>
      ensures (dst + out) + r.Redact(carry + rest) == r.Redact((seen + chunk) + rest)
    {
      var tail := r.Redact(carry + rest);
      assert out + tail == r.Redact((held + chunk) + rest);
      assert dst + r.Redact(held + (chunk + rest)) == r.Redact(seen + (chunk + rest));
      Associative(held, chunk, rest);
      Associative(seen, chunk, rest);
      Associative(dst, out, tail);
    }
  }

  lemma {:induction false} EmittedEnd(r: Redactor, seen: seq<byte>, dst: seq<byte>, held: seq<byte>,
                                      last: seq<byte>, tail: seq<byte>, carry: seq<byte>)
    requires r.Valid() && Emitted(r, seen, dst, held)
    requires Flushes(r, held + last, true, tail, carry)
    ensures dst + tail == r.Redact(seen + last)
  {
    var none: seq<byte> := [];
    assert (held + last) + none == held + last;
    assert carry + none == none;
    assert r.Redact(none) == none;
    assert tail + none == tail;
    assert tail + r.Redact(carry + none) == r.Redact((held + last) + none);
  }

  /** Every complete stream that starts with `seen` is redacted to something that starts with
      `dst`. */
  ghost predicate IsFinal(r: Redactor, seen: seq<byte>, dst: seq<byte>)
    requires r.Valid()
  {
    forall rest: seq<byte> {:trigger r.Redact(seen + rest)} :: dst <= r.Redact(seen + rest)
  }

  lemma {:induction false} EmittedIsFinal(r: Redactor, seen: seq<byte>, dst: seq<byte>, carry: seq<byte>)
    requires r.Valid() && Emitted(r, seen, dst, carry)
    ensures IsFinal(r, seen, dst)
  {
    forall rest: seq<byte> ensures dst <= r.Redact(seen + rest) {
      assert dst + r.Redact(carry + rest) == r.Redact(seen + rest);
    }
  }

  function Concat(chunks: seq<seq<byte>>): seq<byte> {
    if chunks == [] then [] else Concat(chunks[..|chunks| - 1]) + chunks[|chunks| - 1]
  }

  /** A run of calls that are not the last one: `carries[i]` is held before call `i`. */
  ghost predicate IsRun(r: Redactor, chunks: seq<seq<byte>>, outs: seq<seq<byte>>,
                        carries: seq<seq<byte>>)
    requires r.Valid()
  {
    && |outs| == |chunks| && |carries| == |chunks| + 1
    && carries[0] == []
    && forall i :: 0 <= i < |chunks| ==>
         Flushes(r, carries[i] + chunks[i], false, outs[i], carries[i + 1])
  }

  lemma {:induction false} RunEmits(r: Redactor, chunks: seq<seq<byte>>, outs: seq<seq<byte>>,
                                    carries: seq<seq<byte>>)
    requires r.Valid() && IsRun(r, chunks, outs, carries)
    ensures Emitted(r, Concat(chunks), Concat(outs), carries[|chunks|])
  {
    var n := |chunks|;
    if n == 0 {
      forall rest: seq<byte> ensures [] + r.Redact([] + rest) == r.Redact(Concat(chunks) + rest) {
      }
    } else {
      RunEmits(r, chunks[..n - 1], outs[..n - 1], carries[..n]);
      assert Flushes(r, carries[n - 1] + chunks[n - 1], false, outs[n - 1], carries[n]);
      EmittedStep(r, Concat(chunks[..n - 1]), Concat(outs[..n - 1]), carries[n - 1], chunks[n - 1],
                  outs[n - 1], carries[n]);
    }
  }

  /** Main result: however a stream is cut into chunks (empty ones included), the outputs of the
      calls, closed by an `eof` call, are exactly the one-shot redaction of the stream; and at
      every earlier moment what is already out is a prefix of the redaction of every possible
      continuation. */
  lemma {:induction false} ChunkingDoesNotMatter(r: Redactor, chunks: seq<seq<byte>>, outs: seq<seq<byte>>,
                                                 carries: seq<seq<byte>>, last: seq<byte>, tail: seq<byte>,
                                                 carry: seq<byte>)
    requires r.Valid() && IsRun(r, chunks, outs, carries)
    requires Flushes(r, carries[|chunks|] + last, true, tail, carry)
    ensures Concat(outs) + tail == r.Redact(Concat(chunks) + last)
    ensures IsFinal(r, Concat(chunks), Concat(outs))
  {
    RunEmits(r, chunks, outs, carries);
    EmittedEnd(r, Concat(chunks), Concat(outs), carries[|chunks|], last, tail, carry);
    EmittedIsFinal(r, Concat(chunks), Concat(outs), carries[|chunks|]);
  }

  /** What reading from the child can return. An empty `Data` is end of file. */
  datatype Read = Data(bytes: seq<byte>) | Failed

  /** The bytes received from read `i` on, before end of file or the first failure. */
  function ReceivedFrom(src: seq<Read>, i: nat): seq<byte>
    requires i <= |src|
    decreases |src| - i
  {
    if i == |src| || src[i].Failed? || src[i].bytes == [] then []
    else src[i].bytes + ReceivedFrom(src, i + 1)
  }

  function Received(src: seq<Read>): seq<byte> {
    ReceivedFrom(src, 0)
  }

  /** The reads from `i` on reach end of file without a failure. */
  predicate ReachesEnd(src: seq<Read>, i: nat)
    requires i <= |src|
    decreases |src| - i
  {
    i == |src| || (src[i].Data? && (src[i].bytes == [] || ReachesEnd(src, i + 1)))
  }

  /** The destination: how many bytes it takes before writing fails (None: all of them), and whether it can be
      flushed at the end. */
  datatype Sink = Sink(room: Option<nat>, flushes: bool)

  predicate Takes(sink: Sink, n: nat) {
    sink.room.None? || n <= sink.room.value
  }

  /** Writes what fits. */
  method WriteAll(dst: seq<byte>, out: seq<byte>, sink: Sink) returns (written: seq<byte>, ok: bool)
    requires Takes(sink, |dst|)
    ensures ok <==> Takes(sink, |dst + out|)
    ensures dst <= written <= dst + out && Takes(sink, |written|) && (ok ==> written == dst + out)
  {
    ok := Takes(sink, |dst + out|);
    written := if ok then dst + out else dst + out[..sink.room.value - |dst|];
  }

  lemma {:induction false} FinalPrefix(r: Redactor, seen: seq<byte>, more: seq<byte>, dst: seq<byte>,
                                       prefix: seq<byte>)
    requires r.Valid() && IsFinal(r, seen, dst) && prefix <= dst
    ensures IsFinal(r, seen + more, prefix)
  {
    forall rest: seq<byte> ensures prefix <= r.Redact(seen + more + rest) {
      Associative(seen, more, rest);
      assert dst <= r.Redact(seen + (more + rest));
    }
  }

  lemma {:induction false} RedactedIsFinal(r: Redactor, seen: seq<byte>)
    requires r.Valid()
    ensures r.Redact(seen + []) == r.Redact(seen)
  {
    assert seen + [] == seen;
  }

  /** Copies `src` to the destination through a fresh stream. It succeeds exactly when the source reaches end of file
      without an error and the whole redacted text can be written and flushed; then that text is what was written.
      On any error what was written is a prefix of that text, and after a read error also of what every longer
      run would have written. */
  method PumpRedacted(src: seq<Read>, redactor: Redactor, sink: Sink) returns (dst: seq<byte>, ok: bool)
    requires redactor.Valid()
    ensures ok <==> ReachesEnd(src, 0) && Takes(sink, |redactor.Redact(Received(src))|) && sink.flushes
    ensures ok ==> dst == redactor.Redact(Received(src))
    ensures dst <= redactor.Redact(Received(src))
    ensures !ok && !ReachesEnd(src, 0) ==> IsFinal(redactor, Received(src), dst)
  {
    hide IsFinal, Redactor.RedactFrom, ReachesEnd;
    var stream := new RedactStream(redactor);
    dst := [];
    var i := 0;
    ghost var seen: seq<byte> := [];
    assert Emitted(redactor, seen, dst, stream.carry);
    hide Emitted, Flushes;
    while true
      invariant 0 <= i <= |src| && stream.redactor == redactor && fresh(stream)
      invariant Received(src) == seen + ReceivedFrom(src, i)
      invariant ReachesEnd(src, 0) <==> ReachesEnd(src, i)
      invariant Emitted(redactor, seen, dst, stream.carry) && Takes(sink, |dst|)
      decreases |src| - i
    {
      ghost var held, before := stream.carry, dst;
      ReadOne(src, i);
      var n := if i < |src| && src[i].Data? then |src[i].bytes| else 0;
      if i < |src| && src[i].Failed? {
        assert Received(src) == seen;
        EmittedIsFinal(redactor, seen, dst, held);
        FinalOfAll(redactor, seen, dst);
        return dst, false;
      }
      if n == 0 {
        assert Received(src) == seen == seen + [];
        var tail := stream.Process([], true);
        EmittedEnd(redactor, seen, dst, held, [], tail, stream.carry);
        dst, ok := WriteAll(dst, tail, sink);
        return dst, ok && sink.flushes;
      }
      var out := stream.Process(src[i].bytes, false);
      EmittedStep(redactor, seen, before, held, src[i].bytes, out, stream.carry);
      Associative(seen, src[i].bytes, ReceivedFrom(src, i + 1));
      seen := seen + src[i].bytes;
      EmittedIsFinal(redactor, seen, before + out, stream.carry);
      i := i + 1;
      dst, ok := WriteAll(dst, out, sink);
      if !ok {
        StoppedEarly(redactor, seen, ReceivedFrom(src, i), before + out, dst, sink);
        return dst, false;
      }
    }
  }

  lemma {:induction false} ReadOne(src: seq<Read>, i: nat)
    requires i <= |src|
    ensures i < |src| && src[i].Failed? ==> ReceivedFrom(src, i) == [] && !ReachesEnd(src, i)
    ensures i == |src| || (src[i].Data? && src[i].bytes == []) ==> ReceivedFrom(src, i) == [] && ReachesEnd(src, i)
    ensures i < |src| && src[i].Data? && src[i].bytes != [] ==>
              && ReceivedFrom(src, i) == src[i].bytes + ReceivedFrom(src, i + 1)
              && (ReachesEnd(src, i) <==> ReachesEnd(src, i + 1))
  {
  }

  lemma {:induction false} FinalOfAll(r: Redactor, seen: seq<byte>, dst: seq<byte>)
    requires r.Valid() && IsFinal(r, seen, dst)
    ensures dst <= r.Redact(seen)
  {
    RedactedIsFinal(r, seen);
    assert dst <= r.Redact(seen + []);
  }

  lemma {:induction false} StoppedEarly(r: Redactor, seen: seq<byte>, more: seq<byte>, all: seq<byte>, dst: seq<byte>,
                                        sink: Sink)
    requires r.Valid() && IsFinal(r, seen, all) && dst <= all && !Takes(sink, |all|)
    ensures IsFinal(r, seen + more, dst) && dst <= r.Redact(seen + more) && !Takes(sink, |r.Redact(seen + more)|)
  {
    FinalPrefix(r, seen, more, all, dst);
    FinalPrefix(r, seen, more, all, all);
    FinalOfAll(r, seen + more, dst);
    FinalOfAll(r, seen + more, all);
  }
}
