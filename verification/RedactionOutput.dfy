/** What the redacted text itself can contain: a placeholder next to copied text can spell a secret again.
    When exactly it can, and a simple case in which it cannot. */
module RedactionOutput {
  import opened Common
  import opened LeftmostLongest
  import opened Redaction
  import opened RedactionCoverage
  import opened RedactionSpelling
  import PercentEncoding

  /** `p` laid over `r` at offset `d`, which may be negative, agrees with it wherever both have a byte. */
  predicate Agrees(p: Pattern, r: seq<byte>, d: int) {
    forall n :: 0 <= n < |r| && 0 <= n - d < |p| ==> r[n] == p[n - d]
  }

  /** However `p` is laid over `r` so that they share a byte, they differ somewhere: a finite check. */
  predicate Apart(p: Pattern, r: seq<byte>) {
    forall d :: -|p| < d < |r| ==> !Agrees(p, r, d)
  }

  predicate AllApart(r: Redactor) {
    && (forall k :: 0 <= k < |r.replacements| ==> r.replacements[k] != [])
    && forall j, k :: 0 <= j < |r.patterns| && 0 <= k < |r.replacements| ==> Apart(r.patterns[j], r.replacements[k])
  }

  /** An occurrence that shares a byte with a replacement. */
  lemma {:induction false} ApartMeans(p: Pattern, r: seq<byte>, out: seq<byte>, at: nat, x: nat)
    requires Apart(p, r) && at + |r| <= |out| && out[at..at + |r|] == r && OccursAt(p, out, x)
    ensures x + |p| <= at || at + |r| <= x
  {
    if at < x + |p| && x < at + |r| {
      forall n | 0 <= n < |r| && 0 <= n - (x - at) < |p|
        ensures r[n] == p[n - (x - at)]
      {
        assert r[n] == out[at + n] == out[x..x + |p|][n - (x - at)];
      }
      assert Agrees(p, r, x - at);
    }
  }

  /** An occurrence in copied text is an occurrence in the input. */
  lemma {:induction false} CopiedOccurrence(p: Pattern, s: seq<byte>, i: nat, j: nat, out: seq<byte>, x: nat)
    requires i <= j <= |s| && j - i <= |out| && out[..j - i] == s[i..j]
    requires OccursAt(p, out, x) && x + |p| <= j - i
    ensures OccursAt(p, s, i + x)
  {
    forall n | 0 <= n < |p| ensures s[i + x + n] == p[n] {
      assert s[i + x + n] == s[i..j][x + n] == out[..j - i][x + n] == out[x..x + |p|][n];
    }
    assert s[i + x..i + x + |p|] == p;
  }

  /** When no placeholder touches a pattern, the output of redaction contains no secret and no encoded form of one,
      whatever the input. */
  lemma {:induction false} OutputIsClean(r: Redactor, s: seq<byte>, i: nat, ms: seq<Match>, j: nat, x: nat)
    requires r.Valid() && AllApart(r) && i <= |s| && j < |r.patterns|
    requires IsLeftmostLongest(r.patterns, s, i, ms)
    ensures !OccursAt(r.patterns[j], r.RedactFrom(s, i), x)
    decreases |ms|
  {
    hide AllApart, Apart, Redactor.RedactFrom;
    var p, out := r.patterns[j], r.RedactFrom(s, i);
    if OccursAt(p, out, x) {
      hide OccursAt, IsLeftmostLongest;
      if ms == [] {
        NoMatchLeft(r.patterns, s, i, ms);
        RedactCopies(r, s, i, |s|);
        NothingAtEnd(r, s);
        CleanCopy(r, s, i, j, x);
      } else {
        var m, end := ms[0], End(r.patterns, ms[0]);
        MatchFirst(r.patterns, s, i, ms);
        RedactThroughMatch(r, s, i, m);
        var head, mid, tail := s[i..m.start], r.replacements[m.pattern], r.RedactFrom(s, end);
        FirstPart(r, p, head, mid, tail, m.pattern, j, x);
        if x + |p| <= |head| {
          CopiedOccurrence(p, s, i, m.start, out, x);
          OccursMeans(r.patterns, j, s, i + x);
        } else {
          OccursLater(p, head + mid, tail, x);
          OutputIsClean(r, s, end, ms[1..], j, x - |head + mid|);
        }
      }
    }
  }

  lemma {:induction false} OccursMeans(ps: seq<Pattern>, j: nat, s: seq<byte>, a: nat)
    requires j < |ps| && OccursAt(ps[j], s, a)
    ensures AnyOccursAt(ps, s, a)
  {
  }

  lemma {:induction false} NoMatchLeft(ps: seq<Pattern>, s: seq<byte>, i: nat, ms: seq<Match>)
    requires ms == [] && i <= |s| && IsLeftmostLongest(ps, s, i, ms)
    ensures NoneStartsIn(ps, s, i, |s|)
  {
  }

  lemma {:induction false} MatchFirst(ps: seq<Pattern>, s: seq<byte>, i: nat, ms: seq<Match>)
    requires ms != [] && i <= |s| && IsLeftmostLongest(ps, s, i, ms)
    ensures IsNext(ps, s, i, Some(ms[0])) && End(ps, ms[0]) <= |s|
    ensures IsLeftmostLongest(ps, s, End(ps, ms[0]), ms[1..])
  {
  }

  lemma {:induction false} CleanCopy(r: Redactor, s: seq<byte>, i: nat, j: nat, x: nat)
    requires r.Valid() && i <= |s| && j < |r.patterns| && NoneStartsIn(r.patterns, s, i, |s|)
    requires r.RedactFrom(s, |s|) == [] && r.RedactFrom(s, i) == s[i..|s|] + r.RedactFrom(s, |s|)
    ensures !OccursAt(r.patterns[j], r.RedactFrom(s, i), x)
  {
    hide Redactor.RedactFrom;
    var p, out := r.patterns[j], r.RedactFrom(s, i);
    assert out == s[i..|s|];
    if OccursAt(p, out, x) {
      CopiedOccurrence(p, s, i, |s|, out, x);
      OccursMeans(r.patterns, j, s, i + x);
    }
  }

  lemma {:induction false} FirstPart(r: Redactor, p: Pattern, head: seq<byte>, mid: seq<byte>, tail: seq<byte>, k: nat,
                                     j: nat, x: nat)
    requires r.Valid() && AllApart(r) && k < |r.replacements| && mid == r.replacements[k]
    requires j < |r.patterns| && p == r.patterns[j] && OccursAt(p, head + mid + tail, x)
    ensures x + |p| <= |head| || |head + mid| <= x
    ensures (head + mid + tail)[..|head|] == head
  {
    var out := head + mid + tail;
    assert out[|head|..|head| + |mid|] == mid;
    ApartMeans(p, mid, out, |head|, x);
  }

  lemma {:induction false} NothingAtEnd(r: Redactor, s: seq<byte>)
    requires r.Valid()
    ensures r.RedactFrom(s, |s|) == []
  {
  }

  /** So a redactor whose placeholders touch no pattern passes the exact check. */
  lemma {:induction false} ApartSpellsNothing(r: Redactor)
    requires r.Valid() && AllApart(r)
    ensures SpellsNothing(r)
  {
    hide AllApart, OccursAt, SpellsNothing;
    ApartIsNonEmpty(r);
    CheckIff(r);
    forall s: seq<byte>, j, x: nat | 0 <= j < |r.patterns|
      ensures !OccursAt(r.patterns[j], r.Redact(s), x)
    {
      var ms := MatchesOf(r.patterns, s, 0);
      OutputIsClean(r, s, 0, ms, j, x);
    }
  }

  lemma {:induction false} ApartIsNonEmpty(r: Redactor)
    requires AllApart(r)
    ensures AllNonEmpty(r.replacements)
  {
  }

  // ---- Secrets --------------------------------------------------------------------------------------------

  /** No redactable value and no encoded form of one occurs in the redaction of any text. */
  ghost predicate NoSecretPrinted(r: Redactor, secrets: seq<Secret>)
    requires r.Valid()
  {
    forall s: seq<byte>, i, form, x: nat |
      0 <= i < |secrets| && 8 <= |secrets[i].value| && IsFormOf(form, secrets[i]) :: !OccursAt(form, r.Redact(s), x)
  }

  /** Main result: no redactable value and no encoded form of one is ever printed, whatever the stream, if and only
      if the redactor built from the secrets passes a check of finitely many short texts. */
  lemma {:induction false} NoSecretInOutput(r: Redactor, secrets: seq<Secret>)
    requires r.Valid() && r.patterns == PatternsOf(secrets) && r.replacements == ReplacementsOf(secrets)
    ensures AllNonEmpty(r.replacements)
    ensures NoSecretPrinted(r, secrets) <==> SpellsNothing(r)
  {
    hide PatternsOf, ReplacementsOf, OccursAt, PercentEncoding.Encode, PercentEncoding.IsEncodingOf, SpellsNothing;
    PlaceholdersAreNonEmpty(secrets);
    CheckIff(r);
    forall s: seq<byte>, i, form, x: nat |
      NeverWritten(r) && 0 <= i < |secrets| && 8 <= |secrets[i].value| && IsFormOf(form, secrets[i])
      ensures !OccursAt(form, r.Redact(s), x)
    {
      PercentEncoding.EncodeIff(form, secrets[i].value);
      FormsAreInPatterns(secrets, i);
      var j :| 0 <= j < |r.patterns| && r.patterns[j] == form;
    }
    forall s: seq<byte>, j, x: nat | NoSecretPrinted(r, secrets) && 0 <= j < |r.patterns|
      ensures !OccursAt(r.patterns[j], r.Redact(s), x)
    {
      var i := OwnerOf(secrets, j);
      PercentEncoding.EncodeIff(r.patterns[j], secrets[i].value);
      assert IsFormOf(r.patterns[j], secrets[i]);
    }
  }

  lemma {:induction false} PlaceholdersAreNonEmpty(secrets: seq<Secret>)
    ensures AllNonEmpty(ReplacementsOf(secrets))
  {
    hide PatternsOf, ReplacementsOf;
    forall k | 0 <= k < |ReplacementsOf(secrets)| ensures 0 < |ReplacementsOf(secrets)[k]| {
      var i := OwnerOf(secrets, k);
    }
  }

  /** A redactor that fails the check: a secret whose value is the placeholder of another one appears in the output
      when that other one is redacted. */
  lemma {:induction false} PlaceholderSpellsSecret(a: Secret, b: Secret, r: Redactor)
    requires a.name == [0x41] && a.value == [0x61, 0x62, 0x63, 0x64, 0x65, 0x66, 0x67, 0x68]
    requires b.value == Placeholder(a.name)
    requires r.Valid() && r.patterns == PatternsOf([a, b]) && r.replacements == ReplacementsOf([a, b])
    ensures IsRedactable(b) && OccursAt(b.value, r.Redact(a.value), 0)
    ensures AllNonEmpty(r.replacements) && !SpellsNothing(r) && !AllApart(r)
  {
    PairPatterns(a, b);
    hide PatternsOf, ReplacementsOf, PercentEncoding.Encode, OccursAt, Apart, SpellsNothing;
    PercentEncoding.EncodedForm(a.value);
    PercentEncoding.EncodedForm(b.value);
    assert PercentEncoding.AllUnreserved(a.value);
    assert FormsOf(a) == [a.value] && FormsOf(b)[0] == b.value;
    assert r.patterns[0] == a.value && r.patterns[1] == b.value;
    OnlyFirstMatches(r, a.value);
    SameIsNotApart(b.value);
    WholeOccurs(b.value);
    PlaceholdersAreNonEmpty([a, b]);
    OnceIsEnough(r, a.value, 1, 0);
    CheckIff(r);
  }

  lemma {:induction false} WholeOccurs(p: Pattern)
    ensures OccursAt(p, p, 0)
  {
    assert p[0..|p|] == p;
  }

  lemma {:induction false} PairPatterns(a: Secret, b: Secret)
    requires IsRedactable(a)
    ensures PatternsOf([a, b]) == FormsOf(a) + FormsOf(b)
    ensures ReplacementsOf([a, b])[0] == Placeholder(a.name)
  {
    hide FormsOf;
    assert [a, b][..1] == [a] && [a][..0] == [];
    assert PatternsOf([a]) == FormsOf(a) && ReplacementsOf([a]) == seq(|FormsOf(a)|, _ => Placeholder(a.name));
    assert FormsOf(a) != [] by { FirstForm(a); }
  }

  lemma {:induction false} FirstForm(a: Secret)
    requires IsRedactable(a)
    ensures FormsOf(a) != [] && FormsOf(a)[0] == a.value
  {
  }

  lemma {:induction false} OnlyFirstMatches(r: Redactor, s: seq<byte>)
    requires r.Valid() && r.patterns != [] && r.patterns[0] == s
    requires forall k :: 1 <= k < |r.patterns| ==> |r.patterns[k]| > |s|
    ensures r.Redact(s) == r.replacements[0]
  {
    var ms := [Match(0, 0)];
    assert ms[1..] == [];
    assert s[0..|s|] == s;
    assert OccursAt(r.patterns[0], s, 0);
    forall j | 0 <= j < |r.patterns| && OccursAt(r.patterns[j], s, 0) ensures j == 0 {
    }
    assert IsLeftmostLongest(r.patterns, s, |s|, []);
    assert IsLeftmostLongest(r.patterns, s, 0, ms);
    RedactionIsSplice(r, s, 0, ms);
    assert s[0..0] + r.replacements[0] + s[|s|..] == r.replacements[0];
  }

  lemma {:induction false} SameIsNotApart(p: Pattern)
    requires p != []
    ensures !Apart(p, p)
  {
    assert Agrees(p, p, 0);
  }
}
