/** What redaction replaces and what it leaves: the output is the input with exactly the
    leftmost-longest matches replaced, and every occurrence of a secret is hit. */
module RedactionCoverage {
  import opened Common
  import opened LeftmostLongest
  import opened Redaction
  import PercentEncoding

  /** `s` from `from` on, with the listed matches replaced. */
  function Splice(r: Redactor, s: seq<byte>, from: nat, ms: seq<Match>): seq<byte>
    requires |r.patterns| == |r.replacements|
    requires IsOrdered(r.patterns, s, from, ms)
    decreases |ms|
  {
    if ms == [] then s[from..]
    else s[from..ms[0].start] + r.replacements[ms[0].pattern]
         + Splice(r, s, End(r.patterns, ms[0]), ms[1..])
  }

  /** The matches lie in `s`, in order, without overlap. */
  predicate IsOrdered(ps: seq<Pattern>, s: seq<byte>, from: nat, ms: seq<Match>)
    decreases |ms|
  {
    if ms == [] then from <= |s|
    else
      && ms[0].pattern < |ps| && from <= ms[0].start && End(ps, ms[0]) <= |s|
      && IsOrdered(ps, s, End(ps, ms[0]), ms[1..])
  }

  lemma {:induction false} LeftmostLongestIsOrdered(ps: seq<Pattern>, s: seq<byte>, from: nat,
                                                    ms: seq<Match>)
    requires from <= |s| && IsLeftmostLongest(ps, s, from, ms)
    ensures IsOrdered(ps, s, from, ms)
    decreases |ms|
  {
    if ms != [] {
      LeftmostLongestIsOrdered(ps, s, End(ps, ms[0]), ms[1..]);
    }
  }

  /** Redaction replaces the leftmost-longest matches and nothing else. */
  lemma {:induction false} RedactionIsSplice(r: Redactor, s: seq<byte>, from: nat, ms: seq<Match>)
    requires r.Valid() && from <= |s| && IsLeftmostLongest(r.patterns, s, from, ms)
    ensures IsOrdered(r.patterns, s, from, ms)
    ensures r.RedactFrom(s, from) == Splice(r, s, from, ms)
    decreases |ms|
  {
    LeftmostLongestIsOrdered(r.patterns, s, from, ms);
    if ms == [] {
      RedactCopies(r, s, from, |s|);
      assert s[from..|s|] + [] == s[from..];
    } else {
      RedactThroughMatch(r, s, from, ms[0]);
      RedactionIsSplice(r, s, End(r.patterns, ms[0]), ms[1..]);
    }
  }

  /** Every text has such a list of matches. */
  lemma {:induction false} MatchesOf(ps: seq<Pattern>, s: seq<byte>, from: nat)
    returns (ms: seq<Match>)
    requires AllNonEmpty(ps) && from <= |s|
    ensures IsLeftmostLongest(ps, s, from, ms)
    decreases |s| - from
  {
    WinnerWins(ps, s, from);
    match Winner(ps, s, from)
    case Some(k) =>
      var rest := MatchesOf(ps, s, from + |ps[k]|);
      ms := [Match(from, k)] + rest;
    case None =>
      if from == |s| {
        ms := [];
      } else {
        ms := MatchesOf(ps, s, from + 1);
      }
  }

  /** Every occurrence of a pattern is hit at its first byte: it starts inside a replaced span.
      If it starts where the span starts, it is replaced whole. So the text that is copied
      between two replacements contains no occurrence, not even the start of one. */
  lemma {:induction false} EveryOccurrenceIsHit(ps: seq<Pattern>, s: seq<byte>, from: nat,
                                                ms: seq<Match>, a: nat, k: nat)
    returns (n: nat)
    requires IsLeftmostLongest(ps, s, from, ms)
    requires from <= a && k < |ps| && 0 < |ps[k]| && OccursAt(ps[k], s, a)
    ensures n < |ms| && ms[n].pattern < |ps| && WinsAt(ps, s, ms[n].start, ms[n].pattern)
    ensures ms[n].start <= a < End(ps, ms[n])
    ensures ms[n].start == a ==> a + |ps[k]| <= End(ps, ms[n])
    decreases |ms|
  {
    assert AnyOccursAt(ps, s, a);
    assert ms != [];
    if End(ps, ms[0]) <= a {
      var n' := EveryOccurrenceIsHit(ps, s, End(ps, ms[0]), ms[1..], a, k);
      n := n' + 1;
    } else {
      n := 0;
    }
  }

  /** The same for the secrets the redactor was built from, over a whole stream: wherever a
      redactable value or its encoded form occurs, its first byte is inside a span replaced by
      the name of a secret whose value or encoded form is exactly the text of that span. */
  lemma {:induction false} EverySecretIsHit(secrets: seq<Secret>, s: seq<byte>, ms: seq<Match>,
                                            i: nat, form: seq<byte>, a: nat)
    returns (n: nat, owner: nat)
    requires IsLeftmostLongest(PatternsOf(secrets), s, 0, ms)
    requires i < |secrets| && 8 <= |secrets[i].value| && IsFormOf(form, secrets[i])
    requires OccursAt(form, s, a)
    ensures n < |ms| && ms[n].pattern < |PatternsOf(secrets)|
    ensures ms[n].start <= a < End(PatternsOf(secrets), ms[n]) <= |s|
    ensures ms[n].start == a ==> a + |form| <= End(PatternsOf(secrets), ms[n])
    ensures owner < |secrets| && 8 <= |secrets[owner].value|
    ensures IsFormOf(s[ms[n].start..End(PatternsOf(secrets), ms[n])], secrets[owner])
    ensures ReplacementsOf(secrets)[ms[n].pattern] == Ascii("<vault:") + secrets[owner].name + Ascii(">")
  {
    hide PatternsOf, ReplacementsOf, IsLeftmostLongest, PercentEncoding.Encode, PercentEncoding.IsEncodingOf;
    var ps := PatternsOf(secrets);
    PercentEncoding.EncodeIff(form, secrets[i].value);
    FormsAreInPatterns(secrets, i);
    var k :| 0 <= k < |ps| && ps[k] == form;
    PatternsAreTheForms(secrets);
    n := EveryOccurrenceIsHit(ps, s, 0, ms, a, k);
    assert s[ms[n].start..End(ps, ms[n])] == ps[ms[n].pattern];
    owner := OwnerOf(secrets, ms[n].pattern);
    PercentEncoding.EncodeIff(ps[ms[n].pattern], secrets[owner].value);
    assert Placeholder(secrets[owner].name) == Ascii("<vault:") + secrets[owner].name + Ascii(">");
  }

  /** The value itself, or its percent-encoding by the rules of RFC 3986. */
  predicate IsFormOf(form: seq<byte>, secret: Secret) {
    form == secret.value || PercentEncoding.IsEncodingOf(form, secret.value)
  }

  // ---- When an occurrence is wiped out completely -----------------------------------------

  /** Position `x` lies in one of the replaced spans. */
  predicate IsReplaced(ps: seq<Pattern>, ms: seq<Match>, x: nat) {
    exists n :: 0 <= n < |ms| && ms[n].pattern < |ps| && ms[n].start <= x < End(ps, ms[n])
  }

  ghost predicate AllReplaced(ps: seq<Pattern>, s: seq<byte>, from: nat, to: nat) {
    forall ms, x :: IsLeftmostLongest(ps, s, 0, ms) && from <= x < to ==> IsReplaced(ps, ms, x)
  }

  /** No byte of any occurrence of any pattern, in any text, is copied to the output. */
  ghost predicate WipesEveryOccurrence(ps: seq<Pattern>) {
    forall s, a: nat, k: nat :: k < |ps| && OccursAt(ps[k], s, a) ==>
      AllReplaced(ps, s, a, a + |ps[k]|)
  }

  /** Pattern `q` can start `d` bytes into `p` and run past its end. */
  predicate Overlap(p: Pattern, q: Pattern, d: nat) {
    0 < d < |p| && |p| - d < |q| && p[d..] == q[..|p| - d]
  }

  /** The shortest text with `p` at its start and `q` overlapping it at `d`. */
  function Fuse(p: Pattern, q: Pattern, d: nat): seq<byte>
    requires Overlap(p, q, d)
  {
    p + q[|p| - d..]
  }

  /** Matching `s` from `c` on, each match begins where the one before ended, at least up to `e`. */
  predicate Gapless(ps: seq<Pattern>, s: seq<byte>, c: nat, e: nat)
    requires AllNonEmpty(ps)
    decreases e - c
  {
    c >= e ||
    match Winner(ps, s, c)
    case None => false
    case Some(k) => Gapless(ps, s, c + |ps[k]|, e)
  }

  /** A finite check of the pattern set: every overlap of two patterns is itself matched
      without a gap. */
  predicate OverlapsAreGapless(ps: seq<Pattern>)
    requires AllNonEmpty(ps)
  {
    forall j, k, d :: 0 <= j < |ps| && 0 <= k < |ps| && 0 < d < |ps[j]| && Overlap(ps[j], ps[k], d) ==>
      Gapless(ps, Fuse(ps[j], ps[k], d), 0, |Fuse(ps[j], ps[k], d)|)
  }

  /** Exactly when redaction wipes out every occurrence of every pattern in every text: when no
      two patterns overlap in a way that leaves a tail. The condition depends on the finitely
      many fused texts of the pattern set only. */
  lemma {:induction false} WipesEveryOccurrenceIff(ps: seq<Pattern>)
    requires AllNonEmpty(ps)
    ensures WipesEveryOccurrence(ps) <==> OverlapsAreGapless(ps)
  {
    if WipesEveryOccurrence(ps) {
      forall j, k, d | 0 <= j < |ps| && 0 <= k < |ps| && 0 < d < |ps[j]| && Overlap(ps[j], ps[k], d)
        ensures Gapless(ps, Fuse(ps[j], ps[k], d), 0, |Fuse(ps[j], ps[k], d)|)
      {
        FusedIsReplaced(ps, j, k, d);
        var s := Fuse(ps[j], ps[k], d);
        var ms := MatchesOf(ps, s, 0);
        assert forall x :: 0 <= x < |s| ==> IsReplaced(ps, ms, x);
        ReplacedIsGapless(ps, s, 0, |s|, ms);
      }
    }
    if OverlapsAreGapless(ps) {
      forall s, a: nat, k: nat, ms, x | k < |ps| && OccursAt(ps[k], s, a)
        && IsLeftmostLongest(ps, s, 0, ms) && a <= x < a + |ps[k]|
        ensures IsReplaced(ps, ms, x)
      {
        OccurrenceIsReplaced(ps, s, 0, ms, a, k, x);
      }
    }
  }

  lemma {:induction false} FusedIsReplaced(ps: seq<Pattern>, j: nat, k: nat, d: nat)
    requires AllNonEmpty(ps) && WipesEveryOccurrence(ps)
    requires j < |ps| && k < |ps| && Overlap(ps[j], ps[k], d)
    ensures AllReplaced(ps, Fuse(ps[j], ps[k], d), 0, |Fuse(ps[j], ps[k], d)|)
  {
    var p, q, s := ps[j], ps[k], Fuse(ps[j], ps[k], d);
    assert s[0..|p|] == p;
    assert s[d..d + |q|] == p[d..] + q[|p| - d..] == q;
    assert OccursAt(ps[j], s, 0) && OccursAt(ps[k], s, d);
    assert AllReplaced(ps, s, 0, 0 + |p|) && AllReplaced(ps, s, d, d + |q|);
  }

  /** If every position from a cursor `c` up to `e` is replaced, there is no gap. */
  lemma {:induction false} ReplacedIsGapless(ps: seq<Pattern>, s: seq<byte>, c: nat, e: nat,
                                             ms: seq<Match>)
    requires AllNonEmpty(ps) && c <= |s| && IsLeftmostLongest(ps, s, c, ms)
    requires forall x :: c <= x < e ==> IsReplaced(ps, ms, x)
    ensures Gapless(ps, s, c, e)
    decreases |ms|
  {
    if c < e {
      assert IsReplaced(ps, ms, c);
      LeftmostLongestIsOrdered(ps, s, c, ms);
      LaterMatchesStartLater(ps, s, c, ms);
      assert ms[0].start == c;
      WinnerIsUnique(ps, s, c, ms[0].pattern);
      var end := End(ps, ms[0]);
      forall x | end <= x < e ensures IsReplaced(ps, ms[1..], x) {
        assert IsReplaced(ps, ms, x);
        var n :| 0 <= n < |ms| && ms[n].pattern < |ps| && ms[n].start <= x < End(ps, ms[n]);
        assert n != 0 && ms[1..][n - 1] == ms[n];
      }
      ReplacedIsGapless(ps, s, end, e, ms[1..]);
    }
  }

  lemma {:induction false} LaterMatchesStartLater(ps: seq<Pattern>, s: seq<byte>, c: nat,
                                                  ms: seq<Match>)
    requires IsOrdered(ps, s, c, ms) && AllNonEmpty(ps)
    ensures forall n :: 0 <= n < |ms| ==> c <= ms[0].start <= ms[n].start
    ensures forall n :: 1 <= n < |ms| ==> End(ps, ms[0]) <= ms[n].start
    decreases |ms|
  {
    if ms != [] {
      LaterMatchesStartLater(ps, s, End(ps, ms[0]), ms[1..]);
      assert forall n :: 1 <= n < |ms| ==> ms[n] == ms[1..][n - 1];
    }
  }

  lemma {:induction false} GaplessIsReplaced(ps: seq<Pattern>, s: seq<byte>, c: nat, e: nat,
                                             ms: seq<Match>, x: nat)
    requires AllNonEmpty(ps) && IsLeftmostLongest(ps, s, c, ms) && Gapless(ps, s, c, e)
    requires c <= x < e
    ensures IsReplaced(ps, ms, x)
    decreases |ms|
  {
    WinnerWins(ps, s, c);
    assert AnyOccursAt(ps, s, c);
    assert ms != [] && ms[0].start == c;
    WinnerIsUnique(ps, s, c, ms[0].pattern);
    var end := End(ps, ms[0]);
    if end <= x {
      GaplessIsReplaced(ps, s, end, e, ms[1..], x);
      ReplacedInTail(ps, ms, x);
    } else {
      assert ms[0].start <= x < End(ps, ms[0]);
    }
  }

  /** A gapless stretch stays gapless inside a longer text: a winner there is either the same or
      reaches past the stretch. */
  lemma {:induction false} GaplessInContext(ps: seq<Pattern>, s: seq<byte>, o: nat, e: nat,
                                            f: seq<byte>, c: nat)
    requires AllNonEmpty(ps) && o <= e <= |s| && f == s[o..e] && c <= |f|
    requires Gapless(ps, f, c, |f|)
    ensures Gapless(ps, s, o + c, e)
    decreases |f| - c
  {
    hide OccursAt, Winner;
    if c < |f| {
      WinnerWins(ps, f, c);
      WinnerWins(ps, s, o + c);
      var k := Winner(ps, f, c).value;
      OccursInside(ps[k], s, o, e, c);
      assert AnyOccursAt(ps, s, o + c);
      var w := Winner(ps, s, o + c).value;
      if c + |ps[w]| <= |f| {
        OccursInside(ps[w], s, o, e, c);
        assert OccursAt(ps[w], f, c) && OccursAt(ps[k], s, o + c);
        assert w == k;
        GaplessInContext(ps, s, o, e, f, c + |ps[k]|);
      }
    }
  }

  lemma {:induction false} OccursInside(p: Pattern, s: seq<byte>, o: nat, e: nat, c: nat)
    requires o <= e <= |s| && o + c + |p| <= e
    ensures OccursAt(p, s[o..e], c) <==> OccursAt(p, s, o + c)
  {
    var t, u := s[o..e][c..c + |p|], s[o + c..o + c + |p|];
    forall n | 0 <= n < |p| ensures t[n] == u[n] {
      assert t[n] == s[o..e][c + n] == s[o + (c + n)];
    }
    assert t == u;
  }

  lemma {:induction false} OccurrenceIsReplaced(ps: seq<Pattern>, s: seq<byte>, from: nat,
                                                ms: seq<Match>, a: nat, k: nat, x: nat)
    requires AllNonEmpty(ps) && OverlapsAreGapless(ps)
    requires IsLeftmostLongest(ps, s, from, ms)
    requires from <= a && k < |ps| && OccursAt(ps[k], s, a) && a <= x < a + |ps[k]|
    ensures IsReplaced(ps, ms, x)
    decreases |ms|
  {
    assert AnyOccursAt(ps, s, a);
    assert ms != [];
    var m, end := ms[0], End(ps, ms[0]);
    if m.start <= x < end {
      assert IsReplaced(ps, ms, x);
    } else {
      if end <= a {
        OccurrenceIsReplaced(ps, s, end, ms[1..], a, k, x);
      } else {
        OverlappedIsReplaced(ps, s, from, ms, a, k, x);
      }
      ReplacedInTail(ps, ms, x);
    }
  }

  lemma {:induction false} ReplacedInTail(ps: seq<Pattern>, ms: seq<Match>, x: nat)
    requires ms != [] && IsReplaced(ps, ms[1..], x)
    ensures IsReplaced(ps, ms, x)
  {
    var n :| 0 <= n < |ms[1..]| && ms[1..][n].pattern < |ps|
             && ms[1..][n].start <= x < End(ps, ms[1..][n]);
    assert ms[n + 1] == ms[1..][n];
  }

  lemma {:induction false} OverlappedIsReplaced(ps: seq<Pattern>, s: seq<byte>, from: nat, ms: seq<Match>, a: nat,
                                                k: nat, x: nat)
    requires AllNonEmpty(ps) && OverlapsAreGapless(ps)
    requires ms != [] && IsLeftmostLongest(ps, s, from, ms)
    requires k < |ps| && OccursAt(ps[k], s, a)
    requires ms[0].start < a < End(ps, ms[0]) <= x < a + |ps[k]|
    ensures IsReplaced(ps, ms[1..], x)
  {
    hide OverlapsAreGapless, Overlap, Fuse, OccursAt, IsReplaced;
    var m := ms[0];
    FusedInText(ps, s, m.start, m.pattern, a, k);
    GaplessInContext(ps, s, m.start, a + |ps[k]|, Fuse(ps[m.pattern], ps[k], a - m.start), 0);
    WinnerIsUnique(ps, s, m.start, m.pattern);
    GaplessIsReplaced(ps, s, End(ps, m), a + |ps[k]|, ms[1..], x);
  }

  lemma {:induction false} FusedInText(ps: seq<Pattern>, s: seq<byte>, b: nat, j: nat, a: nat, k: nat)
    requires AllNonEmpty(ps) && OverlapsAreGapless(ps)
    requires j < |ps| && k < |ps| && OccursAt(ps[j], s, b) && OccursAt(ps[k], s, a)
    requires b < a < b + |ps[j]| < a + |ps[k]|
    ensures Overlap(ps[j], ps[k], a - b) && a + |ps[k]| <= |s|
    ensures Fuse(ps[j], ps[k], a - b) == s[b..a + |ps[k]|]
    ensures Gapless(ps, Fuse(ps[j], ps[k], a - b), 0, |Fuse(ps[j], ps[k], a - b)|)
  {
    var p, q, d := ps[j], ps[k], a - b;
    assert p[d..] == s[b..b + |p|][d..] == s[a..b + |p|];
    assert q[..|p| - d] == s[a..a + |q|][..|p| - d] == s[a..b + |p|];
    assert q[|p| - d..] == s[a..a + |q|][|p| - d..] == s[b + |p|..a + |q|];
    assert s[b..a + |q|] == s[b..b + |p|] + s[b + |p|..a + |q|];
  }

  /** The condition can fail: an earlier match that overlaps an occurrence can leave its tail.
      With the values "abcdefgh" and "efghijkl", the text "abcdefghijkl" keeps "ijkl". */
  lemma {:induction false} OverlapLeavesTail(a: Secret, b: Secret, r: Redactor, s: seq<byte>)
    requires a.value == [0x61, 0x62, 0x63, 0x64, 0x65, 0x66, 0x67, 0x68]
    requires b.value == [0x65, 0x66, 0x67, 0x68, 0x69, 0x6A, 0x6B, 0x6C]
    requires r.Valid() && r.patterns == PatternsOf([a, b]) && r.replacements == ReplacementsOf([a, b])
    requires s == a.value + b.value[4..]
    ensures OccursAt(b.value, s, 4)
    ensures r.Redact(s) == Placeholder(a.name) + [0x69, 0x6A, 0x6B, 0x6C]
  {
    PercentEncoding.EncodedForm(a.value);
    PercentEncoding.EncodedForm(b.value);
    assert PercentEncoding.AllUnreserved(a.value) && PercentEncoding.AllUnreserved(b.value);
    assert [a, b][..1] == [a] && [a][..0] == [];
    assert PatternsOf([a]) == [a.value] && PatternsOf([a, b]) == [a.value, b.value];
    assert r.replacements[0] == Placeholder(a.name);
    hide PatternsOf, ReplacementsOf, Placeholder, PercentEncoding.Encode, OccursAt;
    TailRemains(r, a.value, b.value, s);
  }

  lemma {:induction false} TailRemains(r: Redactor, a: Pattern, b: Pattern, s: seq<byte>)
    requires r.Valid() && r.patterns == [a, b] && |a| == |b| == 8 && a[0] != b[0]
    requires s == a + b[4..] && a[4..] == b[..4]
    ensures OccursAt(b, s, 4)
    ensures r.Redact(s) == r.replacements[0] + b[4..]
  {
    assert s[0..8] == a;
    assert s[4..12] == a[4..] + b[4..] == b;
    assert !OccursAt(b, s, 0) by { assert s[0..8][0] == a[0]; }
    var ms := [Match(0, 0)];
    assert ms[1..] == [];
    assert IsLeftmostLongest(r.patterns, s, 8, []);
    assert IsLeftmostLongest(r.patterns, s, 0, ms);
    RedactionIsSplice(r, s, 0, ms);
    assert s[8..] == b[4..];
    assert s[0..0] + r.replacements[0] + s[8..] == r.replacements[0] + b[4..];
  }
}
