/** When the redacted text can contain a pattern again: copied bytes and placeholders, joined, may spell one.
    Whether any text at all makes that happen is decided by finitely many short ones. */
module RedactionSpelling {
  import opened Common
  import opened LeftmostLongest
  import opened Redaction

  /** What redaction does at one place: copy a byte, or replace an occurrence of a pattern. */
  datatype Token = Copy(b: byte) | Replace(k: nat)

  predicate Fits(r: Redactor, ts: seq<Token>) {
    |r.patterns| == |r.replacements|
    && forall t :: t in ts && t.Replace? ==> t.k < |r.patterns|
  }

  function Read(r: Redactor, t: Token): seq<byte>
    requires Fits(r, [t])
  {
    assert t in [t];
    if t.Copy? then [t.b] else r.patterns[t.k]
  }

  function Written(r: Redactor, t: Token): seq<byte>
    requires Fits(r, [t])
  {
    assert t in [t];
    if t.Copy? then [t.b] else r.replacements[t.k]
  }

  /** The text that the tokens read. */
  function In(r: Redactor, ts: seq<Token>): seq<byte>
    requires Fits(r, ts)
  {
    if ts == [] then [] else Read(r, ts[0]) + In(r, ts[1..])
  }

  /** The text that they write. */
  function Out(r: Redactor, ts: seq<Token>): seq<byte>
    requires Fits(r, ts)
  {
    if ts == [] then [] else Written(r, ts[0]) + Out(r, ts[1..])
  }

  /** Redacting `s` goes through exactly these tokens from position `i` on. */
  predicate Reads(r: Redactor, s: seq<byte>, i: nat, ts: seq<Token>)
    decreases |ts|
  {
    if ts == [] then i <= |s|
    else
      match ts[0]
      case Copy(b) => i < |s| && s[i] == b && Winner(r.patterns, s, i).None? && Reads(r, s, i + 1, ts[1..])
      case Replace(k) =>
        Winner(r.patterns, s, i) == Some(k) && Reads(r, s, i + |r.patterns[k]|, ts[1..])
  }

  /** What the tokens write has `p` at `o`, touching what the first one and what the last one write. */
  predicate Spells(r: Redactor, ts: seq<Token>, p: Pattern, o: nat)
    requires Fits(r, ts)
  {
    && ts != [] && OccursAt(p, Out(r, ts), o)
    && o < |Written(r, ts[0])| && |Out(r, ts[..|ts| - 1])| < o + |p|
  }

  /** Wherever tokens spell a pattern, their own text is read differently. */
  ghost predicate NoSpelling(r: Redactor) {
    forall j, ts, o | 0 <= j < |r.patterns| && Fits(r, ts) && Spells(r, ts, r.patterns[j], o) ::
      !Reads(r, In(r, ts), 0, ts)
  }

  ghost predicate NeverWritten(r: Redactor)
    requires r.Valid()
  {
    forall s: seq<byte>, j, x: nat | 0 <= j < |r.patterns| :: !OccursAt(r.patterns[j], r.Redact(s), x)
  }

  // ---- Reading and writing tokens ----------------------------------------------------------------------

  lemma {:induction false} ReadsWhat(r: Redactor, s: seq<byte>, i: nat, ts: seq<Token>)
    requires r.Valid() && Reads(r, s, i, ts)
    ensures Fits(r, ts) && i + |In(r, ts)| <= |s| && s[i..i + |In(r, ts)|] == In(r, ts)
    decreases |ts|
  {
    hide Winner;
    if ts == [] {
      assert s[i..i] == [];
    } else {
      ReadsFirst(r, s, i, ts);
      var n := |Read(r, ts[0])|;
      ReadsWhat(r, s, i + n, ts[1..]);
      assert ts == [ts[0]] + ts[1..];
      assert Fits(r, ts);
      JoinedSlices(s, i, n, |In(r, ts[1..])|);
    }
  }

  lemma {:induction false} JoinedSlices(s: seq<byte>, i: nat, n: nat, m: nat)
    requires i + n + m <= |s|
    ensures s[i..i + n] + s[i + n..i + n + m] == s[i..i + (n + m)]
  {
  }

  lemma {:induction false} ReadsFirst(r: Redactor, s: seq<byte>, i: nat, ts: seq<Token>)
    requires r.Valid() && ts != [] && Reads(r, s, i, ts)
    ensures Fits(r, [ts[0]]) && i + |Read(r, ts[0])| <= |s| && s[i..i + |Read(r, ts[0])|] == Read(r, ts[0])
    ensures Reads(r, s, i + |Read(r, ts[0])|, ts[1..])
  {
    WinnerWins(r.patterns, s, i);
  }

  lemma {:induction false} ReadsMore(r: Redactor, s: seq<byte>, i: nat, ts: seq<Token>)
    requires r.Valid() && ts != [] && Reads(r, s, i, ts)
    ensures Fits(r, ts) && Fits(r, [ts[0]]) && Fits(r, ts[1..])
    ensures Reads(r, s, i + |Read(r, ts[0])|, ts[1..])
  {
    ReadsWhat(r, s, i, ts);
    ReadsFirst(r, s, i, ts);
  }

  /** Tokens that read a text to its end write its redaction. */
  lemma {:induction false} ReadsRedacts(r: Redactor, s: seq<byte>, i: nat, ts: seq<Token>)
    requires r.Valid() && Reads(r, s, i, ts) && Fits(r, ts) && i + |In(r, ts)| == |s|
    ensures r.RedactFrom(s, i) == Out(r, ts)
    decreases |ts|
  {
    hide Winner;
    if ts != [] {
      ReadsMore(r, s, i, ts);
      ReadsFirst(r, s, i, ts);
      ReadsRedacts(r, s, i + |Read(r, ts[0])|, ts[1..]);
    }
  }

  lemma {:induction false} TokensOf(r: Redactor, s: seq<byte>, i: nat) returns (ts: seq<Token>)
    requires r.Valid() && i <= |s|
    ensures Reads(r, s, i, ts) && Fits(r, ts) && i + |In(r, ts)| == |s|
    decreases |s| - i
  {
    if i == |s| {
      ts := [];
    } else {
      hide WinnerAmong;
      match Winner(r.patterns, s, i)
      case None =>
        var rest := TokensOf(r, s, i + 1);
        ts := [Copy(s[i])] + rest;
        assert ts[1..] == rest;
      case Some(k) =>
        var rest := TokensOf(r, s, i + |r.patterns[k]|);
        ts := [Replace(k)] + rest;
        assert ts[1..] == rest;
    }
  }

  lemma {:induction false} OutOfBoth(r: Redactor, xs: seq<Token>, ys: seq<Token>)
    requires Fits(r, xs + ys)
    ensures Fits(r, xs) && Fits(r, ys) && Out(r, xs + ys) == Out(r, xs) + Out(r, ys)
    decreases |xs|
  {
    assert forall t :: t in xs || t in ys ==> t in xs + ys;
    if xs == [] {
      assert xs + ys == ys;
    } else {
      assert (xs + ys)[1..] == xs[1..] + ys;
      assert forall t :: t in xs[1..] + ys ==> t in xs + ys;
      OutOfBoth(r, xs[1..], ys);
    }
  }

  lemma {:induction false} ReadsFewer(r: Redactor, s: seq<byte>, i: nat, ts: seq<Token>, n: nat)
    requires n <= |ts| && r.Valid() && Reads(r, s, i, ts)
    ensures Reads(r, s, i, ts[..n])
    decreases |ts|
  {
    hide Winner;
    if ts != [] && n > 0 {
      ReadsMore(r, s, i, ts);
      ReadsFewer(r, s, i + |Read(r, ts[0])|, ts[1..], n - 1);
      assert ts[..n][1..] == ts[1..][..n - 1];
    } else if ts != [] {
      ReadsFirst(r, s, i, ts);
    }
  }

  // ---- Only the text of the tokens matters ---------------------------------------------------------------

  /** What occurs at the start of a cut text occurs in the whole one, and conversely if it fits. */
  lemma {:induction false} OccursInCut(p: Pattern, s: seq<byte>, i: nat, t: seq<byte>, h: nat)
    requires h <= |t| && i + |t| - h <= |s| && t[h..] == s[i..i + |t| - h]
    ensures OccursAt(p, t, h) <==> OccursAt(p, s, i) && h + |p| <= |t|
  {
    if h + |p| <= |t| {
      assert t[h..h + |p|] == t[h..][..|p|];
      assert s[i..i + |p|] == s[i..i + |t| - h][..|p|];
    }
  }

  lemma {:induction false} WinnerInCut(ps: seq<Pattern>, s: seq<byte>, i: nat, t: seq<byte>, h: nat)
    requires h <= |t| && i + |t| - h <= |s| && t[h..] == s[i..i + |t| - h]
    ensures Winner(ps, s, i).None? ==> Winner(ps, t, h).None?
    ensures Winner(ps, s, i).Some? && h + |ps[Winner(ps, s, i).value]| <= |t| ==> Winner(ps, t, h) == Winner(ps, s, i)
  {
    hide OccursAt, Winner;
    WinnerWins(ps, s, i);
    WinnerWins(ps, t, h);
    forall k | 0 <= k < |ps| ensures OccursAt(ps[k], t, h) <==> OccursAt(ps[k], s, i) && h + |ps[k]| <= |t| {
      OccursInCut(ps[k], s, i, t, h);
    }
    var w := Winner(ps, s, i);
    if w.Some? && h + |ps[w.value]| <= |t| {
      WinnerIsUnique(ps, t, h, w.value);
    }
  }

  /** A text that starts where the tokens start and is cut where they end is read by them as well. */
  lemma {:induction false} ReadsInCut(r: Redactor, s: seq<byte>, i: nat, ts: seq<Token>, t: seq<byte>, h: nat)
    requires r.Valid() && Reads(r, s, i, ts) && Fits(r, ts) && h + |In(r, ts)| == |t|
    requires i + |t| - h <= |s| && t[h..] == s[i..i + |t| - h]
    ensures Reads(r, t, h, ts)
    decreases |ts|
  {
    hide Winner, OccursAt;
    if ts != [] {
      ReadsMore(r, s, i, ts);
      ReadsFirst(r, s, i, ts);
      var n := |Read(r, ts[0])|;
      WinnerInCut(r.patterns, s, i, t, h);
      CutLater(s, i, t, h, n);
      ReadsInCut(r, s, i + n, ts[1..], t, h + n);
    }
  }

  lemma {:induction false} CutLater(s: seq<byte>, i: nat, t: seq<byte>, h: nat, n: nat)
    requires h + n <= |t| && i + |t| - h <= |s| && t[h..] == s[i..i + |t| - h]
    ensures t[h + n..] == s[i + n..i + |t| - h]
    ensures n > 0 ==> t[h] == s[i]
  {
    assert t[h + n..] == t[h..][n..];
    if n > 0 {
      assert t[h] == t[h..][0] == s[i..i + |t| - h][0];
    }
  }

  lemma {:induction false} ReadsOwnText(r: Redactor, s: seq<byte>, i: nat, ts: seq<Token>)
    requires r.Valid() && Reads(r, s, i, ts)
    ensures Fits(r, ts) && Reads(r, In(r, ts), 0, ts)
  {
    ReadsWhat(r, s, i, ts);
    ReadsInCut(r, s, i, ts, In(r, ts), 0);
  }

  // ---- An occurrence in the output is spelled by the tokens it touches -----------------------------------

  lemma {:induction false} SpellingFound(r: Redactor, s: seq<byte>, i: nat, ts: seq<Token>, p: Pattern, x: nat)
    returns (us: seq<Token>, o: nat)
    requires r.Valid() && Reads(r, s, i, ts) && Fits(r, ts) && p != [] && OccursAt(p, Out(r, ts), x)
    ensures Fits(r, us) && Spells(r, us, p, o) && Reads(r, In(r, us), 0, us)
    decreases |ts|
  {
    hide OccursAt;
    assert ts != [] by { OccursWithin(p, Out(r, ts), x); }
    ReadsMore(r, s, i, ts);
    var n, m := |Written(r, ts[0])|, |ts| - 1;
    assert ts == ts[..m] + [ts[m]];
    OutOfBoth(r, ts[..m], [ts[m]]);
    if n <= x {
      OccursLater(p, Written(r, ts[0]), Out(r, ts[1..]), x);
      us, o := SpellingFound(r, s, i + |Read(r, ts[0])|, ts[1..], p, x - n);
    } else if x + |p| <= |Out(r, ts[..m])| {
      OccursBefore(p, Out(r, ts[..m]), Out(r, [ts[m]]), x);
      ReadsFewer(r, s, i, ts, m);
      us, o := SpellingFound(r, s, i, ts[..m], p, x);
    } else {
      us, o := ts, x;
      ReadsOwnText(r, s, i, ts);
    }
  }

  lemma {:induction false} OccursWithin(p: Pattern, s: seq<byte>, x: nat)
    requires OccursAt(p, s, x)
    ensures x + |p| <= |s|
  {
  }

  lemma {:induction false} OccursLater(p: Pattern, head: seq<byte>, tail: seq<byte>, x: nat)
    requires OccursAt(p, head + tail, x) && |head| <= x
    ensures OccursAt(p, tail, x - |head|)
  {
    assert (head + tail)[x..x + |p|] == tail[x - |head|..x - |head| + |p|];
  }

  lemma {:induction false} OccursBefore(p: Pattern, head: seq<byte>, tail: seq<byte>, x: nat)
    requires OccursAt(p, head + tail, x) && x + |p| <= |head|
    ensures OccursAt(p, head, x)
  {
    assert (head + tail)[x..x + |p|] == head[x..x + |p|];
  }

  /** Main result: no pattern ever occurs in the output, whatever the text, if and only if no spelling of a
      pattern is read as it is spelled. */
  lemma {:induction false} CleanIff(r: Redactor)
    requires r.Valid()
    ensures NeverWritten(r) <==> NoSpelling(r)
  {
    hide OccursAt, Reads, Spells, Redactor.RedactFrom;
    forall s: seq<byte>, j, x: nat | NoSpelling(r) && 0 <= j < |r.patterns|
      ensures !OccursAt(r.patterns[j], r.Redact(s), x)
    {
      if OccursAt(r.patterns[j], r.Redact(s), x) {
        var ts := TokensOf(r, s, 0);
        ReadsRedacts(r, s, 0, ts);
        var us, o := SpellingFound(r, s, 0, ts, r.patterns[j], x);
        assert false;
      }
    }
    forall j, ts, o | NeverWritten(r) && 0 <= j < |r.patterns| && Fits(r, ts) && Spells(r, ts, r.patterns[j], o)
      ensures !Reads(r, In(r, ts), 0, ts)
    {
      if Reads(r, In(r, ts), 0, ts) {
        SpelledIsWritten(r, ts, j, o);
        assert false;
      }
    }
  }

  lemma {:induction false} SpelledIsWritten(r: Redactor, ts: seq<Token>, j: nat, o: nat)
    requires r.Valid() && j < |r.patterns| && Fits(r, ts) && Spells(r, ts, r.patterns[j], o)
    requires Reads(r, In(r, ts), 0, ts)
    ensures !NeverWritten(r)
  {
    hide OccursAt, Reads, Spells;
    var s := In(r, ts);
    ReadsRedacts(r, s, 0, ts);
    SpellingOccurs(r, ts, r.patterns[j], o);
    OnceIsEnough(r, s, j, o);
  }

  lemma {:induction false} OnceIsEnough(r: Redactor, s: seq<byte>, j: nat, x: nat)
    requires r.Valid() && j < |r.patterns| && OccursAt(r.patterns[j], r.Redact(s), x)
    ensures !NeverWritten(r)
  {
  }

  lemma {:induction false} SpellingOccurs(r: Redactor, ts: seq<Token>, p: Pattern, o: nat)
    requires Fits(r, ts) && Spells(r, ts, p, o)
    ensures OccursAt(p, Out(r, ts), o)
  {
  }

  // ---- The spellings, listed ------------------------------------------------------------------------------

  /** `a` and `q` agree as far as both go. */
  predicate Begins(a: seq<byte>, q: seq<byte>) {
    if |a| <= |q| then a <= q else q <= a
  }

  /** The tokens that write `q` or more, and no token too many. */
  function Tails(r: Redactor, q: seq<byte>): set<seq<Token>>
    requires AllNonEmpty(r.replacements)
    decreases |q|
  {
    if q == [] then {[]}
    else
      (set t | t in Tails(r, q[1..]) :: [Copy(q[0])] + t)
      + (set k, t | 0 <= k < |r.replacements| && Begins(r.replacements[k], q)
                    && t in Tails(r, Rest(r.replacements[k], q)) :: [Replace(k)] + t)
  }

  function Rest(a: seq<byte>, q: seq<byte>): (rest: seq<byte>)
    ensures a != [] && q != [] ==> |rest| < |q|
  {
    if |a| <= |q| then q[|a|..] else []
  }

  /** All ways to spell `p`: it starts with a token, or inside a placeholder. */
  function Spellings(r: Redactor, p: Pattern): set<seq<Token>>
    requires AllNonEmpty(r.replacements)
  {
    Tails(r, p)
    + (set k, o, t | 0 <= k < |r.replacements| && 0 < o < |r.replacements[k]| && Begins(r.replacements[k][o..], p)
                     && t in Tails(r, Rest(r.replacements[k][o..], p)) :: [Replace(k)] + t)
  }

  /** The check to run on a redactor before any stream. */
  predicate SpellsNothing(r: Redactor)
    requires |r.patterns| == |r.replacements| && AllNonEmpty(r.replacements)
  {
    forall j, ts | 0 <= j < |r.patterns| && ts in Spellings(r, r.patterns[j]) ::
      Fits(r, ts) && !Reads(r, In(r, ts), 0, ts)
  }

  /** `head` and then the tokens write `q` or more, and no token is too many. */
  predicate Covers(r: Redactor, head: seq<byte>, ts: seq<Token>, q: seq<byte>)
    requires Fits(r, ts)
  {
    q <= head + Out(r, ts) && (ts == [] || |head| + |Out(r, ts[..|ts| - 1])| < |q|)
  }

  lemma {:induction false} CoversRest(r: Redactor, head: seq<byte>, ts: seq<Token>, q: seq<byte>)
    requires Fits(r, ts) && head != [] && q != []
    ensures Covers(r, head, ts, q) <==> Begins(head, q) && Covers(r, [], ts, Rest(head, q))
  {
    hide Fits, Written;
    var out := Out(r, ts);
    assert [] + out == out;
    if |head| <= |q| {
      if head <= q {
        assert q == head + q[|head|..];
        assert q <= head + out <==> q[|head|..] <= out by { SamePrefix(head, q[|head|..], out); }
      } else {
        assert head == (head + out)[..|head|];
      }
    } else {
      assert q <= head + out <==> q <= head by {
        assert (head + out)[..|q|] == head[..|q|];
      }
    }
  }

  lemma {:induction false} SamePrefix(head: seq<byte>, q: seq<byte>, out: seq<byte>)
    ensures head + q <= head + out <==> q <= out
  {
    if head + q <= head + out {
      assert q == (head + q)[|head|..] == (head + out)[..|head + q|][|head|..] == out[..|q|];
    }
  }

  lemma {:induction false} CoversFirst(r: Redactor, ts: seq<Token>, q: seq<byte>)
    requires Fits(r, ts) && ts != [] && q != []
    ensures Fits(r, [ts[0]]) && Fits(r, ts[1..])
    ensures Covers(r, [], ts, q) <==> Covers(r, Written(r, ts[0]), ts[1..], q)
  {
    assert Fits(r, [ts[0]]) && Fits(r, ts[1..]);
    var m := |ts| - 1;
    assert [] + Out(r, ts) == Out(r, ts);
    if m > 0 {
      assert ts[..m][1..] == ts[1..][..m - 1];
    }
  }

  lemma {:induction false} NothingCovers(r: Redactor, q: seq<byte>, ts: seq<Token>)
    requires |r.patterns| == |r.replacements| && AllNonEmpty(r.replacements) && (q == [] || ts == [])
    ensures ts in Tails(r, q) <==> Fits(r, ts) && Covers(r, [], ts, q)
  {
    if q == [] && ts == [] {
      assert [] <= [] + Out(r, ts);
    }
  }

  lemma {:induction false} FitsParts(r: Redactor, ts: seq<Token>)
    requires ts != []
    ensures Fits(r, ts) <==> Fits(r, [ts[0]]) && Fits(r, ts[1..])
  {
    assert ts == [ts[0]] + ts[1..];
    assert ts[0] in [ts[0]];
  }

  lemma {:induction false} FirstOfTails(r: Redactor, q: seq<byte>, ts: seq<Token>)
    requires AllNonEmpty(r.replacements) && q != [] && ts != [] && Fits(r, [ts[0]])
    ensures ts in Tails(r, q) <==>
            Begins(Written(r, ts[0]), q) && ts[1..] in Tails(r, Rest(Written(r, ts[0]), q))
  {
    assert ts[0] in [ts[0]];
    assert ts == [ts[0]] + ts[1..];
    assert forall t: seq<Token>, x: Token :: ([x] + t)[1..] == t && ([x] + t)[0] == x;
  }

  lemma {:induction false} TailsFit(r: Redactor, q: seq<byte>, ts: seq<Token>)
    requires |r.patterns| == |r.replacements| && AllNonEmpty(r.replacements)
    requires q != [] && ts != [] && !Fits(r, [ts[0]])
    ensures ts !in Tails(r, q)
  {
  }

  lemma {:induction false} TailsCover(r: Redactor, q: seq<byte>, ts: seq<Token>)
    requires |r.patterns| == |r.replacements| && AllNonEmpty(r.replacements)
    ensures ts in Tails(r, q) <==> Fits(r, ts) && Covers(r, [], ts, q)
    decreases |ts|
  {
    hide Covers, Fits, Begins, Rest;
    if q == [] || ts == [] {
      NothingCovers(r, q, ts);
    } else {
      FitsParts(r, ts);
      assert ts == [ts[0]] + ts[1..];
      if Fits(r, [ts[0]]) {
        var head := Written(r, ts[0]);
        TailsCover(r, Rest(head, q), ts[1..]);
        if Fits(r, ts) {
          CoversFirst(r, ts, q);
          CoversRest(r, head, ts[1..], q);
        }
        FirstOfTails(r, q, ts);
      } else {
        TailsFit(r, q, ts);
      }
    }
  }

  lemma {:induction false} SpellsFrom(r: Redactor, ts: seq<Token>, p: Pattern, o: nat)
    requires Fits(r, ts) && ts != [] && p != [] && Fits(r, [ts[0]]) && Fits(r, ts[1..])
    requires o < |Written(r, ts[0])|
    ensures Spells(r, ts, p, o) <==> Covers(r, Written(r, ts[0])[o..], ts[1..], p)
  {
    hide Fits, Written;
    var head, out := Written(r, ts[0]), Out(r, ts[1..]);
    var m := |ts| - 1;
    if m > 0 {
      assert ts[..m][1..] == ts[1..][..m - 1];
    }
    assert Out(r, ts) == head + out;
    assert (head + out)[o..] == head[o..] + out;
    if o + |p| <= |head + out| {
      assert (head + out)[o..o + |p|] == (head[o..] + out)[..|p|];
    }
  }

  lemma {:induction false} NothingSpells(r: Redactor, p: Pattern)
    requires |r.patterns| == |r.replacements| && AllNonEmpty(r.replacements) && p != []
    ensures [] !in Spellings(r, p)
  {
  }

  /** Listed spellings start with a token of the redactor, and the rest is listed for the rest of `p`. */
  lemma {:induction false} FirstOfSpellings(r: Redactor, p: Pattern, ts: seq<Token>)
    requires |r.patterns| == |r.replacements| && AllNonEmpty(r.replacements) && p != [] && ts != []
    ensures ts in Spellings(r, p) <==> Fits(r, [ts[0]]) && exists o :: IsListed(r, p, ts, o)
  {
    hide Tails, Begins, Rest;
    assert ts == [ts[0]] + ts[1..];
    assert ts[0] in [ts[0]];
    if Fits(r, [ts[0]]) {
      var head := Written(r, ts[0]);
      FirstOfTails(r, p, ts);
      assert head[0..] == head;
      assert IsListed(r, p, ts, 0) <==> ts in Tails(r, p);
      if ts in Spellings(r, p) && ts !in Tails(r, p) {
        var k, o, t :| 0 <= k < |r.replacements| && 0 < o < |r.replacements[k]| && Begins(r.replacements[k][o..], p)
                       && t in Tails(r, Rest(r.replacements[k][o..], p)) && ts == [Replace(k)] + t;
        assert ts[1..] == t;
        assert IsListed(r, p, ts, o);
      }
    } else {
      TailsFit(r, p, ts);
    }
  }

  /** `ts` is listed as writing `p` from position `o` of its first token on. */
  predicate IsListed(r: Redactor, p: Pattern, ts: seq<Token>, o: nat)
    requires AllNonEmpty(r.replacements) && ts != [] && Fits(r, [ts[0]])
  {
    var head := Written(r, ts[0]);
    o < |head| && Begins(head[o..], p) && ts[1..] in Tails(r, Rest(head[o..], p))
  }

  /** The listed spellings are all there are. */
  lemma {:induction false} SpellingsSpell(r: Redactor, p: Pattern, ts: seq<Token>)
    requires |r.patterns| == |r.replacements| && AllNonEmpty(r.replacements) && p != []
    ensures ts in Spellings(r, p) <==> Fits(r, ts) && exists o :: Spells(r, ts, p, o)
  {
    hide Spellings, Tails, Fits, Covers, Begins, Rest, Written, OccursAt;
    if ts == [] {
      NothingSpells(r, p);
    } else {
      FitsParts(r, ts);
      FirstOfSpellings(r, p, ts);
      if Fits(r, [ts[0]]) {
        forall o: nat | o < |Written(r, ts[0])|
          ensures IsListed(r, p, ts, o) <==> Fits(r, ts) && Spells(r, ts, p, o)
        {
          ListedSpells(r, p, ts, o);
        }
      }
    }
  }

  lemma {:induction false} ListedSpells(r: Redactor, p: Pattern, ts: seq<Token>, o: nat)
    requires |r.patterns| == |r.replacements| && AllNonEmpty(r.replacements) && p != []
    requires ts != [] && Fits(r, [ts[0]]) && o < |Written(r, ts[0])|
    ensures IsListed(r, p, ts, o) <==> Fits(r, ts) && Spells(r, ts, p, o)
  {
    hide Tails, Fits, Spells, Covers, Begins, Rest, Written;
    FitsParts(r, ts);
    var rest := Written(r, ts[0])[o..];
    TailsCover(r, Rest(rest, p), ts[1..]);
    if Fits(r, ts) {
      SpellsFrom(r, ts, p, o);
      CoversRest(r, rest, ts[1..], p);
    }
  }

  /** The list is finite, and its members are no longer than what they spell. */
  lemma {:induction false} TailsAreShort(r: Redactor, q: seq<byte>, ts: seq<Token>)
    requires AllNonEmpty(r.replacements) && ts in Tails(r, q)
    ensures |ts| <= |q|
    decreases |q|
  {
    if q != [] {
      hide Begins;
      if t :| t in Tails(r, q[1..]) && ts == [Copy(q[0])] + t {
        TailsAreShort(r, q[1..], t);
      } else {
        var k, t :| 0 <= k < |r.replacements| && t in Tails(r, Rest(r.replacements[k], q)) && ts == [Replace(k)] + t;
        TailsAreShort(r, Rest(r.replacements[k], q), t);
      }
    }
  }

  /** So a text that makes a redactor spell `p` can be found among the texts of at most `|p|` tokens. */
  lemma {:induction false} SpellingsAreShort(r: Redactor, p: Pattern, ts: seq<Token>)
    requires AllNonEmpty(r.replacements) && p != [] && ts in Spellings(r, p)
    ensures |ts| <= |p|
  {
    hide Begins, Tails;
    if ts in Tails(r, p) {
      TailsAreShort(r, p, ts);
    } else {
      var k, o, t :| 0 <= k < |r.replacements| && 0 < o < |r.replacements[k]|
                     && t in Tails(r, Rest(r.replacements[k][o..], p)) && ts == [Replace(k)] + t;
      TailsAreShort(r, Rest(r.replacements[k][o..], p), t);
    }
  }

  /** So the check answers the question for every redactor that writes something for every match. */
  lemma {:induction false} CheckIff(r: Redactor)
    requires r.Valid() && AllNonEmpty(r.replacements)
    ensures NeverWritten(r) <==> SpellsNothing(r)
  {
    hide Spellings, Fits, Spells, Reads;
    CleanIff(r);
    forall j, ts | 0 <= j < |r.patterns|
      ensures ts in Spellings(r, r.patterns[j]) <==> Fits(r, ts) && exists o :: Spells(r, ts, r.patterns[j], o)
    {
      SpellingsSpell(r, r.patterns[j], ts);
    }
  }
}
