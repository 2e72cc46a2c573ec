/** Adopting `.env` lines: parsing one line, and planning which lines are stored in the vault and
    replaced by a pointer. A source file is its sequence of lines. */
module Adopt {
  import opened Common
  import opened VaultFormat

  // ---- Text ------------------------------------------------------------------------------

  predicate IsWhitespace(c: char) {
    || '\t' <= c <= '\r' || c == ' ' || c == '\U{85}' || c == '\U{A0}' || c == '\U{1680}'
    || '\U{2000}' <= c <= '\U{200A}' || c == '\U{2028}' || c == '\U{2029}' || c == '\U{202F}'
    || c == '\U{205F}' || c == '\U{3000}'
  }

  function TrimStart(s: string): string {
    if s != [] && IsWhitespace(s[0]) then TrimStart(s[1..]) else s
  }

  function TrimEnd(s: string): string {
    if s != [] && IsWhitespace(s[|s| - 1]) then TrimEnd(s[..|s| - 1]) else s
  }

  function Trim(s: string): string {
    TrimEnd(TrimStart(s))
  }

  function Join(lines: seq<string>): string {
    if lines == [] then ""
    else if |lines| == 1 then lines[0]
    else lines[0] + "\n" + Join(lines[1..])
  }

  /** What `import` stores for a file. */
  function TrimmedText(lines: seq<string>): string {
    Trim(Join(lines))
  }

  /** Replaces the occurrences of `from`, left to right. */
  function ReplaceAll(s: string, from: string, to: string): string
    requires from != ""
  {
    if |s| < |from| then s
    else if s[..|from|] == from then to + ReplaceAll(s[|from|..], from, to)
    else [s[0]] + ReplaceAll(s[1..], from, to)
  }

  function SplitOnce(s: string, c: char): Option<(string, string)> {
    if s == "" then None
    else if s[0] == c then Some(("", s[1..]))
    else
      match SplitOnce(s[1..], c)
      case None => None
      case Some((a, b)) => Some(([s[0]] + a, b))
  }

  function Unquote(value: string): string {
    if |value| < 2 then value
    else
      var first, last, inner := value[0], value[|value| - 1], value[1..|value| - 1];
      if first == '"' && last == '"' then
        ReplaceAll(ReplaceAll(ReplaceAll(inner, "\\n", "\n"), "\\\"", "\""), "\\\\", "\\")
      else if first == '\'' && last == '\'' then inner
      else value
  }

  /** One line of dotenv: the name and the value, or `None` for a blank line, a comment, or a line
      without a name. */
  function ParseDotenvLine(raw: string): Option<(string, string)> {
    var line := Trim(raw);
    if line == "" || line[0] == '#' then None
    else
      var keyword := "export ";
      var body := TrimStart(if keyword <= line then line[|keyword|..] else line);
      match SplitOnce(body, '=')
      case None => None
      case Some((name, value)) =>
        if Trim(name) == "" then None else Some((Trim(name), Unquote(Trim(value))))
  }

  /** The comment that replaces an adopted line. */
  function Pointer(name: string, key: string): string {
    "# " + name + " -> hearth-vault: " + key + " (value removed)"
  }

  // ---- Planning --------------------------------------------------------------------------

  /** A finding on line `line`, counted from 1. */
  datatype Finding = Finding(line: nat, suggestedKey: string)

  datatype FileWork = FileWork(path: string, findings: seq<Finding>)

  datatype Rewrite = Rewrite(path: string, before: seq<string>, after: seq<string>)

  datatype Request = Request(prefix: string, force: bool, now: int)

  /** What the pass over the findings accumulates: the entries as they will be stored, the edits
      that made them so, the pairs to verify, and the lines of the file at hand. */
  datatype Progress = Progress(entries: Entries, edits: seq<Edit>, stored: seq<(string, string)>,
                               lines: seq<string>, skipped: nat, errors: nat)

  function AdoptLine(f: Finding, req: Request, p: Progress): Progress {
    var idx := if f.line > 0 then f.line - 1 else 0;
    if idx >= |p.lines| then p.(errors := p.errors + 1)
    else
      match ParseDotenvLine(p.lines[idx])
      case None => p.(errors := p.errors + 1)
      case Some((name, value)) =>
        var key := req.prefix + f.suggestedKey;
        if value == "" then p.(errors := p.errors + 1)
        else if key in p.entries && !req.force then p.(skipped := p.skipped + 1)
        else
          Progress(SetEntry(p.entries, key, value, TIER_USE_ONLY, req.now),
                   p.edits + [SetEdit(key, value, TIER_USE_ONLY, req.now)],
                   p.stored + [(key, value)],
                   p.lines[idx := Pointer(name, key)],
                   p.skipped, p.errors)
  }

  function AdoptLines(findings: seq<Finding>, req: Request, p: Progress): Progress {
    if findings == [] then p
    else
      var n := |findings| - 1;
      AdoptLine(findings[n], req, AdoptLines(findings[..n], req, p))
  }

  /** The plan for all files; a file that cannot be read is an error and is left alone. */
  function PlanAdoption(work: seq<FileWork>, sources: map<string, seq<string>>, req: Request,
                        start: Progress) : (Progress, seq<Rewrite>)
  {
    if work == [] then (start, [])
    else
      var n := |work| - 1;
      var (p, rewrites) := PlanAdoption(work[..n], sources, req, start);
      var path := work[n].path;
      if path !in sources then (p.(errors := p.errors + 1), rewrites)
      else
        var before := sources[path];
        var done := AdoptLines(work[n].findings, req, p.(lines := before));
        (done, if |done.stored| == |p.stored| then rewrites
               else rewrites + [Rewrite(path, before, done.lines)])
  }

  /** The loops over files and findings, growing the lists and the line vector in place. */
  method PlanByLoop(work: seq<FileWork>, sources: map<string, seq<string>>, req: Request,
                    entries: Entries)
    returns (plan: Progress, rewrites: seq<Rewrite>)
    ensures (plan, rewrites) == PlanAdoption(work, sources, req, Progress(entries, [], [], [], 0, 0))
  {
    ghost var start := Progress(entries, [], [], [], 0, 0);
    plan := Progress(entries, [], [], [], 0, 0);
    rewrites := [];
    for n := 0 to |work|
      invariant (plan, rewrites) == PlanAdoption(work[..n], sources, req, start)
    {
      assert work[..n + 1][..n] == work[..n];
      var path := work[n].path;
      if path !in sources {
        plan := plan.(errors := plan.errors + 1);
      } else {
        var before := sources[path];
        ghost var begun := plan.(lines := before);
        var findings := work[n].findings;
        var changed := false;
        ghost var stored := |plan.stored|;
        plan := plan.(lines := before);
        for i := 0 to |findings|
          invariant plan == AdoptLines(findings[..i], req, begun)
          invariant stored <= |plan.stored| && (changed <==> stored < |plan.stored|)
        {
          assert findings[..i + 1][..i] == findings[..i];
          var was := |plan.stored|;
          plan := AdoptLine(findings[i], req, plan);
          changed := changed || was < |plan.stored|;
        }
        assert findings[..|findings|] == findings;
        if changed {
          rewrites := rewrites + [Rewrite(path, before, plan.lines)];
        }
      }
    }
    assert work[..|work|] == work;
  }

  // ---- What a plan guarantees --------------------------------------------------------------

  /** Line `i` is unchanged, or its parsed value is among the stored pairs under the key that the
      pointer in its place names. */
  predicate LineJustified(before: string, after: string, stored: seq<(string, string)>) {
    before == after ||
    exists n :: 0 <= n < |stored| &&
      var parsed := ParseDotenvLine(before);
      parsed.Some? && parsed.value.1 == stored[n].1 && after == Pointer(parsed.value.0, stored[n].0)
  }

  predicate Justified(before: seq<string>, after: seq<string>, stored: seq<(string, string)>) {
    |before| == |after| &&
    forall i :: 0 <= i < |before| ==> LineJustified(before[i], after[i], stored)
  }

  /** One finding per line, as the pass over the findings selects them. */
  predicate DistinctLines(findings: seq<Finding>) {
    && (forall i :: 0 <= i < |findings| ==> findings[i].line > 0)
    && forall i, j :: 0 <= i < j < |findings| ==> findings[i].line != findings[j].line
  }

  predicate DistinctWork(work: seq<FileWork>) {
    && (forall i :: 0 <= i < |work| ==> DistinctLines(work[i].findings))
    && forall i, j :: 0 <= i < j < |work| ==> work[i].path != work[j].path
  }

  /** `p` extends `q`: nothing that was stored is forgotten. */
  predicate Extends(p: Progress, q: Progress) {
    |q.stored| <= |p.stored| && p.stored[..|q.stored|] == q.stored
  }

  /** Changed lines are lines of some finding. */
  predicate OnlyFound(before: seq<string>, after: seq<string>, findings: seq<Finding>) {
    |before| == |after| &&
    forall i :: 0 <= i < |before| && before[i] != after[i] ==> FoundAt(findings, i + 1)
  }

  predicate FoundAt(findings: seq<Finding>, line: nat) {
    exists n :: 0 <= n < |findings| && findings[n].line == line
  }

  lemma {:induction false} FoundBefore(findings: seq<Finding>, n: nat, line: nat)
    requires n <= |findings| && FoundAt(findings[..n], line)
    ensures FoundAt(findings, line)
  {
    var m :| 0 <= m < n && findings[..n][m].line == line;
    assert findings[m].line == line;
  }

  /** One finding replaces at most its own line, and stores what it replaced. */
  lemma {:induction false} AdoptLineStep(f: Finding, req: Request, q: Progress)
    requires f.line > 0
    ensures var r := AdoptLine(f, req, q);
            && |r.lines| == |q.lines| && Extends(r, q)
            && (|r.stored| == |q.stored| ==> r.lines == q.lines)
            && forall i :: 0 <= i < |q.lines| && q.lines[i] != r.lines[i] ==>
                 i + 1 == f.line && LineJustified(q.lines[i], r.lines[i], r.stored)
  {
    hide ParseDotenvLine, Pointer, SetEntry;
    var r := AdoptLine(f, req, q);
    if |r.stored| != |q.stored| {
      assert r.stored[|q.stored|] == r.stored[|r.stored| - 1];
    }
  }

  lemma {:induction false} AdoptLinesJustified(findings: seq<Finding>, req: Request, p: Progress)
    requires DistinctLines(findings)
    ensures var r := AdoptLines(findings, req, p);
            && Extends(r, p) && Justified(p.lines, r.lines, r.stored)
            && (|r.stored| == |p.stored| ==> r.lines == p.lines)
            && OnlyFound(p.lines, r.lines, findings)
  {
    hide LineJustified, AdoptLine, FoundAt;
    if findings == [] {
      forall i | 0 <= i < |p.lines| ensures LineJustified(p.lines[i], p.lines[i], p.stored) {
        Untouched(p.lines[i], p.stored);
      }
    } else {
      var n := |findings| - 1;
      AdoptLinesJustified(findings[..n], req, p);
      var q := AdoptLines(findings[..n], req, p);
      var r := AdoptLine(findings[n], req, q);
      AdoptLineStep(findings[n], req, q);
      PrefixMembers(q.stored, r.stored);
      forall i | 0 <= i < |p.lines|
        ensures LineJustified(p.lines[i], r.lines[i], r.stored)
        ensures p.lines[i] != r.lines[i] ==> FoundAt(findings, i + 1)
      {
        if q.lines[i] == r.lines[i] {
          JustifiedByMore(p.lines[i], q.lines[i], q.stored, r.stored);
          if p.lines[i] != r.lines[i] {
            FoundBefore(findings, n, i + 1);
          }
        } else {
          FoundLast(findings);
          NotFoundTwice(findings);
          assert p.lines[i] == q.lines[i];
        }
      }
    }
  }

  lemma {:induction false} Untouched(line: string, stored: seq<(string, string)>)
    ensures LineJustified(line, line, stored)
  {
  }

  lemma {:induction false} FoundLast(findings: seq<Finding>)
    requires findings != []
    ensures FoundAt(findings, findings[|findings| - 1].line)
  {
  }

  lemma {:induction false} NotFoundTwice(findings: seq<Finding>)
    requires DistinctLines(findings) && findings != []
    ensures !FoundAt(findings[..|findings| - 1], findings[|findings| - 1].line)
  {
  }

  lemma {:induction false} JustifiedByMore(before: string, after: string, stored: seq<(string, string)>,
                                           more: seq<(string, string)>)
    requires LineJustified(before, after, stored)
    requires forall pair :: pair in stored ==> pair in more
    ensures LineJustified(before, after, more)
  {
    if before != after {
      var parsed := ParseDotenvLine(before);
      var n :| 0 <= n < |stored| && parsed.Some? && parsed.value.1 == stored[n].1
               && after == Pointer(parsed.value.0, stored[n].0);
      assert stored[n] in more;
      var m :| 0 <= m < |more| && more[m] == stored[n];
    }
  }

  lemma {:induction false} PrefixMembers(xs: seq<(string, string)>, ys: seq<(string, string)>)
    requires |xs| <= |ys| && ys[..|xs|] == xs
    ensures forall pair :: pair in xs ==> pair in ys
  {
    forall pair | pair in xs ensures pair in ys {
      assert pair in ys[..|xs|];
    }
  }

  /** The rewrites of a plan: each is the current text of a different file, and every line it
      replaces is stored under the key its pointer names. */
  predicate PlanJustified(rewrites: seq<Rewrite>, stored: seq<(string, string)>,
                          sources: map<string, seq<string>>)
  {
    && (forall i, j :: 0 <= i < j < |rewrites| ==> rewrites[i].path != rewrites[j].path)
    && forall i :: 0 <= i < |rewrites| ==>
         && Justified(rewrites[i].before, rewrites[i].after, stored)
         && rewrites[i].path in sources && sources[rewrites[i].path] == rewrites[i].before
  }

  lemma {:induction false} RewritesByMore(rewrites: seq<Rewrite>, stored: seq<(string, string)>,
                                          more: seq<(string, string)>, sources: map<string, seq<string>>)
    requires PlanJustified(rewrites, stored, sources)
    requires forall pair :: pair in stored ==> pair in more
    ensures PlanJustified(rewrites, more, sources)
  {
    hide LineJustified;
    forall i | 0 <= i < |rewrites| ensures Justified(rewrites[i].before, rewrites[i].after, more) {
      assert Justified(rewrites[i].before, rewrites[i].after, stored);
      forall l | 0 <= l < |rewrites[i].before|
        ensures LineJustified(rewrites[i].before[l], rewrites[i].after[l], more)
      {
        JustifiedByMore(rewrites[i].before[l], rewrites[i].after[l], stored, more);
      }
    }
  }

  predicate FileIn(work: seq<FileWork>, path: string) {
    exists n :: 0 <= n < |work| && work[n].path == path
  }

  lemma {:induction false} FilesGrow(work: seq<FileWork>, path: string)
    requires work != []
    ensures FileIn(work, work[|work| - 1].path)
    ensures FileIn(work[..|work| - 1], path) ==> FileIn(work, path)
    ensures DistinctWork(work) ==> !FileIn(work[..|work| - 1], work[|work| - 1].path)
  {
    if FileIn(work[..|work| - 1], path) {
      var m :| 0 <= m < |work| - 1 && work[..|work| - 1][m].path == path;
      assert work[m].path == path;
    }
  }

  lemma {:induction false} PlanIsJustified(work: seq<FileWork>, sources: map<string, seq<string>>,
                                           req: Request, start: Progress)
    requires DistinctWork(work)
    ensures var (p, rewrites) := PlanAdoption(work, sources, req, start);
            && Extends(p, start)
            && PlanJustified(rewrites, p.stored, sources)
            && forall i :: 0 <= i < |rewrites| ==> FileIn(work, rewrites[i].path)
  {
    if work != [] {
      hide Justified, AdoptLines, FileIn, DistinctLines;
      var n := |work| - 1;
      PlanIsJustified(work[..n], sources, req, start);
      var (p, rewrites) := PlanAdoption(work[..n], sources, req, start);
      var path := work[n].path;
      forall i | 0 <= i < |rewrites|
        ensures rewrites[i].path != path && FileIn(work, rewrites[i].path)
      {
        FilesGrow(work, rewrites[i].path);
      }
      FilesGrow(work, path);
      if path in sources {
        AdoptLinesJustified(work[n].findings, req, p.(lines := sources[path]));
        var r := AdoptLines(work[n].findings, req, p.(lines := sources[path]));
        PrefixMembers(p.stored, r.stored);
        RewritesByMore(rewrites, p.stored, r.stored, sources);
      }
    }
  }

  /** The work has a finding in this file. */
  predicate WorksOn(work: seq<FileWork>, path: string) {
    exists n :: 0 <= n < |work| && work[n].path == path && work[n].findings != []
  }

  /** A rewrite of a file that has lines, for which the work has a finding, and that changes only lines with one. */
  predicate Named(work: seq<FileWork>, r: Rewrite) {
    exists n :: 0 <= n < |work| && NamedBy(work[n], r)
  }

  predicate NamedBy(work: FileWork, r: Rewrite) {
    work.path == r.path && work.findings != [] && r.before != [] && OnlyFound(r.before, r.after, work.findings)
  }

  lemma {:induction false} NamedInMore(work: seq<FileWork>, n: nat, r: Rewrite)
    requires n <= |work| && Named(work[..n], r)
    ensures Named(work, r)
  {
    hide NamedBy;
    var m :| 0 <= m < n && NamedBy(work[..n][m], r);
    assert work[m] == work[..n][m];
  }

  lemma {:induction false} PlanIsNamed(work: seq<FileWork>, sources: map<string, seq<string>>,
                                       req: Request, start: Progress)
    requires DistinctWork(work)
    ensures var (_, rewrites) := PlanAdoption(work, sources, req, start);
            forall r :: r in rewrites ==> Named(work, r)
  {
    if work != [] {
      hide AdoptLines, OnlyFound, DistinctLines, Named;
      var n := |work| - 1;
      PlanIsNamed(work[..n], sources, req, start);
      var (p, rewrites) := PlanAdoption(work[..n], sources, req, start);
      forall r | r in rewrites ensures Named(work, r) {
        NamedInMore(work, n, r);
      }
      var path := work[n].path;
      if path in sources {
        var begun := p.(lines := sources[path]);
        AdoptLinesJustified(work[n].findings, req, begun);
        NothingToAdopt(work[n].findings, req, begun);
        LastIsNamed(work, Rewrite(path, sources[path], AdoptLines(work[n].findings, req, begun).lines));
      }
    }
  }

  /** Without a finding, or without a line, nothing is stored. */
  lemma {:induction false} NothingToAdopt(findings: seq<Finding>, req: Request, p: Progress)
    ensures var r := AdoptLines(findings, req, p);
            findings == [] || p.lines == [] ==> r.stored == p.stored && r.lines == p.lines
  {
    if findings != [] && p.lines == [] {
      NothingToAdopt(findings[..|findings| - 1], req, p);
    }
  }

  lemma {:induction false} NamedWorksOn(work: seq<FileWork>, r: Rewrite)
    requires Named(work, r)
    ensures WorksOn(work, r.path) && r.before != []
  {
    var n :| 0 <= n < |work| && NamedBy(work[n], r);
  }

  lemma {:induction false} LastIsNamed(work: seq<FileWork>, r: Rewrite)
    requires work != [] && |r.before| == |r.after|
    requires work[|work| - 1].findings != [] && r.before != [] ==> NamedBy(work[|work| - 1], r)
    ensures work[|work| - 1].findings != [] && r.before != [] ==> Named(work, r)
  {
  }

  /** The edits of a plan are exactly what turns the old entries into the new ones, and they are
      all accepted. */
  lemma {:induction false} AdoptLinesEdits(findings: seq<Finding>, req: Request, p: Progress,
                                           v: Vault)
    requires p.entries == ApplyEdits(p.edits, v).entries && AllSets(p.edits)
    ensures var r := AdoptLines(findings, req, p);
            r.entries == ApplyEdits(r.edits, v).entries && AllSets(r.edits)
  {
    hide AdoptLine, ApplyEdits, AllSets;
    if findings != [] {
      var n := |findings| - 1;
      AdoptLinesEdits(findings[..n], req, p, v);
      AdoptLineEdits(findings[n], req, AdoptLines(findings[..n], req, p), v);
    }
  }

  lemma {:induction false} AdoptLineEdits(f: Finding, req: Request, q: Progress, v: Vault)
    requires q.entries == ApplyEdits(q.edits, v).entries && AllSets(q.edits)
    ensures var r := AdoptLine(f, req, q);
            r.entries == ApplyEdits(r.edits, v).entries && AllSets(r.edits)
  {
    hide ParseDotenvLine, Pointer, SetEntry;
    var r := AdoptLine(f, req, q);
    if r.edits != q.edits {
      assert r.edits[..|r.edits| - 1] == q.edits;
    }
  }

  predicate AllSets(edits: seq<Edit>) {
    forall i :: 0 <= i < |edits| ==> edits[i].SetEdit? && edits[i].tier == TIER_USE_ONLY
  }

  lemma {:induction false} PlanEdits(work: seq<FileWork>, sources: map<string, seq<string>>,
                                     req: Request, start: Progress, v: Vault)
    requires start.entries == ApplyEdits(start.edits, v).entries && AllSets(start.edits)
    ensures var (p, _) := PlanAdoption(work, sources, req, start);
            p.entries == ApplyEdits(p.edits, v).entries && AllSets(p.edits)
  {
    hide AdoptLines, ApplyEdits, AllSets;
    if work != [] {
      var n := |work| - 1;
      PlanEdits(work[..n], sources, req, start, v);
      var (p, _) := PlanAdoption(work[..n], sources, req, start);
      if work[n].path in sources {
        AdoptLinesEdits(work[n].findings, req, p.(lines := sources[work[n].path]), v);
      }
    }
  }

  /** The files after the rewrites, one after the other. */
  function Rewritten(files: map<string, seq<string>>, rewrites: seq<Rewrite>): map<string, seq<string>> {
    if rewrites == [] then files
    else
      var r := rewrites[|rewrites| - 1];
      Rewritten(files, rewrites[..|rewrites| - 1])[r.path := r.after]
  }

  /** Later values win. */
  ghost predicate StoresLast(p: Progress) {
    forall key :: HoldsLast(p.entries, p.stored, key)
  }

  lemma {:induction false} AdoptLineStoresLast(f: Finding, req: Request, p: Progress)
    requires StoresLast(p)
    ensures StoresLast(AdoptLine(f, req, p))
  {
    hide ParseDotenvLine, Pointer;
    var r := AdoptLine(f, req, p);
    if r.stored != p.stored {
      assert r.stored[..|r.stored| - 1] == p.stored;
      forall key ensures HoldsLast(r.entries, r.stored, key) {
        assert HoldsLast(p.entries, p.stored, key);
      }
    }
  }

  lemma {:induction false} AdoptLinesStoreLast(findings: seq<Finding>, req: Request, p: Progress)
    requires StoresLast(p)
    ensures StoresLast(AdoptLines(findings, req, p))
  {
    hide StoresLast, AdoptLine;
    if findings != [] {
      var n := |findings| - 1;
      AdoptLinesStoreLast(findings[..n], req, p);
      AdoptLineStoresLast(findings[n], req, AdoptLines(findings[..n], req, p));
    }
  }

  lemma {:induction false} PlanStoresLast(work: seq<FileWork>, sources: map<string, seq<string>>,
                                          req: Request, start: Progress)
    requires StoresLast(start)
    ensures StoresLast(PlanAdoption(work, sources, req, start).0)
  {
    hide AdoptLines;
    if work != [] {
      var n := |work| - 1;
      PlanStoresLast(work[..n], sources, req, start);
      var p := PlanAdoption(work[..n], sources, req, start).0;
      if work[n].path in sources {
        AdoptLinesStoreLast(work[n].findings, req, p.(lines := sources[work[n].path]));
      }
    }
  }

  /** Everything a plan stores is in the planned entries exactly when it gives no key two values. */
  lemma {:induction false} PlanHoldsIff(work: seq<FileWork>, sources: map<string, seq<string>>,
                                        req: Request, entries: Entries)
    ensures var plan := PlanAdoption(work, sources, req, Progress(entries, [], [], [], 0, 0)).0;
            Missing(plan.entries, plan.stored) == [] <==> Consistent(plan.stored)
  {
    hide PlanAdoption;
    PlanStoresLast(work, sources, req, Progress(entries, [], [], [], 0, 0));
    var plan := PlanAdoption(work, sources, req, Progress(entries, [], [], [], 0, 0)).0;
    HeldIffConsistent(plan.entries, plan.stored);
  }
}
