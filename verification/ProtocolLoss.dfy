/** How an import comes to destroy text that is not in the vault: an adoption rewrites the file between
    the moment the import reads it and the moment it takes the lock. */
module ProtocolLoss {
  import opened Common
  import opened VaultFormat
  import opened Adopt
  import opened Protocol
  import opened ProtocolInvariant
  import opened ProtocolActions
  import opened ProtocolProgress
  import opened ProtocolSources

  // ---- Every adoption that changes the file can cost its text -----------------------------------

  /** Process 1 has started an import of `path` and read it; process 2 has started an adoption. */
  function Opening(text: string, path: Path, key: string, tier: nat, now: int, work: seq<FileWork>, req: Request)
    : seq<Action>
  {
    [Start(1, ImportProgram(text, path, key, tier, now)), Step(1, Skip), Start(2, AdoptProgram(text, work, req))]
  }

  predicate BothStarted(w: World, w': World, text: string, path: Path, key: string, tier: nat, now: int,
                        work: seq<FileWork>, req: Request)
    requires path in w.sources
  {
    && w'.disk == w.disk && w'.holder == None && w'.sources == w.sources && 1 in w'.procs && 2 in w'.procs
    && w'.procs[1] == Proc(ImportProgram(text, path, key, tier, now), 1, Ready, None, [], false,
                           Some((path, TrimmedText(w.sources[path]))), {}, [], false)
    && w'.procs[2] == Proc(AdoptProgram(text, work, req), 0, Ready, None, [], false, None, {}, [], false)
  }

  lemma {:induction false} OpeningRuns(w: World, text: string, path: Path, key: string, tier: nat, now: int,
                                       work: seq<FileWork>, req: Request)
    requires w.procs == map[] && w.holder == None && path in w.sources && TrimmedText(w.sources[path]) != ""
    requires DistinctWork(work)
    ensures BothStarted(w, Run(w, Opening(text, path, key, tier, now, work, req)), text, path, key, tier, now, work,
                        req)
  {
    var acts := Opening(text, path, key, tier, now, work, req);
    ImportIsDisciplined(text, path, key, tier, now);
    AdoptIsDisciplined(text, work, req);
    RunOfThree(w, acts);
    hide Disciplined, TrimmedText;
    var proc := Proc(ImportProgram(text, path, key, tier, now), 0, Ready, None, [], false, None, {}, [], false);
    var w1 := Put(w, 1, proc);
    assert Next(w, acts[0]) == w1;
    OneRead(w1, path, proc);
    var w2 := Once(w1, 1);
    assert Next(w2, acts[2])
        == Put(w2, 2, Proc(AdoptProgram(text, work, req), 0, Ready, None, [], false, None, {}, [], false)) by {
      hide Begin, Continue;
    }
  }

  lemma {:induction false} OneRead(w: World, path: Path, proc: Proc)
    requires AboutTo(w, 1, ReadSource(path)) && w.procs[1] == proc
    requires path in w.sources && TrimmedText(w.sources[path]) != ""
    ensures Once(w, 1) == Put(w, 1, Done(proc.(source := Some((path, TrimmedText(w.sources[path]))), taken := {})))
  {
    hide Once, TrimmedText;
    OnceIs(w, 1);
  }

  /** The opening, then the adoption alone to its end, then the import alone up to the destruction. */
  function LosingRun(text: string, path: Path, key: string, tier: nat, now: int, work: seq<FileWork>, req: Request,
                     rewrites: nat)
    : seq<Action>
  {
    Opening(text, path, key, tier, now, work, req) + SoloActs(2, 12 + 2 * rewrites) + SoloActs(1, 10)
  }

  /** For every import and every adoption that would change the text of its file: there is a run of these two
      commands in which the import destroys text that the vault does not hold. */
  lemma {:induction false} AdoptionCanCostAnImport(w: World, text: string, path: Path, key: string, tier: nat, now: int,
                                                   work: seq<FileWork>, req: Request)
    requires w.procs == map[] && w.holder == None && w.disk.Sealed? && WellKeyedFile(w.disk.file)
    requires PassphraseOf(Contents(w.disk.file)) == Passphrase(text)
    requires path in w.sources && TrimmedText(w.sources[path]) != "" && ValidTier(tier) && DistinctWork(work)
    requires Consistent(PlanFor(w, work, req).0.stored)
    requires var after := Rewritten(w.sources, PlanFor(w, work, req).1);
             path in after && TrimmedText(after[path]) != TrimmedText(w.sources[path])
    ensures var last := Run(w, LosingRun(text, path, key, tier, now, work, req, |PlanFor(w, work, req).1|));
            && AboutTo(last, 1, DestroySource(path, key)) && path in last.sources && last.disk.Sealed?
            && !Holds(last.disk.file.vault.plain, key, TrimmedText(last.sources[path]))
  {
    hide Run, Next, PlanAdoption, Rewritten, TrimmedText, Solo, SoloActs, Consistent, DistinctWork, Opening;
    var (plan, rewrites) := PlanFor(w, work, req);
    var opening := Opening(text, path, key, tier, now, work, req);
    OpeningRuns(w, text, path, key, tier, now, work, req);
    var w3 := Run(w, opening);
    var n := AdoptCompletes(w3, 2, text, work, req);
    var w4 := Solo(w3, 2, n);
    ImportGetsThere(w4, 1, text, path, key, tier, now, TrimmedText(w.sources[path]));
    SoloIsRun(w3, 2, n);
    SoloIsRun(w4, 1, 10);
    RunAppend(w, opening, SoloActs(2, n));
    RunAppend(w, opening + SoloActs(2, n), SoloActs(1, 10));
  }

  lemma {:induction false} RunOfThree(w: World, acts: seq<Action>)
    requires |acts| == 3
    ensures Run(w, acts) == Next(Next(Next(w, acts[0]), acts[1]), acts[2])
  {
    hide Next;
    assert acts[..2][..1] == acts[..1] && acts[..1][..0] == [];
    assert Run(w, acts[..1]) == Next(w, acts[0]);
    assert Run(w, acts[..2]) == Next(Run(w, acts[..1]), acts[1]);
  }

  // ---- One such run --------------------------------------------------------------------------------

  lemma {:induction false} TrimKeepsFirst(s: string)
    requires s != "" && !IsWhitespace(s[0])
    ensures TrimEnd(s) != "" && TrimEnd(s)[0] == s[0]
    ensures TrimStart(s) == s
  {
    if IsWhitespace(s[|s| - 1]) {
      TrimKeepsFirst(s[..|s| - 1]);
    }
  }

  lemma {:induction false} SampleLine()
    ensures TrimmedText(["A=b"]) == "A=b" && ParseDotenvLine("A=b") == Some(("A", "b"))
  {
    assert Trim("A=b") == "A=b" && Trim("A") == "A" && Trim("b") == "b";
    var keyword := "export ";
    assert !(keyword <= "A=b");
    assert "A=b"[1..] == "=b" && "=b"[1..] == "b";
    assert SplitOnce("=b", '=') == Some(("", "b"));
    assert ['A'] + "" == "A";
    assert SplitOnce("A=b", '=') == Some(("A", "b"));
  }

  function OneLineWork(path: Path, key: string): seq<FileWork> {
    [FileWork(path, [Finding(1, key)])]
  }

  lemma {:induction false} OneLinePlan(path: Path, key: string, line: string, name: string, value: string,
                                       sources: map<Path, seq<string>>, entries: Entries)
    requires ParseDotenvLine(line) == Some((name, value)) && value != "" && key !in entries
    requires path in sources && sources[path] == [line]
    ensures var (plan, rewrites) := PlanAdoption(OneLineWork(path, key), sources, Request("", false, 0),
                                                 Progress(entries, [], [], [], 0, 0));
            plan.stored == [(key, value)] && rewrites == [Rewrite(path, [line], [Pointer(name, key)])]
  {
    hide ParseDotenvLine, Pointer, SetEntry;
    var req, work := Request("", false, 0), OneLineWork(path, key);
    var start := Progress(entries, [], [], [], 0, 0);
    assert work[..0] == [];
    assert PlanAdoption(work[..0], sources, req, start) == (start, []);
    var begun := start.(lines := [line]);
    var findings := [Finding(1, key)];
    assert findings[..0] == [];
    assert AdoptLines(findings[..0], req, begun) == begun;
    assert "" + key == key;
    assert AdoptLines(findings, req, begun) == AdoptLine(findings[0], req, begun);
    assert [line][0 := Pointer(name, key)] == [Pointer(name, key)];
  }

  lemma {:induction false} PointerIsNotTheLine()
    ensures TrimmedText([Pointer("A", "k2")]) != "A=b"
  {
    var s := Pointer("A", "k2");
    assert s[0] == '#';
    TrimKeepsFirst(s);
  }

  lemma {:induction false} OneRewritten(files: map<string, seq<string>>, r: Rewrite)
    ensures Rewritten(files, [r]) == files[r.path := r.after]
  {
    assert [r][..0] == [];
    assert Rewritten(files, [r][..0]) == files;
  }

  /** Import reads its source before it takes the lock. If an adoption rewrites the file in between, the
      import still destroys it, although the vault does not hold the text it has by then. Here "f" holds
      the line A=b, and both commands run to the point of destruction as the program issues them. */
  lemma {:induction false} ImportMayDestroyNewerText()
    returns (init: Disk, w: World, acts: seq<Action>, p: Pid, path: Path, key: string)
    ensures Initial(init, w) && AboutTo(Run(w, acts), p, DestroySource(path, key))
    ensures var now := Run(w, acts);
            && now.disk.Sealed? && path in now.sources
            && !Holds(now.disk.file.vault.plain, key, TrimmedText(now.sources[path]))
  {
    hide Run, Next, ParseDotenvLine, TrimmedText, Pointer, PlanAdoption, Rewritten;
    var file := SealFile(NewVault(Passphrase("p"), 0, 1, 2), 3);
    w := World(Sealed(file), None, None, map[], map["f" := ["A=b"]], {}, {}, 4, {1}, []);
    init, p, path, key := w.disk, 1, "f", "k";
    var work, req := OneLineWork("f", "k2"), Request("", false, 0);
    SampleLine();
    PointerIsNotTheLine();
    OneLinePlan("f", "k2", "A=b", "A", "b", w.sources, w.disk.file.vault.plain);
    OneRewritten(w.sources, Rewrite("f", ["A=b"], [Pointer("A", "k2")]));
    AdoptionCanCostAnImport(w, "p", "f", "k", 3, 0, work, req);
    acts := LosingRun("p", "f", "k", 3, 0, work, req, 1);
  }

  // ---- Exactly which commands an import must not run beside ----------------------------------------

  /** In every world and every run in which only these programs are started, an import of `path` under `key`
      destroys only text that the vault holds. */
  ghost predicate AlwaysSafe(progs: set<seq<Instr>>, path: Path, key: string) {
    forall init: Disk, w: World, acts: seq<Action>, p: Pid | Initial(init, w) && OnlyStarts(acts, progs) ::
      SafeIn(Run(w, acts), p, path, key)
  }

  ghost predicate OnlyStarts(acts: seq<Action>, progs: set<seq<Instr>>) {
    forall prog :: Started(acts, prog) ==> prog in progs
  }

  predicate SafeIn(w: World, p: Pid, path: Path, key: string) {
    AboutTo(w, p, DestroySource(path, key)) && path in w.sources ==>
      w.disk.Sealed? && Holds(w.disk.file.vault.plain, key, TrimmedText(w.sources[path]))
  }

  /** An adoption with a finding in `path`, as the command issues it. */
  ghost predicate IsAdoptionOf(prog: seq<Instr>, text: string, path: Path) {
    exists work, req :: prog == AdoptProgram(text, work, req) && DistinctWork(work) && WorksOn(work, path)
  }

  /** Comments up to the line before `n`, and then the last line. */
  function Padded(n: nat, last: string): seq<string> {
    seq(n, i => "#") + [last]
  }

  lemma {:induction false} JoinEnds(lines: seq<string>)
    requires lines != [] && forall i :: 0 <= i < |lines| ==> lines[i] != ""
    ensures var s, end := Join(lines), lines[|lines| - 1];
            s != "" && s[0] == lines[0][0] && s[|s| - 1] == end[|end| - 1]
  {
    if |lines| > 1 {
      JoinEnds(lines[1..]);
    }
  }

  lemma {:induction false} SolidText(s: string)
    requires s != "" && !IsWhitespace(s[0]) && !IsWhitespace(s[|s| - 1])
    ensures Trim(s) == s
  {
  }

  lemma {:induction false} PaddedText(n: nat, last: string)
    requires last != "" && !IsWhitespace(last[0]) && !IsWhitespace(last[|last| - 1])
    ensures var text := TrimmedText(Padded(n, last));
            text != "" && text[|text| - 1] == last[|last| - 1]
  {
    JoinEnds(Padded(n, last));
    SolidText(Join(Padded(n, last)));
  }

  lemma {:induction false} CommentIsNotParsed()
    ensures ParseDotenvLine("#") == None
  {
    assert Trim("#") == "#";
  }

  /** A finding that has nothing to store leaves the plan alone. */
  predicate Idle(f: Finding, lines: seq<string>) {
    f.line > 0 && (f.line > |lines| || ParseDotenvLine(lines[f.line - 1]).None?)
  }

  lemma {:induction false} IdleFindings(findings: seq<Finding>, req: Request, p: Progress)
    requires forall i :: 0 <= i < |findings| ==> Idle(findings[i], p.lines)
    ensures var r := AdoptLines(findings, req, p);
            r.entries == p.entries && r.stored == p.stored && r.lines == p.lines
  {
    hide ParseDotenvLine;
    if findings != [] {
      IdleFindings(findings[..|findings| - 1], req, p);
    }
  }

  /** Adopting the first finding when only its line has something to store. */
  lemma {:induction false} FirstFinding(findings: seq<Finding>, req: Request, p: Progress)
    requires findings != [] && DistinctLines(findings) && p.lines == Padded(findings[0].line - 1, "A=b")
    requires p.entries == map[]
    ensures var r := AdoptLines(findings, req, p);
            var key := req.prefix + findings[0].suggestedKey;
            r.stored == p.stored + [(key, "b")] && r.lines == Padded(findings[0].line - 1, Pointer("A", key))
  {
    var key := req.prefix + findings[0].suggestedKey;
    var n := |findings| - 1;
    SampleLine();
    CommentIsNotParsed();
    hide ParseDotenvLine, Pointer;
    if n == 0 {
      assert findings[..0] == [];
      assert AdoptLines(findings[..0], req, p) == p;
      assert p.lines[findings[0].line - 1 := Pointer("A", key)] == Padded(findings[0].line - 1, Pointer("A", key));
    } else {
      FirstFinding(findings[..n], req, p);
      var q := AdoptLines(findings[..n], req, p);
      assert findings[n].line != findings[0].line;
      assert AdoptLine(findings[n], req, q).lines == q.lines && AdoptLine(findings[n], req, q).stored == q.stored;
    }
  }

  /** The plan for a vault without entries when `path` is the only file, with one line to adopt. */
  lemma {:induction false} PlanOfOneFile(work: seq<FileWork>, f: nat, req: Request)
    requires DistinctWork(work) && f < |work| && work[f].findings != []
    ensures var path, n := work[f].path, work[f].findings[0].line - 1;
            var key := req.prefix + work[f].findings[0].suggestedKey;
            var (plan, rewrites) := PlanAdoption(work, map[path := Padded(n, "A=b")], req,
                                                 Progress(map[], [], [], [], 0, 0));
            && plan.stored == [(key, "b")]
            && rewrites == [Rewrite(path, Padded(n, "A=b"), Padded(n, Pointer("A", key)))]
  {
    hide AdoptLines, Pointer, Padded;
    var path, n := work[f].path, work[f].findings[0].line - 1;
    var sources := map[path := Padded(n, "A=b")];
    var start := Progress(map[], [], [], [], 0, 0);
    var last := |work| - 1;
    if f < last {
      PlanOfOneFile(work[..last], f, req);
    } else {
      OtherFiles(work[..last], sources, req, start);
      var p := PlanAdoption(work[..last], sources, req, start).0;
      FirstFinding(work[f].findings, req, p.(lines := sources[path]));
    }
  }

  lemma {:induction false} OtherFiles(work: seq<FileWork>, sources: map<string, seq<string>>, req: Request,
                                      start: Progress)
    requires forall n :: 0 <= n < |work| ==> work[n].path !in sources
    ensures var (p, rewrites) := PlanAdoption(work, sources, req, start);
            p.entries == start.entries && p.stored == start.stored && rewrites == []
  {
    if work != [] {
      OtherFiles(work[..|work| - 1], sources, req, start);
    }
  }

  /** An empty vault, and one file whose last line can be adopted. */
  function BareWorld(text: string, path: Path, n: nat): World {
    World(Sealed(SealFile(NewVault(Passphrase(text), 0, 1, 2), 3)), None, None, map[],
          map[path := Padded(n, "A=b")], {}, {}, 4, {1}, [])
  }

  lemma {:induction false} BareWorldFacts(text: string, path: Path, n: nat)
    ensures var w := BareWorld(text, path, n);
            && Initial(w.disk, w) && w.disk.Sealed? && WellKeyedFile(w.disk.file)
            && w.disk.file.vault.plain == map[] && PassphraseOf(Contents(w.disk.file)) == Passphrase(text)
  {
    hide Padded;
  }

  lemma {:induction false} AdoptionBreaks(progs: set<seq<Instr>>, text: string, path: Path, key: string, tier: nat,
                                          now: int, work: seq<FileWork>, req: Request)
    requires ValidTier(tier) && DistinctWork(work) && WorksOn(work, path)
    requires ImportProgram(text, path, key, tier, now) in progs && AdoptProgram(text, work, req) in progs
    ensures !AlwaysSafe(progs, path, key)
  {
    hide Run, PlanAdoption, TrimmedText, Rewritten, Pointer, Padded, Initial, WellKeyedFile, OnlyStarts, LosingRun,
         BareWorld, DistinctWork, Consistent;
    var f :| 0 <= f < |work| && work[f].path == path && work[f].findings != [];
    assert DistinctLines(work[f].findings) by { LinesAreDistinct(work, f); }
    var n := work[f].findings[0].line - 1;
    var w := BareWorld(text, path, n);
    BareWorldFacts(text, path, n);
    BarePlan(text, work, f, req);
    AdoptionCanCostAnImport(w, text, path, key, tier, now, work, req);
    var acts := LosingRun(text, path, key, tier, now, work, req, 1);
    LosingStarts(progs, text, path, key, tier, now, work, req);
    assert Initial(w.disk, w) && OnlyStarts(acts, progs) && !SafeIn(Run(w, acts), 1, path, key);
  }

  lemma {:induction false} LinesAreDistinct(work: seq<FileWork>, f: nat)
    requires DistinctWork(work) && f < |work|
    ensures DistinctLines(work[f].findings)
  {
  }

  /** In the bare world the adoption changes the text of the file. */
  lemma {:induction false} BarePlan(text: string, work: seq<FileWork>, f: nat, req: Request)
    requires DistinctWork(work) && f < |work| && work[f].findings != []
    ensures var path, n := work[f].path, work[f].findings[0].line - 1;
            var w := BareWorld(text, path, n);
            && w.disk.Sealed? && w.procs == map[] && w.holder == None
            && path in w.sources && TrimmedText(w.sources[path]) != ""
            && var (plan, rewrites) := PlanFor(w, work, req);
               && |rewrites| == 1 && Consistent(plan.stored) && path in Rewritten(w.sources, rewrites)
               && TrimmedText(Rewritten(w.sources, rewrites)[path]) != TrimmedText(w.sources[path])
  {
    hide PlanAdoption, TrimmedText, Rewritten, Pointer, Padded;
    var path, n := work[f].path, work[f].findings[0].line - 1;
    var adopted := req.prefix + work[f].findings[0].suggestedKey;
    var files := map[path := Padded(n, "A=b")];
    PlanOfOneFile(work, f, req);
    OneRewritten(files, Rewrite(path, Padded(n, "A=b"), Padded(n, Pointer("A", adopted))));
    PaddedText(n, "A=b");
    PointerEnds(adopted);
    PaddedText(n, Pointer("A", adopted));
  }

  lemma {:induction false} PointerEnds(key: string)
    ensures var s := Pointer("A", key); s != "" && s[0] == '#' && s[|s| - 1] == ')'
  {
  }

  lemma {:induction false} LosingStarts(progs: set<seq<Instr>>, text: string, path: Path, key: string, tier: nat,
                                        now: int, work: seq<FileWork>, req: Request)
    requires ImportProgram(text, path, key, tier, now) in progs && AdoptProgram(text, work, req) in progs
    ensures OnlyStarts(LosingRun(text, path, key, tier, now, work, req, 1), progs)
  {
    hide ImportProgram, AdoptProgram, OnlyStarts;
    var opening := Opening(text, path, key, tier, now, work, req);
    SoloStarts(2, 14, progs);
    SoloStarts(1, 10, progs);
    OpeningStarts(opening, progs);
    StartsAppend(opening, SoloActs(2, 14), progs);
    StartsAppend(opening + SoloActs(2, 14), SoloActs(1, 10), progs);
  }

  lemma {:induction false} OpeningStarts(opening: seq<Action>, progs: set<seq<Instr>>)
    requires |opening| == 3 && opening[0].Start? && opening[0].prog in progs
    requires opening[1].Step? && opening[2].Start? && opening[2].prog in progs
    ensures OnlyStarts(opening, progs)
  {
  }

  lemma {:induction false} StartsAppend(xs: seq<Action>, ys: seq<Action>, progs: set<seq<Instr>>)
    requires OnlyStarts(xs, progs) && OnlyStarts(ys, progs)
    ensures OnlyStarts(xs + ys, progs)
  {
    forall prog | Started(xs + ys, prog) ensures prog in progs {
      var i :| 0 <= i < |xs + ys| && (xs + ys)[i].Start? && (xs + ys)[i].prog == prog;
      if i < |xs| {
        assert xs[i].Start? && xs[i].prog == prog;
        assert Started(xs, prog);
      } else {
        assert ys[i - |xs|].Start? && ys[i - |xs|].prog == prog;
        assert Started(ys, prog);
      }
    }
  }

  lemma {:induction false} SoloStarts(p: Pid, n: nat, progs: set<seq<Instr>>)
    ensures OnlyStarts(SoloActs(p, n), progs)
  {
    if n > 0 {
      SoloStarts(p, n - 1, progs);
      assert OnlyStarts([Step(p, Skip)], progs);
      StartsAppend(SoloActs(p, n - 1), [Step(p, Skip)], progs);
    }
  }

  /** Exactly when an import is safe, for any set of commands that may run beside it, whatever the vault and the
      files hold and however the commands interleave and crash: when none of them is an adoption with a finding
      in the imported file. */
  lemma {:induction false} ImportSafeIff(progs: set<seq<Instr>>, text: string, path: Path, key: string, tier: nat,
                                         now: int)
    requires ValidTier(tier) && ImportProgram(text, path, key, tier, now) in progs
    requires forall prog :: prog in progs && Adopts(prog, path) ==> IsAdoptionOf(prog, text, path)
    ensures AlwaysSafe(progs, path, key) <==> forall prog :: prog in progs ==> !Adopts(prog, path)
  {
    hide Adopts, Run, Started;
    if forall prog :: prog in progs ==> !Adopts(prog, path) {
      forall init: Disk, w: World, acts: seq<Action>, p: Pid | Initial(init, w) && OnlyStarts(acts, progs)
        ensures SafeIn(Run(w, acts), p, path, key)
      {
        if AboutTo(Run(w, acts), p, DestroySource(path, key)) && path in Run(w, acts).sources {
          ImportIsSafe(init, w, acts, p, path, key);
        }
      }
    }
    if prog :| prog in progs && Adopts(prog, path) {
      var work, req :| prog == AdoptProgram(text, work, req) && DistinctWork(work) && WorksOn(work, path);
      AdoptionBreaks(progs, text, path, key, tier, now, work, req);
    }
  }
}
