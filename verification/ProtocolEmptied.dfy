/** What a crash can do to a source file that `adopt` rewrites: overwriting empties the file first. Which lines
    are lost then, exactly when it can happen, and that nothing brings them back. */
module ProtocolEmptied {
  import opened Common
  import opened VaultFormat
  import opened Adopt
  import opened Protocol
  import opened ProtocolInvariant
  import opened ProtocolActions
  import opened ProtocolRuns
  import opened ProtocolTheorems
  import opened ProtocolHistory
  import opened ProtocolProgress
  import opened ProtocolSources
  import opened ProtocolLoss

  // ---- Who has emptied a file ------------------------------------------------------------------

  /** In world `w` action `a` is a process emptying `path`, which has lines, for one of its planned rewrites. */
  predicate Empties(w: World, a: Action, path: Path) {
    && a.Step? && AboutTo(w, a.pid, RewriteSources)
    && w.procs[a.pid].rewrites != [] && w.procs[a.pid].rewrites[0].path == path
    && path in w.sources && w.sources[path] != []
  }

  /** The rewrite leaves line `l` as it is, so emptying the file loses it, or its value is stored under the key that
      its pointer names. */
  ghost predicate LostOrStored(entries: Entries, r: Rewrite, l: nat)
    requires l < |r.before| == |r.after|
  {
    var parsed := ParseDotenvLine(r.before[l]);
    r.before[l] == r.after[l]
    || (parsed.Some?
        && exists key :: Holds(entries, key, parsed.value.1) && r.after[l] == Pointer(parsed.value.0, key))
  }

  /** A file with lines that is empty later was emptied by an adoption with a finding in it. At that moment the vault
      on disk held the value of every line that the adoption meant to replace; the other lines are the lost ones. */
  lemma {:induction false} EmptiedIsTraced(init: Disk, w: World, acts: seq<Action>, path: Path) returns (m: nat)
    requires Initial(init, w) && path in w.sources && w.sources[path] != []
    requires path in Run(w, acts).sources && Run(w, acts).sources[path] == []
    ensures m < |acts| && Empties(Run(w, acts[..m]), acts[m], path)
    ensures var past := Run(w, acts[..m]);
            var proc, lines := past.procs[acts[m].pid], past.sources[path];
            && Started(acts, proc.prog) && Adopts(proc.prog, path) && past.disk.Sealed?
            && proc.rewrites[0].before == lines && |proc.rewrites[0].after| == |lines|
            && forall l :: 0 <= l < |lines| ==> LostOrStored(past.disk.file.vault.plain, proc.rewrites[0], l)
    decreases |acts|
  {
    hide Next, Inv, Initial, Overwrites, Adopts, Started, LostOrStored;
    var k := |acts| - 1;
    assert acts != [];
    var mid := Run(w, acts[..k]);
    RunInv(init, w, acts[..k]);
    if path in mid.sources && mid.sources[path] == [] {
      m := EmptiedIsTraced(init, w, acts[..k], path);
      assert acts[..k][..m] == acts[..m];
      StartedInMore(acts, k, Run(w, acts[..m]).procs[acts[m].pid].prog);
    } else {
      m := k;
      OverwriteShape(mid, acts[k], path);
      OnlyEmptying(init, mid, acts[k], path);
      EmptyingFacts(init, mid, acts[k], path);
      var r := mid.procs[acts[k].pid].rewrites[0];
      PlansAreTraced(init, w, acts[..k], acts[k].pid, r);
      StartedInMore(acts, k, mid.procs[acts[k].pid].prog);
      PlannedAdopts(mid.procs[acts[k].pid].prog, r);
    }
  }

  lemma {:induction false} OnlyEmptying(init: Disk, w: World, a: Action, path: Path)
    requires Inv(init, w) && Overwrites(w, a, path)
    requires path !in w.sources || w.sources[path] != []
    ensures Empties(w, a, path)
  {
    hide Next, OpenOk, DisciplinedFrom, Justified, AllHeld, FilesOk, KeysOk, DiskOk, LogOk;
    WriterHasPlanned(init, w, a, path);
    var proc := w.procs[a.pid];
    assert ProcOk(w, proc);
    assert SharedOk(w, proc);
    assert proc.rewrites[0].path in w.sources;
  }

  lemma {:induction false} EmptyingFacts(init: Disk, w: World, a: Action, path: Path)
    requires Inv(init, w) && Empties(w, a, path)
    ensures var r := w.procs[a.pid].rewrites[0];
            && w.disk.Sealed? && r.before == w.sources[path] && |r.after| == |r.before|
            && forall l :: 0 <= l < |r.before| ==> LostOrStored(w.disk.file.vault.plain, r, l)
  {
    hide Next, DiskOk, LogOk, KeysOk, FilesOk, DisciplinedFrom, OpenOk, ParseDotenvLine, Pointer;
    AboutToFacts(init, w, a.pid, RewriteSources);
    var proc := w.procs[a.pid];
    var r := proc.rewrites[0];
    forall l | 0 <= l < |r.before| ensures LostOrStored(w.disk.file.vault.plain, r, l) {
      assert LineJustified(r.before[l], r.after[l], proc.expected);
      JustifiedIsStored(w.disk.file.vault.plain, r, l, proc.expected);
    }
  }

  lemma {:induction false} JustifiedIsStored(entries: Entries, r: Rewrite, l: nat, stored: seq<(string, string)>)
    requires l < |r.before| == |r.after| && LineJustified(r.before[l], r.after[l], stored)
    requires AllHeld(entries, stored)
    ensures LostOrStored(entries, r, l)
  {
    hide ParseDotenvLine, Pointer;
    if r.before[l] != r.after[l] {
      var parsed := ParseDotenvLine(r.before[l]);
      var n :| 0 <= n < |stored| && parsed.Some? && parsed.value.1 == stored[n].1
               && r.after[l] == Pointer(parsed.value.0, stored[n].0);
      assert Holds(entries, stored[n].0, parsed.value.1);
    }
  }

  // ---- It stays empty ----------------------------------------------------------------------------

  /** The file is gone or empty, and nobody is about to write it. */
  predicate Lost(w: World, path: Path) {
    && (path in w.sources ==> w.sources[path] == [])
    && forall p :: p in w.procs && w.procs[p].phase.Rewriting? && w.procs[p].rewrites != [] ==>
         w.procs[p].rewrites[0].path != path
  }

  /** Nothing writes a lost file again, whatever is started. */
  lemma {:induction false} LostForGood(init: Disk, w: World, acts: seq<Action>, n: nat, path: Path)
    requires Initial(init, w) && n <= |acts| && Lost(Run(w, acts[..n]), path)
    ensures Lost(Run(w, acts), path)
    decreases |acts|
  {
    hide Next, Inv, Initial, Lost;
    WholeRun(w, acts);
    if n < |acts| {
      var k := |acts| - 1;
      assert acts[..k][..n] == acts[..n];
      LostForGood(init, w, acts[..k], n, path);
      var mid := Run(w, acts[..k]);
      RunInv(init, w, acts[..k]);
      forall p | p in mid.procs && mid.procs[p].rewrites != []
        ensures mid.procs[p].rewrites[0].before != []
      {
        PlansAreTraced(init, w, acts[..k], p, mid.procs[p].rewrites[0]);
        PlannedHasLines(mid.procs[p].prog, mid.procs[p].rewrites[0]);
      }
      LostStep(init, mid, acts[k], path);
    }
  }

  lemma {:induction false} PlannedHasLines(prog: seq<Instr>, r: Rewrite)
    requires PlannedBy(prog, r)
    ensures r.before != []
  {
    hide Named, WorksOn;
    var i :| 0 <= i < |prog| && prog[i].AdoptSources? && Named(prog[i].work, r);
    NamedWorksOn(prog[i].work, r);
  }

  lemma {:induction false} LostStep(init: Disk, w: World, a: Action, path: Path)
    requires Inv(init, w) && Lost(w, path)
    requires forall p :: p in w.procs && w.procs[p].rewrites != [] ==> w.procs[p].rewrites[0].before != []
    ensures Lost(Next(w, a), path)
  {
    hide Next, Inv;
    var w' := Next(w, a);
    if path in w'.sources && w'.sources[path] != [] {
      OverwriteShape(w, a, path);
      NobodyAt(init, w, a.pid, path);
      assert false;
    }
    forall p | p in w'.procs && w'.procs[p].phase.Rewriting? && w'.procs[p].rewrites != []
      ensures w'.procs[p].rewrites[0].path != path
    {
      if p !in w.procs {
        StartShape(w, a, p);
      } else if w'.procs[p] != w.procs[p] {
        RewritingBegins(w, a, p);
        NobodyAt(init, w, p, path);
      }
    }
  }

  lemma {:induction false} RewritingBegins(w: World, a: Action, p: Pid)
    requires p in w.procs && p in Next(w, a).procs && Next(w, a).procs[p].phase.Rewriting?
    requires Next(w, a).procs[p] != w.procs[p]
    ensures AboutTo(w, p, RewriteSources) && Next(w, a).procs[p].rewrites == w.procs[p].rewrites
    ensures w.procs[p].rewrites != []
  {
    hide Next;
    ActionShape(w, a, p);
  }

  lemma {:induction false} NobodyAt(init: Disk, w: World, p: Pid, path: Path)
    requires Inv(init, w) && Lost(w, path) && p in w.procs && w.procs[p].rewrites != []
    requires w.procs[p].rewrites[0].before != [] && !w.procs[p].phase.Stopped?
    ensures w.procs[p].rewrites[0].path != path
  {
    hide OpenOk, DisciplinedFrom, Justified, AllHeld, FilesOk, KeysOk, DiskOk, LogOk;
    assert ProcOk(w, w.procs[p]);
    assert SharedOk(w, w.procs[p]);
  }

  // ---- Exactly when it can happen --------------------------------------------------------------------

  /** Process 1 adopts alone, has rewritten `i` files, empties the next one and crashes. */
  function EmptyingRun(text: string, work: seq<FileWork>, req: Request, i: nat): seq<Action> {
    [Start(1, AdoptProgram(text, work, req))] + SoloActs(1, 11 + 2 * i) + [Crash(1)]
  }

  /** For every vault that nobody uses and every file that an adoption would rewrite: a crash leaves this file empty,
      the files before it rewritten, the files after it untouched, and every value of the plan stored. */
  lemma {:induction false} AdoptionCanEmpty(w: World, text: string, work: seq<FileWork>, req: Request, i: nat)
    requires w.procs == map[] && w.holder == None && w.disk.Sealed? && WellKeyedFile(w.disk.file)
    requires PassphraseOf(Contents(w.disk.file)) == Passphrase(text) && DistinctWork(work)
    requires var (plan, rewrites) := PlanFor(w, work, req); Consistent(plan.stored) && i < |rewrites|
    ensures var (plan, rewrites) := PlanFor(w, work, req);
            var last := Run(w, EmptyingRun(text, work, req, i));
            && last.holder == None && last.disk.Sealed?
            && Contents(last.disk.file) == Contents(w.disk.file).(entries := plan.entries)
            && last.sources == Rewritten(w.sources, rewrites[..i])[rewrites[i].path := []]
  {
    hide Run, Next, PlanAdoption, Rewritten, Solo, SoloActs, Consistent, DistinctWork, WellKeyedFile, Disciplined;
    var (plan, rewrites) := PlanFor(w, work, req);
    var prog := AdoptProgram(text, work, req);
    var w1 := Put(w, 1, Proc(prog, 0, Ready, None, [], false, None, {}, [], false));
    AdoptIsDisciplined(text, work, req);
    assert Run(w, [Start(1, prog)]) == w1 by { FirstStart(w, prog); }
    AdoptReachesRewrites(w1, 1, text, work, req);
    var w2 := Solo(w1, 1, 10);
    SoloRewrites(w2, 1, i);
    var w3 := RewritesDone(w2, 1, i);
    OneRewrite(w3, 1);
    SoloUnrolled(w3, 1);
    SoloAdd(w1, 1, 10, 2 * i);
    SoloAdd(w1, 1, 10 + 2 * i, 1);
    var w4 := Once(w3, 1);
    assert w4 == Solo(w1, 1, 11 + 2 * i);
    SoloIsRun(w1, 1, 11 + 2 * i);
    RunAppend(w, [Start(1, prog)], SoloActs(1, 11 + 2 * i));
    LastCrash(w, [Start(1, prog)] + SoloActs(1, 11 + 2 * i), w4);
  }

  lemma {:induction false} FirstStart(w: World, prog: seq<Instr>)
    requires w.procs == map[] && Disciplined(prog)
    ensures Run(w, [Start(1, prog)]) == Put(w, 1, Proc(prog, 0, Ready, None, [], false, None, {}, [], false))
  {
    hide Begin, Continue, Disciplined;
    var acts := [Start(1, prog)];
    assert acts[..0] == [];
    assert Run(w, acts[..0]) == w;
  }

  lemma {:induction false} LastCrash(w: World, acts: seq<Action>, w': World)
    requires Run(w, acts) == w' && 1 in w'.procs
    ensures Run(w, acts + [Crash(1)]) == Stop(w', 1)
  {
    hide Begin, Continue;
    assert (acts + [Crash(1)])[..|acts|] == acts;
  }

  /** In some world and some run in which only these programs are started, a file with lines ends up empty while
      nobody holds the lock. */
  ghost predicate CanBeEmptied(progs: set<seq<Instr>>, path: Path) {
    exists init: Disk, w: World, acts: seq<Action> ::
      Initial(init, w) && OnlyStarts(acts, progs) && LeavesEmpty(w, Run(w, acts), path)
  }

  predicate LeavesEmpty(w: World, w': World, path: Path) {
    && path in w.sources && w.sources[path] != []
    && path in w'.sources && w'.sources[path] == [] && w'.holder == None
  }

  lemma {:induction false} AdoptionEmpties(progs: set<seq<Instr>>, text: string, path: Path, work: seq<FileWork>,
                                           req: Request)
    requires DistinctWork(work) && WorksOn(work, path) && AdoptProgram(text, work, req) in progs
    ensures CanBeEmptied(progs, path)
  {
    hide Run, PlanAdoption, TrimmedText, Rewritten, Pointer, Padded, Initial, WellKeyedFile, OnlyStarts, EmptyingRun,
         BareWorld, DistinctWork, Consistent;
    var f :| 0 <= f < |work| && work[f].path == path && work[f].findings != [];
    assert DistinctLines(work[f].findings) by { LinesAreDistinct(work, f); }
    var n := work[f].findings[0].line - 1;
    var w := BareWorld(text, path, n);
    BareWorldFacts(text, path, n);
    BarePlan(text, work, f, req);
    AdoptionCanEmpty(w, text, work, req, 0);
    BareRewrite(text, work, f, req);
    EmptyingStarts(progs, text, work, req);
    var acts := EmptyingRun(text, work, req, 0);
    assert Initial(w.disk, w) && OnlyStarts(acts, progs) && LeavesEmpty(w, Run(w, acts), path);
  }

  lemma {:induction false} BareRewrite(text: string, work: seq<FileWork>, f: nat, req: Request)
    requires DistinctWork(work) && f < |work| && work[f].findings != []
    ensures var path, n := work[f].path, work[f].findings[0].line - 1;
            var w := BareWorld(text, path, n);
            && path in w.sources && w.sources[path] != [] && w.disk.Sealed?
            && PlanFor(w, work, req).1 != [] && PlanFor(w, work, req).1[0].path == path
  {
    hide PlanAdoption, Pointer;
    PlanOfOneFile(work, f, req);
  }

  lemma {:induction false} EmptyingStarts(progs: set<seq<Instr>>, text: string, work: seq<FileWork>, req: Request)
    requires AdoptProgram(text, work, req) in progs
    ensures OnlyStarts(EmptyingRun(text, work, req, 0), progs)
  {
    hide AdoptProgram, OnlyStarts;
    var first := [Start(1, AdoptProgram(text, work, req))];
    SoloStarts(1, 11, progs);
    assert OnlyStarts(first, progs) && OnlyStarts([Crash(1)], progs) by { OneStart(first[0].prog, progs); }
    StartsAppend(first, SoloActs(1, 11), progs);
    StartsAppend(first + SoloActs(1, 11), [Crash(1)], progs);
  }

  lemma {:induction false} OneStart(prog: seq<Instr>, progs: set<seq<Instr>>)
    requires prog in progs
    ensures OnlyStarts([Start(1, prog)], progs) && OnlyStarts([Crash(1)], progs)
  {
  }

  /** Exactly when a source can be left empty, for any set of commands: when one of them is an adoption with a finding
      in it. */
  lemma {:induction false} EmptiedIff(progs: set<seq<Instr>>, text: string, path: Path)
    requires forall prog :: prog in progs && Adopts(prog, path) ==> IsAdoptionOf(prog, text, path)
    ensures CanBeEmptied(progs, path) <==> exists prog :: prog in progs && Adopts(prog, path)
  {
    hide Adopts, Run, Started, Initial;
    if CanBeEmptied(progs, path) {
      var init: Disk, w: World, acts: seq<Action> :|
        Initial(init, w) && OnlyStarts(acts, progs) && LeavesEmpty(w, Run(w, acts), path);
      var m := EmptiedIsTraced(init, w, acts, path);
      assert Run(w, acts[..m]).procs[acts[m].pid].prog in progs;
    }
    if prog :| prog in progs && Adopts(prog, path) {
      var work, req :| prog == AdoptProgram(text, work, req) && DistinctWork(work) && WorksOn(work, path);
      AdoptionEmpties(progs, text, path, work, req);
    }
  }
}
