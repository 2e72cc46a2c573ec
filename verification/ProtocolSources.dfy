/** Which source files an import can lose text of, and which lines an adoption can touch, in terms
    of the programs that were started. */
module ProtocolSources {
  import opened Common
  import opened VaultFormat
  import opened Adopt
  import opened Protocol
  import opened ProtocolInvariant
  import opened ProtocolActions
  import opened ProtocolRuns
  import opened ProtocolHistory
  import opened ProtocolTheorems

  // ---- What a process has read -----------------------------------------------------------------

  /** In world `w` action `a` is process `p` reading `path`, and what it reads is `text`. */
  predicate Reads(w: World, a: Action, p: Pid, path: Path, text: string) {
    && a.Step? && a.pid == p && AboutTo(w, p, ReadSource(path))
    && path in w.sources && TrimmedText(w.sources[path]) == text
  }

  /** The text a process works with is what the file held when the process read it. */
  lemma {:induction false} ReadIsTraced(w: World, acts: seq<Action>, p: Pid) returns (n: nat)
    requires p !in w.procs && p in Run(w, acts).procs && Run(w, acts).procs[p].source.Some?
    ensures var (path, text) := Run(w, acts).procs[p].source.value;
            n < |acts| && Reads(Run(w, acts[..n]), acts[n], p, path, text)
    decreases |acts|
  {
    hide Next, Reads;
    assert acts != [];
    var k := |acts| - 1;
    var mid := Run(w, acts[..k]);
    if p in mid.procs && mid.procs[p].source == Run(w, acts).procs[p].source {
      n := ReadIsTraced(w, acts[..k], p);
      assert acts[..k][..n] == acts[..n];
    } else {
      n := k;
      if p in mid.procs {
        ReadShape(mid, acts[k], p);
      } else {
        StartShape(mid, acts[k], p);
      }
    }
  }

  lemma {:induction false} ReadShape(w: World, a: Action, p: Pid)
    requires p in w.procs && p in Next(w, a).procs && Next(w, a).procs[p].source != w.procs[p].source
    ensures Next(w, a).procs[p].source.Some?
    ensures Reads(w, a, p, Next(w, a).procs[p].source.value.0, Next(w, a).procs[p].source.value.1)
  {
    hide Next, PlannedRewrites, TrimmedText;
    ActionShape(w, a, p);
  }

  /** A process that was not there begins without plans and without having read anything. */
  lemma {:induction false} StartShape(w: World, a: Action, p: Pid)
    requires p !in w.procs && p in Next(w, a).procs
    ensures a.Start? && a.pid == p && Disciplined(a.prog)
    ensures Next(w, a).procs[p] == Proc(a.prog, 0, Ready, None, [], false, None, {}, [], false)
  {
    hide Begin, Continue, Disciplined;
    if a.Step? && a.pid in w.procs && !w.procs[a.pid].phase.Stopped? && w.procs[a.pid].pc < |w.procs[a.pid].prog| {
      hide BeginShape;
      if w.procs[a.pid].phase.Ready? {
        BeginHasShape(w, a.pid, a.choice, w.procs[a.pid].prog[w.procs[a.pid].pc]);
      } else {
        ContinueHasShape(w, a.pid);
      }
    }
  }

  // ---- Who has written a file ---------------------------------------------------------------------

  /** The process is about to empty `path` for one of its planned rewrites, or to write the emptied file. */
  predicate AtRewrite(proc: Proc, path: Path) {
    && (proc.phase.Ready? || proc.phase.Rewriting?) && proc.pc < |proc.prog|
    && (proc.phase.Ready? ==> proc.prog[proc.pc].RewriteSources?)
    && proc.rewrites != [] && proc.rewrites[0].path == path
  }

  /** In world `w` action `a` is a process overwriting `path`, with other lines than it has. */
  predicate Overwrites(w: World, a: Action, path: Path) {
    && a.Step? && a.pid in w.procs && AtRewrite(w.procs[a.pid], path)
    && path in Next(w, a).sources
    && (path in w.sources ==> w.sources[path] != Next(w, a).sources[path])
  }

  /** A file whose lines are not what they were at moment `n` was overwritten by an adoption since. */
  lemma {:induction false} ChangeIsTraced(w: World, acts: seq<Action>, n: nat, path: Path) returns (m: nat)
    requires n <= |acts| && path in Run(w, acts).sources
    requires path !in Run(w, acts[..n]).sources || Run(w, acts[..n]).sources[path] != Run(w, acts).sources[path]
    ensures n <= m < |acts| && Overwrites(Run(w, acts[..m]), acts[m], path)
    decreases |acts|
  {
    hide Next, Overwrites;
    WholeRun(w, acts);
    var k := |acts| - 1;
    var mid := Run(w, acts[..k]);
    if path in mid.sources && mid.sources[path] == Run(w, acts).sources[path] {
      assert acts[..k][..n] == acts[..n];
      m := ChangeIsTraced(w, acts[..k], n, path);
      assert acts[..k][..m] == acts[..m];
    } else {
      m := k;
      OverwriteShape(mid, acts[k], path);
    }
  }

  lemma {:induction false} OverwriteShape(w: World, a: Action, path: Path)
    requires path in Next(w, a).sources
    requires path !in w.sources || w.sources[path] != Next(w, a).sources[path]
    ensures Overwrites(w, a, path)
  {
    hide Next, PlannedRewrites;
    ActionFiles(w, a);
  }

  // ---- Plans come from programs -------------------------------------------------------------------

  /** An adoption that `prog` may run has a finding in `path`. */
  predicate Adopts(prog: seq<Instr>, path: Path) {
    exists i :: 0 <= i < |prog| && prog[i].AdoptSources? && WorksOn(prog[i].work, path)
  }

  /** The rewrite is one that an adoption of `prog` plans: of a file it works on, in lines with a finding. */
  predicate PlannedBy(prog: seq<Instr>, r: Rewrite) {
    exists i :: 0 <= i < |prog| && prog[i].AdoptSources? && Named(prog[i].work, r)
  }

  /** A program that was started in the run. */
  predicate Started(acts: seq<Action>, prog: seq<Instr>) {
    exists i :: 0 <= i < |acts| && acts[i].Start? && acts[i].prog == prog
  }

  /** Everything a process plans to write comes from an adoption in the program it was started with. */
  lemma {:induction false} PlansAreTraced(init: Disk, w: World, acts: seq<Action>, p: Pid, r: Rewrite)
    requires Initial(init, w) && p in Run(w, acts).procs
    ensures Started(acts, Run(w, acts).procs[p].prog)
    ensures r in Run(w, acts).procs[p].rewrites ==> PlannedBy(Run(w, acts).procs[p].prog, r)
    decreases |acts|
  {
    hide Next, PlannedBy, Initial, Inv;
    assert acts != [] by { EmptyRun(init, w); }
    var k := |acts| - 1;
    var mid := Run(w, acts[..k]);
    if p in mid.procs {
      PlansAreTraced(init, w, acts[..k], p, r);
      RunInv(init, w, acts[..k]);
      ActionShape(mid, acts[k], p);
      var i :| 0 <= i < k && acts[..k][i].Start? && acts[..k][i].prog == mid.procs[p].prog;
      assert acts[i].Start?;
      if r in Run(w, acts).procs[p].rewrites && r !in mid.procs[p].rewrites {
        PlanShape(init, mid, acts[k], p, r);
      }
    } else {
      StartShape(mid, acts[k], p);
      assert acts[k].Start?;
    }
  }

  lemma {:induction false} EmptyRun(init: Disk, w: World)
    requires Initial(init, w)
    ensures Run(w, []).procs == map[]
  {
  }

  lemma {:induction false} PlanShape(init: Disk, w: World, a: Action, p: Pid, r: Rewrite)
    requires Inv(init, w) && p in w.procs && p in Next(w, a).procs && r in Next(w, a).procs[p].rewrites
    requires r !in w.procs[p].rewrites
    ensures Next(w, a).procs[p].prog == w.procs[p].prog && PlannedBy(w.procs[p].prog, r)
  {
    hide Next, Inv, PlannedRewrites, Named, TrimmedText;
    ActionShape(w, a, p);
    var i := w.procs[p].prog[w.procs[p].pc];
    AboutToFacts(init, w, p, i);
    if i.AdoptSources? {
      PlannedIsNamed(i.work, w.sources, i.req, w.procs[p].store.value.vault.entries);
    }
  }

  lemma {:induction false} PlannedIsNamed(work: seq<FileWork>, sources: map<Path, seq<string>>, req: Request,
                                          entries: Entries)
    requires DistinctWork(work)
    ensures forall r :: r in PlannedRewrites(work, sources, req, entries) ==> Named(work, r)
  {
    hide Named, PlanAdoption;
    PlanIsNamed(work, sources, req, Progress(entries, [], [], [], 0, 0));
  }

  // ---- What an import destroys ----------------------------------------------------------------------

  lemma {:induction false} ProcessStays(w: World, acts: seq<Action>, m: nat, p: Pid)
    requires m <= |acts| && p in Run(w, acts[..m]).procs
    ensures p in Run(w, acts).procs && Run(w, acts).procs[p].prog == Run(w, acts[..m]).procs[p].prog
    ensures Run(w, acts[..m]).procs[p].planned ==> Run(w, acts).procs[p].planned
    decreases |acts|
  {
    hide Next;
    WholeRun(w, acts);
    if m < |acts| {
      var k := |acts| - 1;
      assert acts[..k][..m] == acts[..m];
      ProcessStays(w, acts[..k], m, p);
      ActionShape(Run(w, acts[..k]), acts[k], p);
    }
  }

  lemma {:induction false} WriterHasPlanned(init: Disk, w: World, a: Action, path: Path)
    requires Inv(init, w) && Overwrites(w, a, path)
    ensures w.procs[a.pid].planned && w.procs[a.pid].rewrites != [] && w.procs[a.pid].rewrites[0].path == path
    ensures w.procs[a.pid].pc < |w.procs[a.pid].prog| && w.procs[a.pid].prog[w.procs[a.pid].pc].RewriteSources?
  {
    hide Next;
    assert ProcOk(w, w.procs[a.pid]);
  }

  /** When an import is about to destroy its source, the vault on disk maps the key to the trimmed text the
      source held when the import read it. */
  lemma {:induction false} ImportStoresWhatItRead(init: Disk, w: World, acts: seq<Action>, p: Pid, path: Path,
                                                  key: string)
    returns (n: nat)
    requires Initial(init, w) && AboutTo(Run(w, acts), p, DestroySource(path, key))
    ensures n < |acts| && Run(w, acts).disk.Sealed?
    ensures var past := Run(w, acts[..n]);
            && path in past.sources && Reads(past, acts[n], p, path, TrimmedText(past.sources[path]))
            && Holds(Run(w, acts).disk.file.vault.plain, key, TrimmedText(past.sources[path]))
    ensures var past, now := Run(w, acts[..n]), Run(w, acts);
            path in now.sources ==>
              (Holds(now.disk.file.vault.plain, key, TrimmedText(now.sources[path]))
               <==> TrimmedText(now.sources[path]) == TrimmedText(past.sources[path]))
  {
    hide Next, Run, Inv;
    EmptyRun(init, w);
    DestroyOnlyAfterPersist(init, w, acts, p, path, key);
    assert p !in w.procs;
    n := ReadIsTraced(w, acts, p);
  }

  /** The only way an import can destroy text that the vault does not hold: after it read the file, an adoption of
      another process, in a program that was started with a finding in that very file, overwrote it. */
  lemma {:induction false} ImportLosesOnlyToAdoption(init: Disk, w: World, acts: seq<Action>, p: Pid, path: Path,
                                                     key: string)
    returns (n: nat, m: nat, prog: seq<Instr>)
    requires Initial(init, w) && AboutTo(Run(w, acts), p, DestroySource(path, key))
    requires var now := Run(w, acts);
             && path in now.sources && now.disk.Sealed?
             && !Holds(now.disk.file.vault.plain, key, TrimmedText(now.sources[path]))
    ensures Run(w, acts).procs[p].source.Some?
    ensures n <= m < |acts| && Reads(Run(w, acts[..n]), acts[n], p, path, Run(w, acts).procs[p].source.value.1)
    ensures Overwrites(Run(w, acts[..m]), acts[m], path) && acts[m].pid != p
    ensures AtRewrite(Run(w, acts[..m]).procs[acts[m].pid], path)
    ensures prog == Run(w, acts[..m]).procs[acts[m].pid].prog && Started(acts, prog) && Adopts(prog, path)
  {
    hide Next, Run, Inv, Initial, Reads, Overwrites, Adopts, Started;
    var now := Run(w, acts);
    assert p !in w.procs by { NothingRuns(init, w); }
    DestroyOnlyAfterPersist(init, w, acts, p, path, key);
    n := ReadIsTraced(w, acts, p);
    ReadMeans(Run(w, acts[..n]), acts[n], p, path, now.procs[p].source.value.1);
    m := ChangeIsTraced(w, acts, n, path);
    OverwriteMeans(Run(w, acts[..m]), acts[m], path);
    AnOtherAdoption(init, w, acts, m, p, path, key);
    prog := Run(w, acts[..m]).procs[acts[m].pid].prog;
  }

  lemma {:induction false} OverwriteMeans(w: World, a: Action, path: Path)
    requires Overwrites(w, a, path)
    ensures a.Step? && a.pid in w.procs && AtRewrite(w.procs[a.pid], path)
  {
  }

  lemma {:induction false} NothingRuns(init: Disk, w: World)
    requires Initial(init, w)
    ensures w.procs == map[]
  {
  }

  lemma {:induction false} ReadMeans(w: World, a: Action, p: Pid, path: Path, text: string)
    requires Reads(w, a, p, path, text)
    ensures path in w.sources && TrimmedText(w.sources[path]) == text
  {
  }

  lemma {:induction false} AnOtherAdoption(init: Disk, w: World, acts: seq<Action>, m: nat, p: Pid, path: Path,
                                           key: string)
    requires Initial(init, w) && AboutTo(Run(w, acts), p, DestroySource(path, key))
    requires m < |acts| && Overwrites(Run(w, acts[..m]), acts[m], path)
    ensures acts[m].pid != p && Started(acts, Run(w, acts[..m]).procs[acts[m].pid].prog)
    ensures Adopts(Run(w, acts[..m]).procs[acts[m].pid].prog, path)
  {
    hide Next, Run, Inv, Initial, Started, PlannedBy, Adopts;
    var past, q := Run(w, acts[..m]), acts[m].pid;
    RunInv(init, w, acts[..m]);
    RunInv(init, w, acts);
    WriterHasPlanned(init, past, acts[m], path);
    AboutToFacts(init, Run(w, acts), p, DestroySource(path, key));
    ProcessStays(w, acts, m, q);
    var r := past.procs[q].rewrites[0];
    PlansAreTraced(init, w, acts[..m], q, r);
    StartedInMore(acts, m, past.procs[q].prog);
    PlannedAdopts(past.procs[q].prog, r);
  }

  lemma {:induction false} StartedInMore(acts: seq<Action>, m: nat, prog: seq<Instr>)
    requires m <= |acts| && Started(acts[..m], prog)
    ensures Started(acts, prog)
  {
    var i :| 0 <= i < m && acts[..m][i].Start? && acts[..m][i].prog == prog;
    assert acts[i].Start? && acts[i].prog == prog;
  }

  lemma {:induction false} PlannedAdopts(prog: seq<Instr>, r: Rewrite)
    requires PlannedBy(prog, r)
    ensures Adopts(prog, r.path)
  {
    hide Named, WorksOn;
    var i :| 0 <= i < |prog| && prog[i].AdoptSources? && Named(prog[i].work, r);
    NamedWorksOn(prog[i].work, r);
  }

  /** What a user can check before starting anything: as long as no command that is started adopts a line of `path`,
      an import of `path` destroys only text that the vault on disk holds, in every interleaving with any other
      commands and crashes. */
  lemma {:induction false} ImportIsSafe(init: Disk, w: World, acts: seq<Action>, p: Pid, path: Path, key: string)
    requires Initial(init, w) && AboutTo(Run(w, acts), p, DestroySource(path, key))
    requires path in Run(w, acts).sources
    requires forall prog :: Started(acts, prog) ==> !Adopts(prog, path)
    ensures var now := Run(w, acts);
            now.disk.Sealed? && Holds(now.disk.file.vault.plain, key, TrimmedText(now.sources[path]))
  {
    hide Run, Adopts, Started, Overwrites, Reads;
    var now := Run(w, acts);
    DestroyOnlyAfterPersist(init, w, acts, p, path, key);
    if !Holds(now.disk.file.vault.plain, key, TrimmedText(now.sources[path])) {
      var n, m, prog := ImportLosesOnlyToAdoption(init, w, acts, p, path, key);
      assert false;
    }
  }

  // ---- What an adoption touches ------------------------------------------------------------------------

  /** When `adopt` is about to overwrite a file, the file is one its work names, and every line without a finding
      there, and the number of lines, stay as they are. */
  lemma {:induction false} AdoptTouchesOnlyFindings(init: Disk, w: World, acts: seq<Action>, p: Pid, line: nat)
    returns (i: nat, f: nat)
    requires Initial(init, w) && AboutTo(Run(w, acts), p, RewriteSources) && Run(w, acts).procs[p].rewrites != []
    ensures var now, next := Run(w, acts), AfterRewrite(Run(w, acts), p);
            var prog, path := now.procs[p].prog, now.procs[p].rewrites[0].path;
            && i < |prog| && prog[i].AdoptSources? && f < |prog[i].work| && prog[i].work[f].path == path
            && path in now.sources && path in next.sources && |next.sources[path]| == |now.sources[path]|
            && (line < |now.sources[path]| && !FoundAt(prog[i].work[f].findings, line + 1) ==>
                  next.sources[path][line] == now.sources[path][line])
  {
    hide Run, Inv, Named, FoundAt, AfterRewrite;
    var now := Run(w, acts);
    RunInv(init, w, acts);
    RewriteTakesTwo(init, now, p);
    var r := now.procs[p].rewrites[0];
    PlansAreTraced(init, w, acts, p, r);
    i :| 0 <= i < |now.procs[p].prog| && now.procs[p].prog[i].AdoptSources? && Named(now.procs[p].prog[i].work, r);
    f := NamedAt(now.procs[p].prog[i].work, r);
  }

  lemma {:induction false} NamedAt(work: seq<FileWork>, r: Rewrite) returns (f: nat)
    requires Named(work, r)
    ensures f < |work| && work[f].path == r.path && OnlyFound(r.before, r.after, work[f].findings)
  {
    f :| 0 <= f < |work| && NamedBy(work[f], r);
  }
}
