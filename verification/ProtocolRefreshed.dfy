/** The commands that re-read the vault under the lock before they change it: none of their saves finds the file changed
    by someone else. */
module ProtocolRefreshed {
  import opened Common
  import opened VaultFormat
  import opened Adopt
  import opened Protocol
  import opened ProtocolInvariant
  import opened ProtocolSteps
  import opened ProtocolActions
  import opened ProtocolRuns
  import opened ProtocolTheorems
  import opened ProtocolHistory
  import opened ProtocolSources
  import opened ProtocolCommits

  predicate RefreshesBefore(prog: seq<Instr>, i: nat)
    requires i <= |prog|
  {
    exists j :: 0 <= j < i && prog[j].LockAndRefresh?
  }

  /** Every save of the program comes after a re-read under the lock. */
  predicate RefreshesBeforeSaves(prog: seq<Instr>) {
    forall i :: 0 <= i < |prog| && prog[i].Save? ==> RefreshesBefore(prog, i)
  }

  /** The commands that change an existing vault do so. */
  lemma {:induction false} CommandsRefresh(text: string, pairs: seq<(string, string)>, tier: Option<nat>,
                                           days: Option<nat>, due: Option<int>, path: Path, key: string, atTier: nat,
                                           work: seq<FileWork>, req: Request, needs: seq<Need>, backup: bool,
                                           ms: seq<Mutation>, words: Option<nat>, m: Mutation, now: int)
    ensures RefreshesBeforeSaves(SetProgram(text, pairs, tier, days, due, now))
    ensures RefreshesBeforeSaves(ImportProgram(text, path, key, atTier, now))
    ensures RefreshesBeforeSaves(AdoptProgram(text, work, req))
    ensures RefreshesBeforeSaves(MutateProgram(text, needs, backup, ms))
    ensures RefreshesBeforeSaves(RecoverProgram(words, m))
  {
    hide SetInstrs, ChangeInstrs;
    RefreshesThird(SetProgram(text, pairs, tier, days, due, now));
    RefreshesThird(AdoptProgram(text, work, req));
    RefreshesThird(MutateProgram(text, needs, backup, ms));
    var prog := ImportProgram(text, path, key, atTier, now);
    assert prog[3] == LockAndRefresh && forall i :: 0 <= i <= 3 ==> !prog[i].Save?;
    var recover := RecoverProgram(words, m);
    assert recover[1] == LockAndRefresh && !recover[0].Save?;
  }

  lemma {:induction false} RefreshesThird(prog: seq<Instr>)
    requires |prog| > 2 && prog[0].OpenVault? && prog[1].CacheKey? && prog[2] == LockAndRefresh
    ensures RefreshesBeforeSaves(prog)
  {
    forall i | 0 <= i < |prog| && prog[i].Save? ensures RefreshesBefore(prog, i) {
      assert prog[2].LockAndRefresh?;
    }
  }

  /** A process that has got past its re-read holds the lock until it stops. */
  predicate HoldsOn(proc: Proc) {
    proc.pc <= |proc.prog| && RefreshesBefore(proc.prog, proc.pc) ==>
      proc.phase.Stopped? || (proc.store.Some? && proc.store.value.locked)
  }

  lemma {:induction false} RefreshAdvances(init: Disk, w: World, a: Action, p: Pid)
    requires Inv(init, w) && p in w.procs && w.procs[p].pc < |w.procs[p].prog| && a.Step? && a.pid == p
    requires w.procs[p].prog[w.procs[p].pc].LockAndRefresh? && !w.procs[p].phase.Stopped?
    ensures p in Next(w, a).procs
    ensures var proc := Next(w, a).procs[p];
            proc.pc == w.procs[p].pc || proc.phase.Stopped? || (proc.store.Some? && proc.store.value.locked)
  {
    hide LocalOk, SharedOk, HoldsLock, Begin, Continue, Next, Inv;
    assert LocalOk(w.procs[p]) by { LocalAt(init, w, p); }
    StepIs(w, p, a.choice);
    RefreshPhase(w.procs[p]);
    if w.procs[p].phase.Ready? {
      RefreshBegins(w, p, a.choice);
    } else {
      RefreshEnds(w, p);
    }
  }

  lemma {:induction false} RefreshPhase(proc: Proc)
    requires LocalOk(proc) && proc.pc < |proc.prog| && proc.prog[proc.pc].LockAndRefresh? && !proc.phase.Stopped?
    ensures proc.phase.Ready? || (proc.phase.Refreshing? && proc.store.Some?)
  {
    hide DisciplinedFrom;
  }

  lemma {:induction false} RefreshBegins(w: World, p: Pid, c: Choice)
    requires AboutTo(w, p, LockAndRefresh)
    ensures p in Begin(w, p, c).procs
    ensures Begin(w, p, c).procs[p].pc == w.procs[p].pc
  {
  }

  lemma {:induction false} RefreshEnds(w: World, p: Pid)
    requires p in w.procs && w.procs[p].pc < |w.procs[p].prog| && w.procs[p].phase.Refreshing? && w.procs[p].store.Some?
    ensures p in Continue(w, p).procs
    ensures var proc := Continue(w, p).procs[p];
            proc.phase.Stopped? || (proc.store.Some? && proc.store.value.locked)
  {
    hide Refresh;
  }

  /** The phases that change a store, in a process that has one and holds the lock. */
  lemma {:induction false} LockStays(init: Disk, w: World, a: Action, p: Pid)
    requires Inv(init, w) && p in w.procs && w.procs[p].store.Some? && w.procs[p].store.value.locked
    ensures p in Next(w, a).procs
    ensures var proc := Next(w, a).procs[p];
            proc.phase.Stopped? || (proc.store.Some? && proc.store.value.locked)
  {
    hide LocalOk, SharedOk, HoldsLock, Begin, Continue, Next, Inv;
    ActionShape(w, a, p);
    var proc := w.procs[p];
    if !KeepsStore(proc, Next(w, a).procs[p]) {
      assert LocalOk(proc) by { LocalAt(init, w, p); }
      StorePhase(proc);
      StepIs(w, p, a.choice);
      if proc.phase.Ready? {
        StaleDoesNotOpen(init, w, p, proc.prog[proc.pc]);
      } else if proc.phase.Refreshing? {
        RefreshEnds(w, p);
      } else {
        SaveKeepsLock(w, p);
      }
    }
  }

  lemma {:induction false} StorePhase(proc: Proc)
    requires LocalOk(proc) && proc.store.Some?
    ensures !proc.phase.Loading? && !proc.phase.Minting? && !proc.phase.Stopped?
  {
    hide DisciplinedFrom;
  }

  lemma {:induction false} SaveKeepsLock(w: World, p: Pid)
    requires p in w.procs && w.procs[p].pc < |w.procs[p].prog| && w.procs[p].phase.Checked?
    requires w.procs[p].store.Some? && w.procs[p].store.value.locked
    ensures p in Continue(w, p).procs
    ensures var proc := Continue(w, p).procs[p]; proc.store.Some? && proc.store.value.locked
  {
    hide SealFile;
  }

  lemma {:induction false} HoldsOnStep(init: Disk, w: World, a: Action, p: Pid)
    requires Inv(init, w) && p in w.procs && HoldsOn(w.procs[p])
    ensures p in Next(w, a).procs && HoldsOn(Next(w, a).procs[p])
  {
    hide Next, Inv;
    ActionShape(w, a, p);
    var proc, proc' := w.procs[p], Next(w, a).procs[p];
    LocalAt(init, w, p);
    assert proc.pc <= |proc.prog| && (proc.phase.Stopped? ==> proc.store.None?);
    if proc.phase.Stopped? {
      StoppedStays(w, a, p);
    } else if RefreshesBefore(proc.prog, proc.pc) {
      LockStays(init, w, a, p);
    } else if proc'.pc == proc.pc + 1 && proc'.pc <= |proc.prog| && RefreshesBefore(proc.prog, proc'.pc) {
      assert proc.prog[proc.pc].LockAndRefresh?;
      if a.Crash? {
        CrashStays(w, p);
      } else {
        RefreshAdvances(init, w, a, p);
      }
    }
  }

  lemma {:induction false} StartsHolding(prog: seq<Instr>)
    ensures HoldsOn(Proc(prog, 0, Ready, None, [], false, None, {}, [], false))
  {
  }

  lemma {:induction false} HoldsOnInRuns(init: Disk, w: World, acts: seq<Action>, p: Pid)
    requires Initial(init, w) && p in Run(w, acts).procs
    ensures HoldsOn(Run(w, acts).procs[p])
    decreases |acts|
  {
    hide Next, Inv, Initial, HoldsOn;
    assert p !in w.procs by { NothingRuns(init, w); }
    var k := |acts| - 1;
    var mid := Run(w, acts[..k]);
    RunInv(init, w, acts[..k]);
    if p in mid.procs {
      HoldsOnInRuns(init, w, acts[..k], p);
      HoldsOnStep(init, mid, acts[k], p);
    } else {
      StartShape(mid, acts[k], p);
      StartsHolding(acts[k].prog);
    }
  }

  /** Whatever the others do, a command that re-reads before it saves is never told that the file has changed: whenever
      it compares, it goes on to write, and its write is recorded. */
  lemma {:induction false} CommandsAreNeverStale(init: Disk, w: World, acts: seq<Action>, p: Pid, c: Choice)
    requires Initial(init, w) && p in Run(w, acts).procs && RefreshesBeforeSaves(Run(w, acts).procs[p].prog)
    ensures var now, next := Run(w, acts), Next(Run(w, acts), Step(p, c));
            && (now.procs[p].phase.Saving? ==>
                  p in next.procs && next.procs[p].phase == Checked(false))
            && (now.procs[p].phase.Checked? ==>
                  now.procs[p].store.Some?
                  && next.log == now.log + [Saved(now.procs[p].store.value.edits, now.counter)])
  {
    hide Next, Inv, Initial;
    var now := Run(w, acts);
    RunInv(init, w, acts);
    HoldsOnInRuns(init, w, acts, p);
    LocalAt(init, now, p);
    if now.procs[p].phase.Saving? || now.procs[p].phase.Checked? {
      ActionShape(now, Step(p, c), p);
      RefreshedSaveSucceeds(init, w, acts, p, c);
    }
  }
}
