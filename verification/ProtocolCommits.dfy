/** Which processes have their edits in the history, and which never will. */
module ProtocolCommits {
  import opened Common
  import opened VaultFormat
  import opened Protocol
  import opened ProtocolInvariant
  import opened ProtocolSteps
  import opened ProtocolActions
  import opened ProtocolRuns
  import opened ProtocolTheorems
  import opened ProtocolHistory
  import opened ProtocolSources

  // ---- Past its save, a process is in the history ------------------------------------------------

  /** In world `w` action `a` is process `p` writing the file in the save that is its instruction `i`. */
  predicate Commits(w: World, a: Action, p: Pid, i: nat) {
    && a.Step? && a.pid == p && p in w.procs && w.procs[p].pc == i
    && w.procs[p].phase.Checked? && w.procs[p].store.Some?
  }

  lemma {:induction false} SaveAdvances(init: Disk, w: World, a: Action, p: Pid)
    requires Inv(init, w) && p in w.procs && w.procs[p].pc < |w.procs[p].prog|
    requires w.procs[p].prog[w.procs[p].pc].Save? && p in Next(w, a).procs && Next(w, a).procs[p].pc > w.procs[p].pc
    ensures Commits(w, a, p, w.procs[p].pc)
    ensures Next(w, a).log == w.log + [Saved(w.procs[p].store.value.edits, w.counter)]
  {
    hide LocalOk, SharedOk, HoldsLock, Begin, Continue, Next, Inv;
    ActionShape(w, a, p);
    assert LocalOk(w.procs[p]) by { LocalAt(init, w, p); }
    SavingPhase(w.procs[p]);
    assert Next(w, a).procs[p] != w.procs[p];
    if a.Crash? {
      CrashStays(w, p);
    } else if w.procs[p].phase.Stopped? {
      StoppedStays(w, a, p);
    } else {
      StepIs(w, p, a.choice);
      if w.procs[p].phase.Ready? {
        SaveBegins(w, p, a.choice);
      } else if w.procs[p].phase.Saving? {
        SaveCompares(w, p);
      } else {
        SaveWrites(w, p);
      }
    }
  }

  lemma {:induction false} LocalAt(init: Disk, w: World, p: Pid)
    requires Inv(init, w) && p in w.procs
    ensures LocalOk(w.procs[p])
  {
    assert ProcOk(w, w.procs[p]);
  }

  lemma {:induction false} CrashStays(w: World, p: Pid)
    requires p in w.procs
    ensures Next(w, Crash(p)).procs[p].pc == w.procs[p].pc
  {
  }

  lemma {:induction false} SaveCompares(w: World, p: Pid)
    requires p in w.procs && w.procs[p].pc < |w.procs[p].prog| && w.procs[p].phase.Saving?
    ensures p in Continue(w, p).procs && Continue(w, p).procs[p].pc == w.procs[p].pc
  {
    hide MayOverwrite;
  }

  lemma {:induction false} SaveWrites(w: World, p: Pid)
    requires p in w.procs && w.procs[p].pc < |w.procs[p].prog| && w.procs[p].phase.Checked? && w.procs[p].store.Some?
    ensures Continue(w, p).log == w.log + [Saved(w.procs[p].store.value.edits, w.counter)]
  {
    hide SealFile;
  }

  lemma {:induction false} SavingPhase(proc: Proc)
    requires LocalOk(proc) && proc.pc < |proc.prog| && proc.prog[proc.pc].Save?
    ensures var phase := proc.phase;
            phase.Ready? || phase.Stopped? || (phase.Saving? && proc.store.Some?)
            || (phase.Checked? && proc.store.Some?)
  {
    hide DisciplinedFrom;
  }

  lemma {:induction false} SaveBegins(w: World, p: Pid, c: Choice)
    requires AboutTo(w, p, Save)
    ensures p in Begin(w, p, c).procs && Begin(w, p, c).procs[p].pc == w.procs[p].pc
  {
  }

  /** The user's form of "no lost update": a process that has got past a save has its edits in the history, where
      they stay, at the place the file had when it wrote. */
  lemma {:induction false} SavedIsCommitted(init: Disk, w: World, acts: seq<Action>, p: Pid, i: nat) returns (m: nat)
    requires Initial(init, w) && p in Run(w, acts).procs
    requires var proc := Run(w, acts).procs[p]; i < proc.pc <= |proc.prog| && proc.prog[i].Save?
    ensures m < |acts| && Commits(Run(w, acts[..m]), acts[m], p, i)
    ensures var past, now := Run(w, acts[..m]), Run(w, acts);
            && |past.log| < |now.log| && past.log == now.log[..|past.log|]
            && now.log[|past.log|] == Saved(past.procs[p].store.value.edits, past.counter)
    decreases |acts|
  {
    hide Next, Inv, Initial, Commits;
    assert p !in w.procs by { NothingRuns(init, w); }
    var k := |acts| - 1;
    var mid := Run(w, acts[..k]);
    RunInv(init, w, acts[..k]);
    OneStepGrows(init, mid, acts[k]);
    if p !in mid.procs {
      StartShape(mid, acts[k], p);
      assert false;
    } else {
      ActionShape(mid, acts[k], p);
      if i < mid.procs[p].pc {
        m := SavedIsCommitted(init, w, acts[..k], p, i);
        assert acts[..k][..m] == acts[..m];
      } else {
        m := k;
        SaveAdvances(init, mid, acts[k], p);
        assert Commits(mid, acts[k], p, i) by { assert mid.procs[p].pc == i; }
        CommitMeans(mid, acts[k], p, i);
      }
    }
  }

  lemma {:induction false} CommitMeans(w: World, a: Action, p: Pid, i: nat)
    requires Commits(w, a, p, i)
    ensures p in w.procs && w.procs[p].store.Some?
  {
  }

  // ---- A stale process never commits ---------------------------------------------------------------

  /** Process `p` knows only `file`, and its program never re-reads the vault under the lock. */
  predicate Unrefreshed(w: World, p: Pid, file: VaultFile) {
    && p in w.procs
    && (forall i :: w.procs[p].pc <= i < |w.procs[p].prog| ==> !w.procs[p].prog[i].LockAndRefresh?)
    && if w.procs[p].store.Some? then
         w.procs[p].store.value.loaded == file && !w.procs[p].store.value.locked
       else w.procs[p].phase.Stopped?
  }

  lemma {:induction false} StaleIsNotAtWrite(init: Disk, w: World, p: Pid, file: VaultFile)
    requires Inv(init, w) && Unrefreshed(w, p, file) && w.disk != Sealed(file)
    ensures !AtWrite(w, p)
    ensures w.procs[p].phase.Stopped? ==> w.procs[p].store.None?
    ensures w.procs[p].phase.Stopped? || (!ChangesStore(w.procs[p].phase) && w.procs[p].store.Some?)
  {
    hide DisciplinedFrom, FilesOk, LogOk, DiskOk, KeysOk;
    assert ProcOk(w, w.procs[p]);
  }

  lemma {:induction false} StaleDoesNotOpen(init: Disk, w: World, p: Pid, i: Instr)
    requires Inv(init, w) && AboutTo(w, p, i) && w.procs[p].store.Some?
    ensures !i.OpenVault? && !i.OpenRecovery?
  {
    AboutToFacts(init, w, p, i);
  }

  lemma {:induction false} StaleStep(init: Disk, w: World, a: Action, p: Pid, file: VaultFile)
    requires Inv(init, w) && Unrefreshed(w, p, file) && w.disk != Sealed(file)
    ensures Unrefreshed(Next(w, a), p, file)
    ensures a.Step? && a.pid == p ==> Next(w, a).log == w.log && Next(w, a).disk == w.disk
  {
    hide Next, Continue, Inv;
    OnlyWritesChangeFile(w, a);
    StaleIsNotAtWrite(init, w, p, file);
    ActionShape(w, a, p);
    var proc := w.procs[p];
    if proc.phase.Ready? && proc.pc < |proc.prog| {
      StaleDoesNotOpen(init, w, p, proc.prog[proc.pc]);
    }
    if proc.phase.Stopped? {
      StoppedStays(w, a, p);
    }
  }

  lemma {:induction false} StoppedStays(w: World, a: Action, p: Pid)
    requires p in w.procs && w.procs[p].phase.Stopped?
    requires w.procs[p].store.None? || !a.Crash?
    ensures p in Next(w, a).procs && Next(w, a).procs[p] == w.procs[p]
  {
    ActionShape(w, a, p);
    hide Begin, Continue;
  }

  /** A process that works on a stale copy writes nothing, in any continuation and whatever the others do, as long as
      nobody brings back the very file it knows. */
  lemma {:induction false} StaleNeverCommits(init: Disk, w: World, acts: seq<Action>, p: Pid, file: VaultFile, m: nat)
    requires Inv(init, w) && Unrefreshed(w, p, file)
    requires forall k {:trigger Run(w, acts[..k])} | 0 <= k < |acts| :: Run(w, acts[..k]).disk != Sealed(file)
    requires m < |acts|
    ensures Inv(init, Run(w, acts[..m])) && Unrefreshed(Run(w, acts[..m]), p, file)
    ensures acts[m].Step? && acts[m].pid == p ==>
              Run(w, acts[..m + 1]).log == Run(w, acts[..m]).log && Run(w, acts[..m + 1]).disk == Run(w, acts[..m]).disk
    decreases m
  {
    hide Next, Inv, Unrefreshed;
    assert acts[..0] == [];
    if m > 0 {
      StaleNeverCommits(init, w, acts, p, file, m - 1);
      RunStep(w, acts, m - 1);
      StaleStep(init, Run(w, acts[..m - 1]), acts[m - 1], p, file);
      NextInv(init, Run(w, acts[..m - 1]), acts[m - 1]);
    }
    RunStep(w, acts, m);
    StaleStep(init, Run(w, acts[..m]), acts[m], p, file);
  }
}
