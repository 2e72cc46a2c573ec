/** The steps that open, refresh, adopt and write, and the invariant over whole runs. */
module ProtocolRuns {
  import opened Common
  import opened VaultFormat
  import opened Adopt
  import opened Protocol
  import opened ProtocolInvariant
  import opened ProtocolSteps
  import opened ProtocolActions

  // ---- Adopting ----------------------------------------------------------------------------

  lemma {:induction false} SetsOnlyChangeEntries(edits: seq<Edit>, v: Vault)
    requires AllSets(edits)
    ensures ApplyEdits(edits, v) == v.(entries := ApplyEdits(edits, v).entries)
    ensures !HasRewrap(edits)
  {
    if edits != [] {
      SetsOnlyChangeEntries(edits[..|edits| - 1], v);
    }
  }

  function AdoptedProc(proc: Proc, plan: Progress, rewrites: seq<Rewrite>): Proc
    requires proc.store.Some?
  {
    var o := proc.store.value;
    Done(proc.(
      store := Some(o.(vault := o.vault.(entries := plan.entries), edits := o.edits + plan.edits)),
      expected := proc.expected + plan.stored, verified := false,
      rewrites := rewrites, planned := true))
  }

  lemma {:induction false} AdoptedOk(w: World, w': World, proc: Proc, plan: Progress, rewrites: seq<Rewrite>)
    requires ProcOk(w, proc) && proc.phase.Ready? && proc.pc < |proc.prog|
    requires proc.prog[proc.pc].AdoptSources? && HoldsLock(proc) && SharedOk(w, proc)
    requires proc.store.Some? && proc.store.value.locked
    requires AllSets(plan.edits)
    requires plan.entries == ApplyEdits(plan.edits, proc.store.value.vault).entries
    requires PlanJustified(rewrites, plan.stored, w.sources)
    requires w'.disk == w.disk && w'.sources == w.sources
    ensures LocalOk(AdoptedProc(proc, plan, rewrites))
    ensures SharedOk(w', AdoptedProc(proc, plan, rewrites))
    ensures Pending(AdoptedProc(proc, plan, rewrites)) <= Pending(proc)
  {
    var proc', o := AdoptedProc(proc, plan, rewrites), proc.store.value;
    SetsOnlyChangeEntries(plan.edits, o.vault);
    ApplyAppend(o.edits, plan.edits, Contents(o.loaded));
    HasRewrapAppend(o.edits, plan.edits);
    Advance(proc, proc');
    ExpectedGrows(rewrites, plan.stored, proc'.expected);
  }

  lemma {:induction false} AdoptInv(init: Disk, w: World, p: Pid, work: seq<FileWork>, req: Request)
    requires Inv(init, w) && AboutTo(w, p, AdoptSources(work, req)) && w.procs[p].store.Some?
    ensures Inv(init, Begin(w, p, Plain))
  {
    hide LocalOk, SharedOk, HoldsLock, DiskOk, LogOk, KeysOk, FilesOk, PlanAdoption, ApplyEdits;
    AboutToFacts(init, w, p, AdoptSources(work, req));
    var proc := w.procs[p];
    var start := Progress(proc.store.value.vault.entries, [], [], [], 0, 0);
    var (plan, rewrites) := PlanAdoption(work, w.sources, req, start);
    AdoptPlanFacts(work, w.sources, req, proc.store.value.vault);
    var w' := Put(w, p, AdoptedProc(proc, plan, rewrites));
    AdoptedOk(w, w', proc, plan, rewrites);
    FilesAt(w, w');
    LockedHolds(proc);
    LockedHolds(w'.procs[p]);
    AdvanceInv(init, w, w', p);
  }

  lemma {:induction false} LockedHolds(proc: Proc)
    ensures proc.store.Some? && proc.store.value.locked ==> HoldsLock(proc)
  {
  }

  lemma {:induction false} AdoptPlanFacts(work: seq<FileWork>, sources: map<Path, seq<string>>, req: Request,
                                          v: Vault)
    requires DistinctWork(work)
    ensures var (plan, rewrites) := PlanAdoption(work, sources, req,
                                                 Progress(v.entries, [], [], [], 0, 0));
            && AllSets(plan.edits) && plan.entries == ApplyEdits(plan.edits, v).entries
            && PlanJustified(rewrites, plan.stored, sources)
  {
    PlanEdits(work, sources, req, Progress(v.entries, [], [], [], 0, 0), v);
    PlanIsJustified(work, sources, req, Progress(v.entries, [], [], [], 0, 0));
  }

  lemma {:induction false} RewriteInv(init: Disk, w: World, p: Pid)
    requires Inv(init, w) && AboutTo(w, p, RewriteSources)
    ensures Inv(init, Begin(w, p, Plain))
  {
    hide DiskOk, LogOk, KeysOk;
    AboutToFacts(init, w, p, RewriteSources);
    var proc := w.procs[p];
    if proc.rewrites == [] {
      LocalInv(init, w, p, Done(proc));
    } else {
      var w' := Begin(w, p, Plain);
      EmptiedOk(w, w', proc);
      FilesAt(w, w');
      QuietInv(init, w, w', p);
    }
  }

  lemma {:induction false} EmptiedOk(w: World, w': World, proc: Proc)
    requires ProcOk(w, proc) && HoldsLock(proc) && proc.rewrites != []
    requires proc.phase.Ready? && proc.pc < |proc.prog| && proc.prog[proc.pc].RewriteSources?
    requires proc.store.Some? && proc.store.value.locked
    requires w'.disk == w.disk && w'.published == w.published && w'.counter == w.counter
    requires w'.sources == w.sources[proc.rewrites[0].path := []]
    ensures ProcOk(w', proc.(phase := Rewriting)) && HoldsLock(proc.(phase := Rewriting))
    ensures Pending(proc.(phase := Rewriting)) == Pending(proc)
  {
    hide SharedOk, DisciplinedFrom, OpenOk, Justified, AllHeld;
    assert FlagsOf(proc.(phase := Rewriting)) == FlagsOf(proc);
    assert SharedOk(w, proc);
    EmptiedShared(w, w', proc);
  }

  lemma {:induction false} EmptiedShared(w: World, w': World, proc: Proc)
    requires LocalOk(proc) && SharedOk(w, proc) && proc.rewrites != [] && proc.phase.Ready?
    requires proc.store.Some? && w'.disk == w.disk
    requires w'.sources == w.sources[proc.rewrites[0].path := []]
    ensures SharedOk(w', proc.(phase := Rewriting))
  {
    hide DisciplinedFrom, OpenOk, Justified, AllHeld, FlagsOf;
    forall i | 0 <= i < |proc.rewrites|
      ensures proc.rewrites[i].path in w'.sources
      ensures w'.sources[proc.rewrites[i].path] == if i == 0 then [] else proc.rewrites[i].before
    {
      assert i > 0 ==> proc.rewrites[0].path != proc.rewrites[i].path;
    }
  }

  lemma {:induction false} RewritingInv(init: Disk, w: World, p: Pid)
    requires Inv(init, w) && p in w.procs && w.procs[p].pc < |w.procs[p].prog|
    requires w.procs[p].phase.Rewriting?
    ensures Inv(init, Continue(w, p))
  {
    hide DiskOk, LogOk, KeysOk;
    var proc, w' := w.procs[p], Continue(w, p);
    assert ProcOk(w, proc);
    RewrittenOk(w, w', proc, w'.procs[p]);
    FilesAt(w, w');
    QuietInv(init, w, w', p);
  }

  lemma {:induction false} RewrittenOk(w: World, w': World, proc: Proc, proc': Proc)
    requires ProcOk(w, proc) && HoldsLock(proc) && SharedOk(w, proc) && proc.rewrites != []
    requires proc.phase.Rewriting? && proc.store.Some? && proc.store.value.locked
    requires proc' == proc.(phase := Ready, rewrites := proc.rewrites[1..])
    requires w'.disk == w.disk && w'.published == w.published && w'.counter == w.counter
    requires w'.sources == w.sources[proc.rewrites[0].path := proc.rewrites[0].after]
    ensures ProcOk(w', proc')
  {
    hide DisciplinedFrom, OpenOk, Justified, AllHeld;
    assert FlagsOf(proc') == FlagsOf(proc);
    assert Pending(proc') == Pending(proc);
    assert forall i :: 0 <= i < |proc'.rewrites| ==> proc'.rewrites[i] == proc.rewrites[i + 1];
    assert forall i :: 0 < i < |proc.rewrites| ==> proc.rewrites[0].path != proc.rewrites[i].path;
  }

  // ---- Taking the lock -----------------------------------------------------------------------

  lemma {:induction false} BeginLockedInv(init: Disk, w: World, p: Pid)
    requires Inv(init, w) && (AboutTo(w, p, LockAndRefresh) || AboutTo(w, p, Save))
    requires w.procs[p].store.Some?
    ensures Inv(init, Begin(w, p, Plain))
  {
    hide LocalOk, SharedOk, DiskOk, LogOk, KeysOk, FilesOk, LockOk, DisciplinedFrom;
    var proc := w.procs[p];
    AboutToFacts(init, w, p, proc.prog[proc.pc]);
    var phase := if proc.prog[proc.pc] == Save then Saving(!proc.store.value.locked) else Refreshing;
    SharedInPhase(w, proc, phase);
    SharedUnlocked(w, proc, phase);
    if proc.store.value.locked {
      PhaseInv(init, w, p, phase, w.holder);
    } else {
      LockInv(init, w, p, phase);
    }
  }

  lemma {:induction false} SharedUnlocked(w: World, proc: Proc, phase: Phase)
    requires ProcOk(w, proc)
    requires phase.Creating? || phase.Migrating? || phase.Refreshing? || phase.Saving?
    ensures !proc.phase.Stopped? && !(proc.store.Some? && proc.store.value.locked) ==>
              SharedOk(w, proc.(phase := phase))
  {
  }

  lemma {:induction false} BeginRestoreInv(init: Disk, w: World, p: Pid, file: VaultFile, text: string)
    requires Inv(init, w) && AboutTo(w, p, Restore(file, text))
    ensures Inv(init, Begin(w, p, Plain))
  {
    hide DiskOk, LogOk, KeysOk, FilesOk, LockOk, DisciplinedFrom;
    AboutToFacts(init, w, p, Restore(file, text));
    if file in w.snapshots && LoadV2(Sealed(file), Passphrase(text)).Ok? {
      PhaseInv(init, w, p, BackingUp, w.holder);
    } else {
      StopInv(init, w, p);
    }
  }

  /** The steps of a restore before its write: the snapshot of the current file, and the lock. */
  lemma {:induction false} BeforeRestoreInv(init: Disk, w: World, p: Pid)
    requires Inv(init, w) && p in w.procs && w.procs[p].pc < |w.procs[p].prog|
    requires w.procs[p].phase.BackingUp? || w.procs[p].phase.WaitRestore?
    ensures Inv(init, Continue(w, p))
  {
    hide DiskOk, LogOk, KeysOk, FilesOk, DisciplinedFrom, MigrateV1, Refresh, SealFile, NewVault, Write,
         OpensLegacy, MayOverwrite, LoadV2;
    var proc := w.procs[p];
    assert ProcOk(w, proc);
    if proc.phase.BackingUp? {
      PhaseInv(init, w, p, WaitRestore, w.holder);
      if w.disk.Sealed? {
        SnapshotInv(init, At(w, p, WaitRestore));
      }
    } else if proc.prog[proc.pc].Restore? && proc.prog[proc.pc].file in w.snapshots {
      LockInv(init, w, p, Restoring);
    } else {
      StopInv(init, w, p);
    }
  }

  // ---- Opening -------------------------------------------------------------------------------

  lemma {:induction false} BeginOpenInv(init: Disk, w: World, p: Pid, text: string, c: Choice)
    requires Inv(init, w) && AboutTo(w, p, OpenVault(text))
    ensures Inv(init, Begin(w, p, c))
  {
    hide LocalOk, SharedOk, DiskOk, LogOk, KeysOk, FilesOk, LockOk, DisciplinedFrom, LoadV2, VerifyPersisted, SetPair,
         Edited, PlanAdoption, OpenWithMnemonic, DeriveWrapKey, Inv;
    AboutToFacts(init, w, p, OpenVault(text));
    if c.UseAgent? && c.key in w.agent && OpenWithWrapKey(w.disk, c.key).Ok? {
      OpenInv(init, w, p, OpenWithWrapKey(w.disk, c.key).value);
    } else {
      PhaseInv(init, w, p, Begin(w, p, c).procs[p].phase, w.holder);
      assert Begin(w, p, c) == At(w, p, Begin(w, p, c).procs[p].phase).(holder := w.holder);
    }
  }

  lemma {:induction false} BeginRecoveryInv(init: Disk, w: World, p: Pid, words: Option<nat>)
    requires Inv(init, w) && AboutTo(w, p, OpenRecovery(words))
    ensures Inv(init, Begin(w, p, Plain))
  {
    hide LocalOk, SharedOk, DiskOk, LogOk, KeysOk, FilesOk, LockOk, DisciplinedFrom;
    AboutToFacts(init, w, p, OpenRecovery(words));
    if OpenWithMnemonic(w.disk, words).Err? {
      StopInv(init, w, p);
    } else {
      OpenInv(init, w, p, OpenWithMnemonic(w.disk, words).value);
    }
  }

  /** The steps of opening that do not write. */
  lemma {:induction false} OpeningInv(init: Disk, w: World, p: Pid)
    requires Inv(init, w) && p in w.procs && w.procs[p].pc < |w.procs[p].prog|
    requires var phase := w.procs[p].phase;
             phase.WaitCreate? || phase.Creating? || phase.WaitMigrate? || phase.Loading?
    ensures Inv(init, Continue(w, p))
  {
    hide LocalOk, SharedOk, DiskOk, LogOk, KeysOk, FilesOk, LockOk, DisciplinedFrom, MigrateV1, Refresh, SealFile,
         NewVault, Write, OpensLegacy, MayOverwrite, BackedUp;
    var proc := w.procs[p];
    assert ProcOk(w, proc);
    OpeningFits(w, proc);
    OpeningHolder(init, w, p);
    match proc.phase
    case WaitCreate =>
      SharedUnlocked(w, proc, Creating);
      LockInv(init, w, p, Creating);
    case WaitMigrate =>
      SharedUnlocked(w, proc, Migrating);
      LockInv(init, w, p, Migrating);
    case Creating =>
      if w.disk.Absent? {
        SharedMinting(w, proc);
        PhaseInv(init, w, p, Minting, w.holder);
      } else {
        PhaseInv(init, w, p, Loading, None);
      }
    case Loading =>
      if LoadV2(w.disk, Passphrase(proc.prog[proc.pc].text)).Err? {
        StopInv(init, w, p);
      } else {
        LoadedContents(init, w, Passphrase(proc.prog[proc.pc].text));
        OpenInv(init, w, p, LoadV2(w.disk, Passphrase(proc.prog[proc.pc].text)).value);
      }
  }

  lemma {:induction false} LoadedContents(init: Disk, w: World, secret: Secret)
    requires Inv(init, w) && LoadV2(w.disk, secret).Ok?
    ensures w.disk.Sealed? && LoadV2(w.disk, secret).value == Contents(w.disk.file)
  {
  }

  lemma {:induction false} OpeningFits(w: World, proc: Proc)
    requires ProcOk(w, proc) && IsOpening(proc.phase)
    ensures proc.pc < |proc.prog| && proc.prog[proc.pc].OpenVault? && proc.store.None?
  {
  }

  lemma {:induction false} OpeningHolder(init: Disk, w: World, p: Pid)
    requires Inv(init, w) && p in w.procs
    ensures HoldsLock(w.procs[p]) <==> w.holder == Some(p)
  {
  }

  lemma {:induction false} SharedMinting(w: World, proc: Proc)
    requires proc.store.None? && w.disk.Absent?
    ensures SharedOk(w, proc.(phase := Minting))
  {
  }

  lemma {:induction false} MigratingInv(init: Disk, w: World, p: Pid)
    requires Inv(init, w) && p in w.procs && w.procs[p].pc < |w.procs[p].prog|
    requires w.procs[p].phase.Migrating?
    ensures Inv(init, Continue(w, p))
  {
    hide LocalOk, DiskOk, LogOk, KeysOk, FilesOk, DisciplinedFrom, OpensLegacy;
    var proc := w.procs[p];
    assert ProcOk(w, proc);
    OpeningFits(w, proc);
    match w.disk
    case Sealed(_) => PhaseInv(init, w, p, Loading, None);
    case Legacy(v1) =>
      if OpensLegacy(v1, Passphrase(proc.prog[proc.pc].text)) {
        var w1 := w.(v1bak := Some(v1));
        BackedUpInv(init, w, p, v1);
        PhaseInv(init, w1, p, Truncating(v1), w.holder);
      } else {
        StopInv(init, w, p);
      }
    case _ => StopInv(init, w, p);
  }

  lemma {:induction false} BackedUpInv(init: Disk, w: World, p: Pid, v1: LegacyFile)
    requires Inv(init, w) && p in w.procs && w.procs[p].phase.Migrating? && w.disk == Legacy(v1)
    ensures Inv(init, w.(v1bak := Some(v1)))
  {
    hide LocalOk, DisciplinedFrom, LogOk;
    var w' := w.(v1bak := Some(v1));
    assert ProcOk(w, w.procs[p]);
    MigratingStays(w, w', w.procs[p]);
    assert w'.procs == w.procs[p := w.procs[p]];
    QuietInv(init, w, w', p);
  }

  lemma {:induction false} MigratingStays(w: World, w': World, proc: Proc)
    requires ProcOk(w, proc) && proc.phase.Migrating? && w' == w.(v1bak := w'.v1bak)
    ensures ProcOk(w', proc)
  {
  }

  // ---- Refreshing and saving -------------------------------------------------------------------

  lemma {:induction false} RefreshingInv(init: Disk, w: World, p: Pid)
    requires Inv(init, w) && p in w.procs && w.procs[p].pc < |w.procs[p].prog|
    requires w.procs[p].phase.Refreshing?
    ensures Inv(init, Continue(w, p))
  {
    hide DiskOk, LogOk, LocalOk, SharedOk, HoldsLock, LockOk, ProcsOk, Inv, Pending, KeysOk;
    var proc := w.procs[p];
    WritingHolds(w, proc);
    OwnerFacts(init, w, p);
    RefreshingFits(proc);
    if Refresh(proc.store.value.vault, w.disk).Err? {
      StopInv(init, w, p);
    } else {
      var v := Refresh(proc.store.value.vault, w.disk).value;
      var w' := Continue(w, p);
      RefreshedOk(w, w', proc, v);
      FilesAt(w, w');
      LockedHolds(w'.procs[p]);
      QuietInv(init, w, w', p);
    }
  }

  lemma {:induction false} RefreshingFits(proc: Proc)
    requires LocalOk(proc) && proc.phase.Refreshing?
    ensures proc.pc < |proc.prog| && proc.prog[proc.pc] == LockAndRefresh && proc.store.Some?
  {
  }

  lemma {:induction false} RefreshedOk(w: World, w': World, proc: Proc, v: Vault)
    requires ProcOk(w, proc) && proc.phase.Refreshing? && SharedOk(w, proc)
    requires w.disk.Sealed? && WellKeyedFile(w.disk.file) && proc.store.Some?
    requires Refresh(proc.store.value.vault, w.disk) == Ok(v)
    requires w'.disk == w.disk && w'.sources == w.sources
    ensures var proc' := Done(proc.(store := Some(Open(v, w.disk.file, [], true)), verified := false));
            ProcOk(w', proc') && Pending(proc') == {}
  {
    var proc' := Done(proc.(store := Some(Open(v, w.disk.file, [], true)), verified := false));
    assert v == Contents(w.disk.file);
    assert ApplyEdits([], v) == v;
    Advance(proc, proc');
  }

  lemma {:induction false} SavingInv(init: Disk, w: World, p: Pid)
    requires Inv(init, w) && p in w.procs && w.procs[p].pc < |w.procs[p].prog|
    requires w.procs[p].phase.Saving?
    ensures Inv(init, Continue(w, p))
  {
    hide LocalOk, DiskOk, LogOk, KeysOk, FilesOk, DisciplinedFrom, LockOk;
    var proc := w.procs[p];
    assert ProcOk(w, proc);
    SavingFits(proc);
    OpeningHolder(init, w, p);
    if w.disk == Sealed(proc.store.value.loaded) {
      PhaseInv(init, w, p, Checked(proc.phase.transient), w.holder);
    } else {
      StopInv(init, w, p);
    }
  }

  lemma {:induction false} SavingFits(proc: Proc)
    requires LocalOk(proc) && (proc.phase.Saving? || proc.phase.Checked?)
    ensures proc.pc < |proc.prog| && proc.prog[proc.pc] == Save && proc.store.Some?
    ensures proc.phase.transient <==> !proc.store.value.locked
    ensures proc.planned ==> proc.store.value.locked
    ensures OpenOk(proc.store.value)
  {
  }

  // ---- Writing -----------------------------------------------------------------------------------

  /** A write of the vault file by the owner of the lock. */
  lemma {:induction false} WriteInv(init: Disk, w: World, p: Pid, file: VaultFile, commit: Commit, release: bool,
                                    proc': Proc, counter: nat)
    requires Inv(init, w) && w.holder == Some(p) && p in w.procs
    requires WellKeyedFile(file) && file.passphrase.salt < counter && w.counter <= counter
    requires var w' := Write(w, p, file, commit, release, proc').(counter := counter);
             && DiskOk(init, w') && LogOk(init, w') && ProcOk(w', proc')
             && (HoldsLock(proc') <==> !release) && Pending(proc') == {}
    requires forall q :: q in w.procs && q != p ==> file.passphrase.salt !in Pending(w.procs[q])
    requires !commit.Restored? ==>
               && (w.disk.Sealed? ==> file.vault.key == w.disk.file.vault.key)
               && (proc'.store.Some? ==> proc'.store.value.vault.dataKey == file.vault.key)
    ensures Inv(init, Write(w, p, file, commit, release, proc').(counter := counter))
  {
    hide LocalOk, SharedOk, HoldsLock, DiskOk, LogOk;
    var w' := Write(w, p, file, commit, release, proc').(counter := counter);
    assert w'.log[|w.log|] == commit;
    if NoRestore(w'.log) {
      forall i | 0 <= i < |w.log| ensures !w.log[i].Restored? {
        assert w'.log[i] == w.log[i];
      }
    }
    StepInv(init, w, w', p);
  }

  /** The history stays right when a founding commit starts it. */
  lemma {:induction false} FoundedOk(init: Disk, w': World, file: VaultFile)
    requires w'.log == [Created(file)] || w'.log == [Migrated(file)]
    requires w'.disk == Sealed(file)
    ensures DiskOk(init, w') && LogOk(init, w')
  {
    assert w'.log[..0] == [];
  }

  /** The history stays right when a save or a restore extends it. */
  lemma {:induction false} CommittedOk(init: Disk, w: World, w': World, c: Commit)
    requires DiskOk(init, w) && LogOk(init, w) && w'.log == w.log + [c]
    requires c.Restored? || (c.Saved? && w.disk.Sealed?)
    requires w'.disk == ReplayOne(w.disk, c) && w'.disk.Sealed?
    ensures DiskOk(init, w') && LogOk(init, w')
  {
    assert w'.log[..|w.log|] == w.log;
  }

  /** What the owner of the lock knows when it is about to write. */
  lemma {:induction false} OwnerFacts(init: Disk, w: World, p: Pid)
    requires Inv(init, w) && p in w.procs && HoldsLock(w.procs[p])
    ensures ProcOk(w, w.procs[p]) && SharedOk(w, w.procs[p]) && w.holder == Some(p)
    ensures w.disk.Absent? ==> w.log == []
    ensures DiskOk(init, w) && LogOk(init, w) && FilesOk(w) && ProcsOk(w)
  {
    assert ProcOk(w, w.procs[p]);
  }

  lemma {:induction false} WritingHolds(w: World, proc: Proc)
    requires var phase := proc.phase;
             phase.Minting? || phase.Writing? || phase.Restoring? || phase.Checked? || phase.Refreshing?
    ensures HoldsLock(proc)
    ensures SharedOk(w, proc) && proc.phase.Minting? ==> w.disk.Absent?
    ensures SharedOk(w, proc) && proc.phase.Writing? ==>
              && w.log == [] && w.disk.Torn?
              && proc.pc < |proc.prog| && proc.prog[proc.pc].OpenVault?
              && OpensLegacy(proc.phase.v1, Passphrase(proc.prog[proc.pc].text))
    ensures SharedOk(w, proc) && proc.phase.Checked? && proc.store.Some? ==>
              w.disk == Sealed(proc.store.value.loaded)
  {
  }

  lemma {:induction false} FreshSalt(w: World, p: Pid, salt: nat)
    requires ProcsOk(w) && (salt >= w.counter || salt in w.published ||
                            (p in w.procs && salt in Pending(w.procs[p])))
    ensures forall q :: q in w.procs && q != p ==> salt !in Pending(w.procs[q])
  {
    forall q | q in w.procs && q != p ensures salt !in Pending(w.procs[q]) {
      assert ProcOk(w, w.procs[q]);
      if p in w.procs {
        assert Pending(w.procs[p]) !! Pending(w.procs[q]);
      }
    }
  }

  lemma {:induction false} MintingInv(init: Disk, w: World, p: Pid)
    requires Inv(init, w) && p in w.procs && w.procs[p].pc < |w.procs[p].prog|
    requires w.procs[p].phase.Minting?
    ensures Inv(init, Continue(w, p))
  {
    hide LocalOk, SharedOk, HoldsLock, DiskOk, LogOk, FilesOk, LockOk, KeysOk, ProcsOk, Inv, Pending;
    var proc := w.procs[p];
    WritingHolds(w, proc);
    OwnerFacts(init, w, p);
    OpeningFits(w, proc);
    var n := w.counter;
    var v := NewVault(Passphrase(proc.prog[proc.pc].text), n, n + 1, n + 2);
    var file := SealFile(v, n + 3);
    SealedContents(v, n + 3);
    var proc' := Done(proc.(store := Opened(v, file)));
    var w' := Write(w, p, file, Created(file), true, proc').(counter := n + 4);
    OpenedOk(w, w', proc, v, file);
    FreshSalt(w, p, n + 1);
    FoundedOk(init, w', file);
    WriteInv(init, w, p, file, Created(file), true, proc', n + 4);
  }

  lemma {:induction false} TruncatingInv(init: Disk, w: World, p: Pid)
    requires Inv(init, w) && p in w.procs && w.procs[p].pc < |w.procs[p].prog|
    requires w.procs[p].phase.Truncating?
    ensures Inv(init, Continue(w, p))
  {
    hide KeysOk, DisciplinedFrom, OpensLegacy;
    var proc, w' := w.procs[p], Continue(w, p);
    assert ProcOk(w, proc);
    OpeningFits(w, proc);
    assert w.log == [];
    assert FlagsOf(w'.procs[p]) == FlagsOf(proc);
    StepInv(init, w, w', p) by {
      assert w'.procs[p] == proc.(phase := Writing(proc.phase.v1));
      assert ProcOk(w', w'.procs[p]);
    }
  }

  lemma {:induction false} WritingInv(init: Disk, w: World, p: Pid)
    requires Inv(init, w) && p in w.procs && w.procs[p].pc < |w.procs[p].prog|
    requires w.procs[p].phase.Writing?
    ensures Inv(init, Continue(w, p))
  {
    hide LocalOk, SharedOk, HoldsLock, DiskOk, LogOk, FilesOk, LockOk, KeysOk, ProcsOk, Inv, Pending,
         OpensLegacy, MigrateV1, WellKeyed;
    var proc := w.procs[p];
    WritingHolds(w, proc);
    OwnerFacts(init, w, p);
    OpeningFits(w, proc);
    var n := w.counter;
    MigratedVault(proc.phase.v1, Passphrase(proc.prog[proc.pc].text), n);
    var v := MigrateV1(proc.phase.v1, Passphrase(proc.prog[proc.pc].text), n, n + 1, n + 2).value;
    var file := SealFile(v, n + 3);
    SealedContents(v, n + 3);
    var proc' := proc.(phase := Loading);
    var w' := Write(w, p, file, Migrated(file), true, proc').(counter := n + 4);
    LoadingOk(w, w', proc);
    FreshSalt(w, p, n + 1);
    FoundedOk(init, w', file);
    WriteInv(init, w, p, file, Migrated(file), true, proc', n + 4);
  }

  lemma {:induction false} LoadingOk(w: World, w': World, proc: Proc)
    requires ProcOk(w, proc) && proc.phase.Writing?
    ensures ProcOk(w', proc.(phase := Loading)) && !HoldsLock(proc.(phase := Loading))
    ensures Pending(proc.(phase := Loading)) == {} && proc.store.None?
  {
    assert FlagsOf(proc.(phase := Loading)) == FlagsOf(proc);
  }

  lemma {:induction false} MigratedVault(v1: LegacyFile, secret: Secret, n: nat)
    requires OpensLegacy(v1, secret) && secret.Passphrase?
    ensures var r := MigrateV1(v1, secret, n, n + 1, n + 2);
            r.Ok? && WellKeyed(r.value) && r.value.wrapPassphrase.salt == n + 1
  {
  }

  lemma {:induction false} RestoringInv(init: Disk, w: World, p: Pid)
    requires Inv(init, w) && p in w.procs && w.procs[p].pc < |w.procs[p].prog|
    requires w.procs[p].phase.Restoring?
    ensures Inv(init, Continue(w, p))
  {
    hide LocalOk, SharedOk, HoldsLock, DiskOk, LogOk, LockOk, KeysOk, ProcsOk, Inv, Pending;
    var proc := w.procs[p];
    WritingHolds(w, proc);
    OwnerFacts(init, w, p);
    RestoredOk(w, proc);
    var file, proc' := proc.prog[proc.pc].file, Done(proc);
    var w' := Write(w, p, file, Restored(file), true, proc').(counter := w.counter);
    FreshSalt(w, p, file.passphrase.salt);
    CommittedOk(init, w, w', Restored(file));
    WriteInv(init, w, p, file, Restored(file), true, proc', w.counter);
  }

  lemma {:induction false} RestoredOk(w: World, proc: Proc)
    requires ProcOk(w, proc) && proc.phase.Restoring?
    ensures proc.pc < |proc.prog| && proc.prog[proc.pc].Restore? && proc.store.None?
    ensures LocalOk(Done(proc)) && !HoldsLock(Done(proc)) && Pending(Done(proc)) == {}
    ensures SharedOk(w, proc) ==> proc.prog[proc.pc].file in w.snapshots
  {
    Advance(proc, Done(proc));
  }

  lemma {:induction false} CheckedInv(init: Disk, w: World, p: Pid)
    requires Inv(init, w) && p in w.procs && w.procs[p].pc < |w.procs[p].prog|
    requires w.procs[p].phase.Checked?
    ensures Inv(init, Continue(w, p))
  {
    hide LocalOk, SharedOk, HoldsLock, DiskOk, LogOk, FilesOk, LockOk, KeysOk, ProcsOk, Inv, Pending,
         ApplyEdits;
    var proc := w.procs[p];
    WritingHolds(w, proc);
    OwnerFacts(init, w, p);
    SavingFits(proc);
    var o, n := proc.store.value, w.counter;
    var file, commit := SealFile(o.vault, n), Saved(o.edits, n);
    var proc' := SavedProc(proc, file);
    var w' := Write(w, p, file, commit, proc.phase.transient, proc').(counter := n + 1);
    SavedOk(w, w', proc, file);
    SavedSalt(w, proc);
    FreshSalt(w, p, o.vault.wrapPassphrase.salt);
    CommittedOk(init, w, w', commit);
    WriteInv(init, w, p, file, commit, proc.phase.transient, proc', n + 1);
  }

  function SavedProc(proc: Proc, file: VaultFile): Proc
    requires proc.store.Some?
  {
    Done(proc.(store := Some(proc.store.value.(loaded := file, edits := [])), verified := false))
  }

  lemma {:induction false} SavedOk(w: World, w': World, proc: Proc, file: VaultFile)
    requires ProcOk(w, proc) && proc.phase.Checked? && SharedOk(w, proc) && proc.store.Some?
    requires file == SealFile(proc.store.value.vault, w.counter)
    requires w'.disk == Sealed(file) && w'.sources == w.sources
    ensures ProcOk(w', SavedProc(proc, file)) && Pending(SavedProc(proc, file)) == {}
    ensures HoldsLock(SavedProc(proc, file)) <==> proc.store.value.locked
    ensures WellKeyedFile(file)
  {
    var v := proc.store.value.vault;
    assert ApplyEdits([], v) == v && Contents(file) == v;
    Advance(proc, SavedProc(proc, file));
  }

  /** The salt a save writes is the one it loaded, or one of its own that nobody has seen. */
  lemma {:induction false} SavedSalt(w: World, proc: Proc)
    requires ProcOk(w, proc) && proc.store.Some? && FilesOk(w)
    requires w.disk == Sealed(proc.store.value.loaded)
    ensures var salt := proc.store.value.vault.wrapPassphrase.salt;
            salt < w.counter && (salt in w.published || salt in Pending(proc))
  {
    var o := proc.store.value;
    EditsKeep(o.edits, Contents(o.loaded));
  }

  // ---- Runs ------------------------------------------------------------------------------------

  lemma {:induction false} BeginInv(init: Disk, w: World, p: Pid, c: Choice)
    requires Inv(init, w) && p in w.procs && w.procs[p].pc < |w.procs[p].prog|
    requires w.procs[p].phase.Ready?
    ensures Inv(init, Begin(w, p, c))
  {
    hide Inv;
    var proc := w.procs[p];
    match proc.prog[proc.pc]
    case OpenVault(text) => BeginOpenInv(init, w, p, text, c);
    case OpenRecovery(words) => BeginRecoveryInv(init, w, p, words);
    case CacheKey(text) => CacheKeyInv(init, w, p, text, c);
    case LockAndRefresh =>
      if proc.store.None? { StopInv(init, w, p); } else { BeginLockedInv(init, w, p); }
    case Mutate(m) =>
      if proc.store.None? { StopInv(init, w, p); } else { MutateInv(init, w, p, m); }
    case SetValue(key, value, tier, now) =>
      if proc.store.None? { StopInv(init, w, p); }
      else { SetValueInv(init, w, p, key, value, tier, now); }
    case Save =>
      if proc.store.None? { StopInv(init, w, p); } else { BeginLockedInv(init, w, p); }
    case Verify =>
      if proc.store.None? { StopInv(init, w, p); } else { VerifyInv(init, w, p); }
    case ReadSource(path) => ReadSourceInv(init, w, p, path);
    case SetSource(key, tier, now) =>
      if proc.store.None? || proc.source.None? { StopInv(init, w, p); }
      else { SetSourceInv(init, w, p, key, tier, now); }
    case DestroySource(path, key) => DestroyInv(init, w, p, path, key);
    case AdoptSources(work, req) =>
      if proc.store.None? { StopInv(init, w, p); } else { AdoptInv(init, w, p, work, req); }
    case RewriteSources => RewriteInv(init, w, p);
    case Check(need) => CheckInv(init, w, p, need);
    case DropKeys => DropKeysInv(init, w, p, c);
    case Backup => BackupInv(init, w, p);
    case Restore(file, text) => BeginRestoreInv(init, w, p, file, text);
  }

  lemma {:induction false} ContinueInv(init: Disk, w: World, p: Pid)
    requires Inv(init, w) && p in w.procs && w.procs[p].pc < |w.procs[p].prog|
    ensures Inv(init, Continue(w, p))
  {
    hide Inv;
    match w.procs[p].phase
    case Ready =>
    case Stopped =>
    case WaitCreate => OpeningInv(init, w, p);
    case Creating => OpeningInv(init, w, p);
    case Minting => MintingInv(init, w, p);
    case WaitMigrate => OpeningInv(init, w, p);
    case Migrating => MigratingInv(init, w, p);
    case Truncating(_) => TruncatingInv(init, w, p);
    case Writing(_) => WritingInv(init, w, p);
    case Loading => OpeningInv(init, w, p);
    case Caching(_) => CachedInv(init, w, p);
    case Refreshing => RefreshingInv(init, w, p);
    case Saving(_) => SavingInv(init, w, p);
    case Checked(_) => CheckedInv(init, w, p);
    case BackingUp => BeforeRestoreInv(init, w, p);
    case WaitRestore => BeforeRestoreInv(init, w, p);
    case Restoring => RestoringInv(init, w, p);
    case Rewriting => RewritingInv(init, w, p);
  }

  /** Every action of every process, crashes included, keeps the invariant. */
  lemma {:induction false} NextInv(init: Disk, w: World, a: Action)
    requires Inv(init, w)
    ensures Inv(init, Next(w, a))
  {
    hide Inv, Begin, Continue, Stop;
    match a
    case Start(p, prog) => StartInv(init, w, p, prog);
    case Forget(keys) => ForgetInv(init, w, keys);
    case Crash(p) => if p in w.procs { StopInv(init, w, p); }
    case Step(p, c) =>
      if p in w.procs && !w.procs[p].phase.Stopped? {
        if w.procs[p].pc >= |w.procs[p].prog| {
          StopInv(init, w, p);
        } else if w.procs[p].phase.Ready? {
          BeginInv(init, w, p, c);
        } else {
          ContinueInv(init, w, p);
        }
      }
  }

  /** In every interleaving of any number of processes, from any initial vault. */
  lemma {:induction false} RunInv(init: Disk, w: World, acts: seq<Action>)
    requires Initial(init, w)
    ensures Inv(init, Run(w, acts))
  {
    if acts == [] {
      InitialInv(init, w);
    } else {
      hide Inv, Next;
      var n := |acts| - 1;
      RunInv(init, w, acts[..n]);
      NextInv(init, Run(w, acts[..n]), acts[n]);
    }
  }
}
