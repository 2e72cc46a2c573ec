/** The invariant of the multi-process protocol. */
module ProtocolInvariant {
  import opened Common
  import opened VaultFormat
  import opened Adopt
  import opened Protocol

  // ---- History ---------------------------------------------------------------------------

  /** The vault file after a history of commits. A save applies its own edits to whatever the
      commit before it left. */
  function Replay(init: Disk, log: seq<Commit>): Disk {
    if log == [] then init
    else ReplayOne(Replay(init, log[..|log| - 1]), log[|log| - 1])
  }

  function ReplayOne(disk: Disk, c: Commit): Disk {
    match c
    case Created(file) => Sealed(file)
    case Migrated(file) => Sealed(file)
    case Restored(file) => Sealed(file)
    case Saved(edits, nonce) =>
      if disk.Sealed? then Sealed(SealFile(ApplyEdits(edits, Contents(disk.file)), nonce)) else disk
  }

  /** The disk is what the history says; a migration that is under way or crashed has left a torn
      file, but the version 1 file is in the backup. */
  predicate DiskOk(init: Disk, w: World) {
    if w.disk.Torn? && !init.Torn? then
      w.log == [] && init.Legacy? && w.v1bak == Some(init.v1)
    else w.disk == Replay(init, w.log)
  }

  predicate LogOk(init: Disk, w: World) {
    && (w.log != [] ==> w.disk.Sealed?)
    && (w.log == [] ==> w.disk == init || (init.Legacy? && w.disk.Torn?))
    && (forall i :: 0 <= i < |w.log| && (w.log[i].Created? || w.log[i].Migrated?) ==> i == 0)
  }

  // ---- Processes -------------------------------------------------------------------------

  predicate HasRewrap(edits: seq<Edit>) {
    exists i :: 0 <= i < |edits| && edits[i].RewrapEdit?
  }

  /** The salt of a passphrase wrap that is only in memory so far. */
  function Pending(proc: Proc): set<nat> {
    if proc.store.Some? && HasRewrap(proc.store.value.edits)
    then {proc.store.value.vault.wrapPassphrase.salt} else {}
  }

  /** An open store is its file plus its edits, and keeps the key hierarchy. */
  predicate OpenOk(o: Open) {
    && WellKeyedFile(o.loaded) && WellKeyed(o.vault)
    && o.vault == ApplyEdits(o.edits, Contents(o.loaded))
    && o.vault.dataKey == o.loaded.vault.key
  }

  predicate AllHeld(entries: Entries, pairs: seq<(string, string)>) {
    forall i :: 0 <= i < |pairs| ==> Holds(entries, pairs[i].0, pairs[i].1)
  }

  function FlagsOf(proc: Proc): Flags {
    Flags(proc.store.Some?, proc.store.Some? && proc.store.value.locked, proc.verified,
          if proc.source.Some? then Some(proc.source.value.0) else None, proc.taken, proc.planned)
  }

  predicate IsOpening(phase: Phase) {
    || phase.WaitCreate? || phase.Creating? || phase.Minting? || phase.WaitMigrate?
    || phase.Migrating? || phase.Truncating? || phase.Writing? || phase.Loading?
  }

  predicate InStore(phase: Phase) {
    phase.Refreshing? || phase.Saving? || phase.Checked?
  }

  /** Which instruction a phase belongs to. */
  predicate PhaseFits(proc: Proc) {
    && (IsOpening(proc.phase) ==>
          proc.pc < |proc.prog| && proc.prog[proc.pc].OpenVault? && proc.store.None?)
    && (InStore(proc.phase) ==> proc.store.Some?)
    && (proc.phase.Refreshing? ==> proc.pc < |proc.prog| && proc.prog[proc.pc].LockAndRefresh?)
    && (proc.phase.Saving? || proc.phase.Checked? ==>
          && proc.pc < |proc.prog| && proc.prog[proc.pc].Save?
          && (proc.phase.transient <==> !proc.store.value.locked))
    && (proc.phase.BackingUp? || proc.phase.WaitRestore? || proc.phase.Restoring? ==>
          proc.pc < |proc.prog| && proc.prog[proc.pc].Restore? && proc.store.None?)
    && (proc.phase.Caching? ==> proc.pc < |proc.prog| && proc.prog[proc.pc].CacheKey?)
    && (proc.phase.Rewriting? ==>
          && proc.pc < |proc.prog| && proc.prog[proc.pc].RewriteSources?
          && proc.store.Some? && proc.store.value.locked && proc.rewrites != [])
  }

  /** What a process knows about itself. */
  predicate LocalOk(proc: Proc) {
    && proc.pc <= |proc.prog|
    && (proc.phase.Stopped? ==> proc.store.None?)
    && (!proc.phase.Stopped? ==>
          DisciplinedFrom(proc.prog, proc.pc, FlagsOf(proc)) && PhaseFits(proc))
    && (proc.store.Some? ==> OpenOk(proc.store.value))
    && (proc.store.Some? && proc.store.value.locked && proc.verified ==>
          AllHeld(proc.store.value.loaded.vault.plain, proc.expected))
    && (forall key :: key in proc.taken ==>
          proc.source.Some? && (key, proc.source.value.1) in proc.expected)
    && (proc.planned || proc.rewrites == [])
    && (proc.planned && !proc.phase.Stopped? ==> proc.store.Some? && proc.store.value.locked)
    && (forall i :: 0 <= i < |proc.rewrites| ==>
          Justified(proc.rewrites[i].before, proc.rewrites[i].after, proc.expected))
    && (forall i, j :: 0 <= i < j < |proc.rewrites| ==>
          proc.rewrites[i].path != proc.rewrites[j].path)
  }

  /** The process owns the lock. */
  predicate HoldsLock(proc: Proc) {
    || proc.phase.Creating? || proc.phase.Minting? || proc.phase.Migrating?
    || proc.phase.Truncating? || proc.phase.Writing? || proc.phase.Refreshing?
    || proc.phase.Saving? || proc.phase.Checked? || proc.phase.Restoring?
    || (proc.store.Some? && proc.store.value.locked)
  }

  /** What a process that owns the lock knows about the shared state. */
  predicate SharedOk(w: World, proc: Proc) {
    && (proc.store.Some? && proc.store.value.locked ==>
          w.disk == Sealed(proc.store.value.loaded))
    && (proc.phase.Checked? && proc.store.Some? ==> w.disk == Sealed(proc.store.value.loaded))
    && (proc.phase.Minting? ==> w.disk.Absent?)
    && (proc.phase.Truncating? ==>
          w.disk == Legacy(proc.phase.v1) && w.v1bak == Some(proc.phase.v1)
          && proc.pc < |proc.prog| && proc.prog[proc.pc].OpenVault?
          && OpensLegacy(proc.phase.v1, Passphrase(proc.prog[proc.pc].text)))
    && (proc.phase.Writing? ==>
          w.disk.Torn? && w.v1bak == Some(proc.phase.v1) && w.log == []
          && proc.pc < |proc.prog| && proc.prog[proc.pc].OpenVault?
          && OpensLegacy(proc.phase.v1, Passphrase(proc.prog[proc.pc].text)))
    && (proc.phase.Restoring? && proc.pc < |proc.prog| && proc.prog[proc.pc].Restore? ==>
          proc.prog[proc.pc].file in w.snapshots)
    && (proc.store.Some? ==> forall i :: 0 <= i < |proc.rewrites| ==>
          proc.rewrites[i].path in w.sources
          && w.sources[proc.rewrites[i].path]
             == if i == 0 && proc.phase.Rewriting? then [] else proc.rewrites[i].before)
  }

  /** An agent key, or one on its way there, comes from a salt that has been published. */
  predicate AgentKeyOk(w: World, key: Key) {
    key.Derived? && key.secret.Passphrase? && key.salt in w.published
  }

  // ---- The invariant ---------------------------------------------------------------------

  predicate FilesOk(w: World) {
    && (w.disk.Sealed? ==> WellKeyedFile(w.disk.file) && w.disk.file.passphrase.salt in w.published)
    && (forall f :: f in w.snapshots ==> WellKeyedFile(f) && f.passphrase.salt in w.published)
    && (forall n :: n in w.published ==> n < w.counter)
    && (forall key :: key in w.agent ==> AgentKeyOk(w, key))
  }

  predicate LockOk(w: World) {
    && (w.holder.Some? ==> w.holder.value in w.procs)
    && (forall p :: p in w.procs ==> (HoldsLock(w.procs[p]) <==> w.holder == Some(p)))
  }

  predicate ProcOk(w: World, proc: Proc) {
    && LocalOk(proc)
    && (HoldsLock(proc) ==> SharedOk(w, proc))
    && (proc.store.Some? ==> w.disk.Sealed?)
    && (proc.phase.Caching? ==> AgentKeyOk(w, proc.phase.key))
    && (forall n :: n in Pending(proc) ==> n < w.counter && n !in w.published)
  }

  predicate ProcsOk(w: World) {
    && (forall p :: p in w.procs ==> ProcOk(w, w.procs[p]))
    && (forall p, q :: p in w.procs && q in w.procs && p != q ==>
          Pending(w.procs[p]) !! Pending(w.procs[q]))
  }

  /** Unless a snapshot was restored, every open store has the data key of the vault. */
  predicate KeysOk(w: World) {
    (forall i :: 0 <= i < |w.log| ==> !w.log[i].Restored?) ==>
      forall p :: p in w.procs && w.procs[p].store.Some? && w.disk.Sealed? ==>
        w.procs[p].store.value.vault.dataKey == w.disk.file.vault.key
  }

  predicate Inv(init: Disk, w: World) {
    DiskOk(init, w) && LogOk(init, w) && FilesOk(w) && LockOk(w) && ProcsOk(w) && KeysOk(w)
  }

  /** A world in which nothing has run yet. */
  predicate Initial(init: Disk, w: World) {
    && w.disk == init && w.holder == None && w.procs == map[] && w.log == [] && w.agent == {}
    && FilesOk(w)
  }

  lemma {:induction false} InitialInv(init: Disk, w: World)
    requires Initial(init, w)
    ensures Inv(init, w)
  {
  }
}
