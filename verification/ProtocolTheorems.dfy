/** What the protocol guarantees, over every interleaving of any number of processes. */
module ProtocolTheorems {
  import opened Common
  import opened VaultFormat
  import opened Adopt
  import opened Protocol
  import opened ProtocolInvariant
  import opened ProtocolSteps
  import opened ProtocolActions
  import opened ProtocolRuns

  // ---- No lost update ------------------------------------------------------------------------

  /** The vault file is the successful writes, replayed in commit order: each save contributed its
      own edits to whatever the write before it had left, so no write is lost. The one exception is
      a migration that is under way or crashed; then nothing has been written yet and the backup
      holds the version 1 file. */
  lemma {:induction false} NoLostUpdate(init: Disk, w: World, acts: seq<Action>)
    requires Initial(init, w)
    ensures var now := Run(w, acts);
            || now.disk == Replay(init, now.log)
            || (now.disk.Torn? && now.log == [] && init.Legacy? && now.v1bak == Some(init.v1))
  {
    RunInv(init, w, acts);
  }

  /** The vault file and its history are as before. */
  predicate LeavesFile(w: World, w': World) {
    w'.disk == w.disk && w'.log == w.log && w'.published == w.published
  }

  predicate IsWriting(phase: Phase) {
    phase.Minting? || phase.Truncating? || phase.Writing? || phase.Checked? || phase.Restoring?
  }

  /** Process `p` is at a step that writes the vault file. */
  predicate AtWrite(w: World, p: Pid) {
    && p in w.procs && w.procs[p].pc < |w.procs[p].prog| && IsWriting(w.procs[p].phase)
  }

  lemma {:induction false} BeginLeavesFile(w: World, p: Pid, c: Choice)
    requires p in w.procs && w.procs[p].pc < |w.procs[p].prog|
    ensures LeavesFile(w, Begin(w, p, c))
  {
    hide Edited, SetPair, PlanAdoption, Refusal;
    var proc := w.procs[p];
    if proc.store.Some? {
      match proc.prog[proc.pc]
      case Mutate(m) =>
        EditedLeavesFile(w, p, ResolveMutation(m, proc.store.value.vault, w.counter), w.counter + 3);
      case SetValue(key, value, tier, now) =>
        SetPairLeavesFile(w, p, key, value, TierFor(tier, key, proc.store.value.vault.entries), now);
      case SetSource(key, tier, now) =>
        if proc.source.Some? {
          SetPairLeavesFile(w, p, key, proc.source.value.1, tier, now);
        }
      case _ =>
    }
  }

  lemma {:induction false} EditedLeavesFile(w: World, p: Pid, edit: Edit, counter: nat)
    requires p in w.procs && w.procs[p].store.Some?
    ensures LeavesFile(w, Edited(w, p, edit, counter))
  {
  }

  lemma {:induction false} SetPairLeavesFile(w: World, p: Pid, key: string, value: string, tier: nat, now: int)
    requires p in w.procs && w.procs[p].store.Some?
    ensures LeavesFile(w, SetPair(w, p, key, value, tier, now))
  {
  }

  lemma {:induction false} ContinueLeavesFile(w: World, p: Pid)
    requires p in w.procs && w.procs[p].pc < |w.procs[p].prog| && !IsWriting(w.procs[p].phase)
    ensures LeavesFile(w, Continue(w, p))
  {
  }

  lemma {:induction false} OnlyWritesChangeFile(w: World, a: Action)
    ensures LeavesFile(w, Next(w, a)) || (a.Step? && AtWrite(w, a.pid) && Next(w, a) == Continue(w, a.pid))
  {
    hide Begin, Continue;
    if a.Step? && a.pid in w.procs && w.procs[a.pid].pc < |w.procs[a.pid].prog| {
      BeginLeavesFile(w, a.pid, a.choice);
      if !IsWriting(w.procs[a.pid].phase) {
        ContinueLeavesFile(w, a.pid);
      }
    }
  }

  /** What a writing step does to the file. */
  lemma {:induction false} WriteShape(init: Disk, w: World, p: Pid)
    requires Inv(init, w) && AtWrite(w, p)
    ensures w.holder == Some(p)
    ensures var proc, w' := w.procs[p], Continue(w, p);
            if proc.phase.Truncating? then
              w'.log == w.log && w'.disk.Torn? && w'.published == w.published && w.disk.Legacy?
            else
              && w'.disk.Sealed? && |w'.log| == |w.log| + 1 && w.log == w'.log[..|w.log|]
              && w'.published == w.published + {w'.disk.file.passphrase.salt}
              && (proc.phase.Checked? ==>
                    && w.disk.Sealed? && proc.store.Some?
                    && w'.log[|w.log|] == Saved(proc.store.value.edits, w.counter)
                    && w'.disk == Sealed(SealFile(proc.store.value.vault, w.counter))
                    && proc.store.value.vault
                       == ApplyEdits(proc.store.value.edits, Contents(w.disk.file)))
              && (proc.phase.Restoring? ==> w'.log[|w.log|].Restored?)
              && (proc.phase.Minting? || proc.phase.Writing? ==>
                    (w'.log[|w.log|].Created? || w'.log[|w.log|].Migrated?) && !w.disk.Sealed?)
  {
    hide DisciplinedFrom, DiskOk, KeysOk, FilesOk, ApplyEdits, OpensLegacy, SealFile, NewVault, LogOk, Begin;
    var proc := w.procs[p];
    assert ProcOk(w, proc);
    if proc.phase.Writing? {
      MigratedVault(proc.phase.v1, Passphrase(proc.prog[proc.pc].text), w.counter);
    }
  }

  /** Every action either leaves the history alone or is one write by the owner of the lock. A save
      is only ever recorded with the edits that lead from the file on disk to the file it writes. */
  lemma {:induction false} OnlyTheOwnerCommits(init: Disk, w: World, a: Action)
    requires Inv(init, w)
    ensures var w' := Next(w, a);
            || (w'.log == w.log && (w'.disk == w.disk || w'.disk.Torn?))
            || (&& a.Step? && w.holder == Some(a.pid) && |w'.log| == |w.log| + 1
                && w.log == w'.log[..|w.log|] && w'.disk.Sealed?
                && (w'.log[|w.log|].Saved? ==>
                      && w.disk.Sealed?
                      && Contents(w'.disk.file)
                         == ApplyEdits(w'.log[|w.log|].edits, Contents(w.disk.file))))
  {
    hide Next, Continue, Inv, ApplyEdits;
    OnlyWritesChangeFile(w, a);
    if a.Step? && AtWrite(w, a.pid) && Next(w, a) == Continue(w, a.pid) {
      WriteShape(init, w, a.pid);
      var proc := w.procs[a.pid];
      if proc.phase.Checked? {
        SealedContents(proc.store.value.vault, w.counter);
      }
    }
  }

  /** A save after a successful refresh is never refused: in every reachable world in which a
      process that has refreshed is about to compare, or has compared, the file is still the one it
      read, whatever the others did in between; and the write that follows is recorded. */
  lemma {:induction false} RefreshedSaveSucceeds(init: Disk, w: World, acts: seq<Action>, p: Pid, c: Choice)
    requires Initial(init, w)
    requires var now := Run(w, acts);
             && p in now.procs && (now.procs[p].phase.Saving? || now.procs[p].phase.Checked?)
             && now.procs[p].store.Some? && now.procs[p].store.value.locked
    ensures var now, next := Run(w, acts), Next(Run(w, acts), Step(p, c));
            && (now.procs[p].phase.Saving? ==> next.procs[p].phase == Checked(false))
            && (now.procs[p].phase.Checked? ==>
                  next.log == now.log + [Saved(now.procs[p].store.value.edits, now.counter)])
  {
    RunInv(init, w, acts);
    var now := Run(w, acts);
    assert ProcOk(now, now.procs[p]);
  }

  // ---- What a commit writes stays ------------------------------------------------------------

  predicate OnlySaves(log: seq<Commit>) {
    forall i :: 0 <= i < |log| ==> log[i].Saved?
  }

  predicate Touches(edit: Edit, key: string) {
    match edit
    case SetEdit(k, _, _, _) => k == key
    case RotationEdit(k, _, _) => k == key
    case ExpiryEdit(k, _) => k == key
    case RetierEdit(k, _, _) => k == key
    case DeleteEdit(k) => k == key
    case RenameEdit(a, b) => a == key || b == key
    case _ => false
  }

  predicate HasRecovery(edits: seq<Edit>) {
    exists i :: 0 <= i < |edits| && edits[i].RecoveryEdit?
  }

  predicate TouchesAny(edits: seq<Edit>, key: string) {
    exists i :: 0 <= i < |edits| && Touches(edits[i], key)
  }

  lemma {:induction false} UntouchedByEdits(edits: seq<Edit>, v: Vault, key: string)
    ensures !TouchesAny(edits, key) ==>
              Lookup(ApplyEdits(edits, v).entries, key) == Lookup(v.entries, key)
    ensures !HasRewrap(edits) ==> ApplyEdits(edits, v).wrapPassphrase == v.wrapPassphrase
    ensures !HasRecovery(edits) ==> ApplyEdits(edits, v).wrapRecovery == v.wrapRecovery
    ensures ApplyEdits(edits, v).dataKey == v.dataKey
  {
    if edits != [] {
      var n := |edits| - 1;
      UntouchedByEdits(edits[..n], v, key);
      assert !TouchesAny(edits, key) ==> !TouchesAny(edits[..n], key) && !Touches(edits[n], key);
      assert !HasRewrap(edits) ==> !HasRewrap(edits[..n]) && !edits[n].RewrapEdit?;
      assert !HasRecovery(edits) ==> !HasRecovery(edits[..n]) && !edits[n].RecoveryEdit?;
    }
  }

  /** However many saves follow, by processes that may have opened the vault long before: an entry
      that their edits do not touch keeps its value, a passphrase that none of them changes stays
      in force, and so does a recovery phrase. In particular no writer ever reverts a re-keying. */
  lemma {:induction false} CommitsSurvive(disk: Disk, later: seq<Commit>, key: string)
    requires disk.Sealed? && OnlySaves(later)
    ensures Replay(disk, later).Sealed?
    ensures (forall i :: 0 <= i < |later| ==> !TouchesAny(later[i].edits, key)) ==>
              var after, before := Replay(disk, later).file.vault.plain, disk.file.vault.plain;
              (key in after <==> key in before) && (key in before ==> after[key] == before[key])
    ensures (forall i :: 0 <= i < |later| ==> !HasRewrap(later[i].edits)) ==>
              Replay(disk, later).file.passphrase == disk.file.passphrase
    ensures (forall i :: 0 <= i < |later| ==> !HasRecovery(later[i].edits)) ==>
              Replay(disk, later).file.recovery == disk.file.recovery
    ensures Replay(disk, later).file.vault.key == disk.file.vault.key
  {
    if later != [] {
      var n := |later| - 1;
      CommitsSurvive(disk, later[..n], key);
      UntouchedByEdits(later[n].edits, Contents(Replay(disk, later[..n]).file), key);
    }
  }

  lemma {:induction false} ReplayAppend(init: Disk, log: seq<Commit>, later: seq<Commit>)
    ensures Replay(init, log + later) == Replay(Replay(init, log), later)
  {
    if later == [] {
      assert log + later == log;
    } else {
      var n := |later| - 1;
      ReplayAppend(init, log, later[..n]);
      assert (log + later)[..|log| + n] == log + later[..n];
    }
  }

  lemma {:induction false} LogOnlyGrows(init: Disk, w: World, acts: seq<Action>)
    requires Inv(init, w)
    ensures Inv(init, Run(w, acts)) && w.log <= Run(w, acts).log
    ensures w.published <= Run(w, acts).published && (w.disk.Sealed? ==> Run(w, acts).disk.Sealed?)
  {
    if acts != [] {
      var n := |acts| - 1;
      LogOnlyGrows(init, w, acts[..n]);
      var mid := Run(w, acts[..n]);
      NextInv(init, mid, acts[n]);
      OneStepGrows(init, mid, acts[n]);
    }
  }

  lemma {:induction false} OneStepGrows(init: Disk, w: World, a: Action)
    requires Inv(init, w)
    ensures w.log <= Next(w, a).log && w.published <= Next(w, a).published
    ensures w.disk.Sealed? ==> Next(w, a).disk.Sealed?
  {
    hide Next, Continue, Inv, ApplyEdits;
    OnlyWritesChangeFile(w, a);
    if a.Step? && AtWrite(w, a.pid) && Next(w, a) == Continue(w, a.pid) {
      WriteShape(init, w, a.pid);
    }
  }

  /** The commits that a run adds. */
  function Since(w: World, acts: seq<Action>): seq<Commit> {
    if |w.log| <= |Run(w, acts).log| then Run(w, acts).log[|w.log|..] else []
  }

  /** The same about runs: from a world with a vault, as long as only saves are committed that do
      not touch `key`, its entry is what it was; as long as nobody re-keys, the wraps are. */
  lemma {:induction false} ValuesSurvive(init: Disk, w: World, acts: seq<Action>, key: string)
    requires Inv(init, w) && w.disk.Sealed?
    requires OnlySaves(Since(w, acts))
    ensures var now, later := Run(w, acts), Since(w, acts);
            && now.disk.Sealed?
            && ((forall i :: 0 <= i < |later| ==> !TouchesAny(later[i].edits, key)) ==>
                  var after, before := now.disk.file.vault.plain, w.disk.file.vault.plain;
                  (key in after <==> key in before) && (key in before ==> after[key] == before[key]))
            && ((forall i :: 0 <= i < |later| ==> !HasRewrap(later[i].edits)) ==>
                  now.disk.file.passphrase == w.disk.file.passphrase)
            && ((forall i :: 0 <= i < |later| ==> !HasRecovery(later[i].edits)) ==>
                  now.disk.file.recovery == w.disk.file.recovery)
  {
    LogOnlyGrows(init, w, acts);
    var now := Run(w, acts);
    var later := now.log[|w.log|..];
    assert now.log == w.log + later;
    ReplayAppend(init, w.log, later);
    CommitsSurvive(w.disk, later, key);
  }

  // ---- Destroy only after persist --------------------------------------------------------------

  /** When `import` is about to destroy its source, it holds the lock and the vault file on disk
      maps the key to the text that was read from that source. */
  lemma {:induction false} DestroyOnlyAfterPersist(init: Disk, w: World, acts: seq<Action>, p: Pid, path: Path,
                                                   key: string)
    requires Initial(init, w) && AboutTo(Run(w, acts), p, DestroySource(path, key))
    ensures var now := Run(w, acts);
            && now.holder == Some(p)
            && now.procs[p].source.Some? && now.procs[p].source.value.0 == path
            && now.disk.Sealed? && WellKeyedFile(now.disk.file)
            && Holds(now.disk.file.vault.plain, key, now.procs[p].source.value.1)
  {
    RunInv(init, w, acts);
    AboutToFacts(init, Run(w, acts), p, DestroySource(path, key));
  }

  /** The world after `p` has emptied the file it is rewriting and then written it, if nothing comes between. */
  function AfterRewrite(w: World, p: Pid): World {
    Next(Next(w, Step(p, Plain)), Step(p, Plain))
  }

  lemma {:induction false} RewriteTakesTwo(init: Disk, w: World, p: Pid)
    requires Inv(init, w) && AboutTo(w, p, RewriteSources) && w.procs[p].rewrites != []
    ensures var r := w.procs[p].rewrites[0];
            && r.path in w.sources && w.sources[r.path] == r.before && |r.after| == |r.before|
            && Next(w, Step(p, Plain)).sources == w.sources[r.path := []]
            && AfterRewrite(w, p).sources == w.sources[r.path := r.after]
  {
    hide Next, Inv, DisciplinedFrom, OpenOk, LineJustified, AllHeld, FlagsOf, PhaseFits;
    AboutToFacts(init, w, p, RewriteSources);
    var proc, r := w.procs[p], w.procs[p].rewrites[0];
    StepIs(w, p, Plain);
    var mid := Next(w, Step(p, Plain));
    assert mid.procs[p] == proc.(phase := Rewriting);
    StepIs(mid, p, Plain);
    assert w.sources[r.path := []][r.path := r.after] == w.sources[r.path := r.after];
  }

  /** When `adopt` is about to overwrite a source file, every line it changes becomes a pointer to
      a key under which the vault file on disk holds that line's parsed value. */
  lemma {:induction false} AdoptReplacesOnlyStored(init: Disk, w: World, acts: seq<Action>, p: Pid, line: nat)
    requires Initial(init, w) && AboutTo(Run(w, acts), p, RewriteSources)
    requires Run(w, acts).procs[p].rewrites != []
    requires var now := Run(w, acts);
             var path := now.procs[p].rewrites[0].path;
             var next := AfterRewrite(now, p);
             && path in now.sources && path in next.sources
             && line < |now.sources[path]| && line < |next.sources[path]|
             && now.sources[path][line] != next.sources[path][line]
    ensures var now := Run(w, acts);
            var path := now.procs[p].rewrites[0].path;
            var parsed := ParseDotenvLine(now.sources[path][line]);
            && parsed.Some? && now.disk.Sealed? && now.holder == Some(p)
            && exists key :: Holds(now.disk.file.vault.plain, key, parsed.value.1)
                 && AfterRewrite(now, p).sources[path][line] == Pointer(parsed.value.0, key)
  {
    hide AfterRewrite, Next, Run;
    RunInv(init, w, acts);
    var now := Run(w, acts);
    RewriteTakesTwo(init, now, p);
    AboutToFacts(init, now, p, RewriteSources);
    var proc := now.procs[p];
    var r := proc.rewrites[0];
    assert LineJustified(r.before[line], r.after[line], proc.expected);
    var parsed := ParseDotenvLine(r.before[line]);
    var n :| 0 <= n < |proc.expected| && parsed.Some? && parsed.value.1 == proc.expected[n].1
             && r.after[line] == Pointer(parsed.value.0, proc.expected[n].0);
    assert Holds(now.disk.file.vault.plain, proc.expected[n].0, proc.expected[n].1);
  }

  /** And the overwriting keeps every other line and the number of lines. */
  lemma {:induction false} AdoptKeepsTheRest(init: Disk, w: World, acts: seq<Action>, p: Pid)
    requires Initial(init, w) && AboutTo(Run(w, acts), p, RewriteSources)
    requires Run(w, acts).procs[p].rewrites != []
    ensures var now, next := Run(w, acts), AfterRewrite(Run(w, acts), p);
            var path := now.procs[p].rewrites[0].path;
            && path in now.sources && next.sources.Keys == now.sources.Keys
            && |next.sources[path]| == |now.sources[path]|
            && forall other :: other in now.sources && other != path ==>
                 next.sources[other] == now.sources[other]
  {
    hide AfterRewrite, Next, Run;
    RunInv(init, w, acts);
    RewriteTakesTwo(init, Run(w, acts), p);
  }

  // ---- The key hierarchy -------------------------------------------------------------------------

  /** In every reachable world the vault file opens, with exactly one passphrase and, if it has a
      recovery wrap, exactly one recovery phrase, and both yield the same contents. */
  lemma {:induction false} VaultAlwaysOpens(init: Disk, w: World, acts: seq<Action>, secret: Secret, words: nat)
    requires Initial(init, w) && Run(w, acts).disk.Sealed?
    ensures var f := Run(w, acts).disk.file;
            && WellKeyedFile(f) && PassphraseOf(Contents(f)).Passphrase?
            && LoadV2(Sealed(f), secret)
               == (if secret == PassphraseOf(Contents(f)) then Ok(Contents(f)) else Err(WrongPassphrase))
            && (f.recovery.Some? ==>
                  && f.recovery.value.blob.key.secret.Phrase?
                  && OpenWithMnemonic(Sealed(f), Some(words))
                     == if f.recovery.value.blob.key.secret == Phrase(words) then Ok(Contents(f))
                        else Err(InvalidPhrase))
  {
    RunInv(init, w, acts);
    WellKeyedFileOpens(Run(w, acts).disk.file, secret, words);
  }

  /** Changing the passphrase leaves the entries, the data key and the recovery phrase's access as
      they were; afterwards exactly the new passphrase opens the file. */
  lemma {:induction false} ChangePassphraseRewrapsOnly(v: Vault, text: string, salt: nat, nonce: nat, n: nat,
                                                       secret: Secret, words: Option<nat>)
    requires WellKeyed(v)
    ensures var v' := ApplyEdit(ChangePassphrase(v, Passphrase(text), salt, nonce), v);
            && WellKeyed(v') && v'.entries == v.entries && v'.dataKey == v.dataKey
            && (LoadV2(Sealed(SealFile(v', n)), secret).Ok? <==> secret == Passphrase(text))
            && (OpenWithMnemonic(Sealed(SealFile(v', n)), words).Ok?
                <==> OpenWithMnemonic(Sealed(SealFile(v, n)), words).Ok?)
  {
    var v' := ApplyEdit(ChangePassphrase(v, Passphrase(text), salt, nonce), v);
    SealedContents(v, n);
    SealedContents(v', n);
    WellKeyedFileOpens(SealFile(v', n), secret, 0);
  }

  /** A new recovery phrase opens the vault, every other phrase is void, and the passphrase is
      not affected. */
  lemma {:induction false} NewRecoveryKeyReplacesOldOne(v: Vault, entropy: nat, salt: nat, nonce: nat, n: nat,
                                                        secret: Secret, words: nat)
    requires WellKeyed(v)
    ensures var v' := ApplyEdit(GenerateRecoveryKey(v, entropy, salt, nonce), v);
            && WellKeyed(v') && v'.entries == v.entries && v'.dataKey == v.dataKey
            && (OpenWithMnemonic(Sealed(SealFile(v', n)), Some(words)).Ok? <==> words == entropy)
            && (LoadV2(Sealed(SealFile(v', n)), secret).Ok?
                <==> LoadV2(Sealed(SealFile(v, n)), secret).Ok?)
  {
    var v' := ApplyEdit(GenerateRecoveryKey(v, entropy, salt, nonce), v);
    SealedContents(v, n);
    SealedContents(v', n);
    WellKeyedFileOpens(SealFile(v', n), secret, words);
    WellKeyedFileOpens(SealFile(v, n), secret, words);
  }

  // ---- The agent -----------------------------------------------------------------------------------

  /** Whenever a key that some process put in the agent opens the vault, the passphrase it was
      derived from opens it too, to the same data key and entries. */
  lemma {:induction false} CachedOpenAgrees(init: Disk, w: World, acts: seq<Action>, key: Key)
    requires Initial(init, w) && key in Run(w, acts).agent
    requires OpenWithWrapKey(Run(w, acts).disk, key).Ok?
    ensures key.Derived?
    ensures LoadV2(Run(w, acts).disk, key.secret) == OpenWithWrapKey(Run(w, acts).disk, key)
  {
    RunInv(init, w, acts);
    assert AgentKeyOk(Run(w, acts), key);
  }

  /** A key derived from the vault file as it was at some time so far. */
  predicate Known(w: World, key: Key) {
    key.Derived? && key.salt in w.published
  }

  predicate IsStale(disk: Disk, key: Key) {
    OpenWithWrapKey(disk, key) == Err(StaleWrapKey)
  }

  lemma {:induction false} AgentKeysAreKnown(init: Disk, w: World, key: Key)
    requires Inv(init, w)
    ensures key in w.agent ==> Known(w, key)
    ensures (exists q :: q in w.procs && w.procs[q].phase == Caching(key)) ==> Known(w, key)
  {
    if q :| q in w.procs && w.procs[q].phase == Caching(key) {
      assert ProcOk(w, w.procs[q]);
    }
  }

  /** Who is about to write a new passphrase wrap has a well-keyed vault, under a salt nobody has seen. */
  lemma {:induction false} SaverFacts(init: Disk, w: World, p: Pid)
    requires Inv(init, w) && p in w.procs && w.procs[p].phase.Checked?
    ensures w.procs[p].store.Some? && w.procs[p].pc < |w.procs[p].prog| && WellKeyed(w.procs[p].store.value.vault)
    ensures HasRewrap(w.procs[p].store.value.edits) ==>
              w.procs[p].store.value.vault.wrapPassphrase.salt !in w.published
  {
    hide WellKeyed, DiskOk, LogOk, LockOk, FilesOk, KeysOk, SharedOk, DisciplinedFrom, AllHeld, Justified, HasRewrap;
    assert ProcOk(w, w.procs[p]);
    SavingFits(w.procs[p]);
    assert HasRewrap(w.procs[p].store.value.edits) ==>
        w.procs[p].store.value.vault.wrapPassphrase.salt in Pending(w.procs[p]);
  }

  lemma {:induction false} SaveWrites(w: World, p: Pid)
    requires p in w.procs && w.procs[p].phase.Checked? && w.procs[p].store.Some? && w.procs[p].pc < |w.procs[p].prog|
    ensures Continue(w, p).disk == Sealed(SealFile(w.procs[p].store.value.vault, w.counter))
  {
    hide SealFile;
  }

  lemma {:induction false} NewWrapIsStale(v: Vault, nonce: nat, key: Key)
    requires WellKeyed(v) && key.Derived? && key.salt != v.wrapPassphrase.salt
    ensures IsStale(Sealed(SealFile(v, nonce)), key)
  {
  }

  /** Committing a change of passphrase makes every wrap key that anyone has derived so far stale,
      whether it is in the agent or still on its way there. */
  lemma {:induction false} RekeyingMakesKeysStale(init: Disk, w: World, p: Pid, c: Choice, key: Key)
    requires Inv(init, w) && p in w.procs && w.procs[p].phase.Checked?
    requires w.procs[p].store.Some? && HasRewrap(w.procs[p].store.value.edits)
    requires Known(w, key) || key in w.agent
             || exists q :: q in w.procs && w.procs[q].phase == Caching(key)
    ensures IsStale(Next(w, Step(p, c)).disk, key)
  {
    hide Begin, Continue, Next, Inv, ProcOk, LocalOk, OpenOk, HasRewrap, IsStale, SealFile, WellKeyed, Pending;
    AgentKeysAreKnown(init, w, key);
    SaverFacts(init, w, p);
    StepIs(w, p, c);
    SaveWrites(w, p);
    NewWrapIsStale(w.procs[p].store.value.vault, w.counter, key);
  }

  /** And they stay stale until a snapshot is restored. */
  lemma {:induction false} StaleStaysStale(init: Disk, w: World, acts: seq<Action>, key: Key)
    requires Inv(init, w) && w.disk.Sealed? && Known(w, key) && IsStale(w.disk, key)
    requires NoRestore(Since(w, acts))
    ensures IsStale(Run(w, acts).disk, key)
  {
    hide Inv, Next;
    if acts != [] {
      var n := |acts| - 1;
      var mid, now := Run(w, acts[..n]), Run(w, acts);
      LogOnlyGrows(init, w, acts[..n]);
      OneStepGrows(init, mid, acts[n]);
      assert Since(w, acts)[..|mid.log| - |w.log|] == Since(w, acts[..n]);
      assert |mid.log| < |now.log| ==> now.log[|mid.log|] == Since(w, acts)[|mid.log| - |w.log|];
      StaleStaysStale(init, w, acts[..n], key);
      StaleStepStaysStale(init, mid, acts[n], key);
    }
  }

  lemma {:induction false} StaleStepStaysStale(init: Disk, w: World, a: Action, key: Key)
    requires Inv(init, w) && w.disk.Sealed? && Known(w, key) && IsStale(w.disk, key)
    requires |w.log| < |Next(w, a).log| ==> !Next(w, a).log[|w.log|].Restored?
    ensures IsStale(Next(w, a).disk, key)
  {
    hide Next, Continue, Inv, ApplyEdits;
    OnlyWritesChangeFile(w, a);
    if a.Step? && AtWrite(w, a.pid) && Next(w, a) == Continue(w, a.pid) {
      WriteShape(init, w, a.pid);
      var proc := w.procs[a.pid];
      if proc.phase.Checked? {
        if HasRewrap(proc.store.value.edits) {
          RekeyingMakesKeysStale(init, w, a.pid, a.choice, key);
        } else {
          EditsKeep(proc.store.value.edits, Contents(w.disk.file));
        }
      }
    }
  }

  /** With a stale key, opening goes on to the passphrase as if there were no agent. */
  lemma {:induction false} StaleKeyFallsBack(init: Disk, w: World, p: Pid, text: string, key: Key)
    requires Inv(init, w) && AboutTo(w, p, OpenVault(text)) && IsStale(w.disk, key)
    ensures Next(w, Step(p, UseAgent(key))) == Next(w, Step(p, Plain))
    ensures Next(w, Step(p, UseAgent(key))).procs[p].phase == Loading
  {
  }

  // ---- Founded once --------------------------------------------------------------------------------

  /** However many processes find the vault missing, or in version 1, at the same time: at most one
      of them creates or migrates it, before any other write. Until a snapshot is restored, every
      process that has opened it holds that one data key. */
  lemma {:induction false} FoundedOnce(init: Disk, w: World, acts: seq<Action>, p: Pid, i: nat)
    requires Initial(init, w)
    ensures var now := Run(w, acts);
            i < |now.log| && (now.log[i].Created? || now.log[i].Migrated?) ==> i == 0
    ensures var now := Run(w, acts);
            p in now.procs && now.procs[p].store.Some? && NoRestore(now.log) ==>
              && now.disk.Sealed?
              && now.procs[p].store.value.vault.dataKey == now.disk.file.vault.key
  {
    hide Next, Run, LocalOk, SharedOk, DiskOk, FilesOk;
    RunInv(init, w, acts);
    var now := Run(w, acts);
    if p in now.procs {
      assert ProcOk(now, now.procs[p]);
    }
  }

  /** A vault that existed before anything ran is never re-founded. */
  lemma {:induction false} ExistingVaultIsKept(init: Disk, w: World, acts: seq<Action>, i: nat)
    requires Initial(init, w) && init.Sealed? && i < |Run(w, acts).log|
    ensures Run(w, acts).log[i].Saved? || Run(w, acts).log[i].Restored?
    decreases |acts|
  {
    hide Inv, Next, Continue;
    var n := |acts| - 1;
    var mid := Run(w, acts[..n]);
    InitialInv(init, w);
    LogOnlyGrows(init, w, acts[..n]);
    OneStepGrows(init, mid, acts[n]);
    if i < |mid.log| {
      ExistingVaultIsKept(init, w, acts[..n], i);
    } else {
      OnlyWritesChangeFile(mid, acts[n]);
      WriteShape(init, mid, acts[n].pid);
    }
  }
}
