/** The single steps of the instructions, one lemma each. */
module ProtocolActions {
  import opened Common
  import opened VaultFormat
  import opened Adopt
  import opened Protocol
  import opened ProtocolInvariant
  import opened ProtocolSteps

  /** Process `p` is about to begin its instruction `i`. */
  predicate AboutTo(w: World, p: Pid, i: Instr) {
    && p in w.procs && w.procs[p].phase.Ready?
    && w.procs[p].pc < |w.procs[p].prog| && w.procs[p].prog[w.procs[p].pc] == i
  }

  lemma {:induction false} AboutToFacts(init: Disk, w: World, p: Pid, i: Instr)
    requires Inv(init, w) && AboutTo(w, p, i)
    ensures ProcOk(w, w.procs[p]) && Allowed(i, FlagsOf(w.procs[p]))
    ensures HoldsLock(w.procs[p]) <==> w.procs[p].store.Some? && w.procs[p].store.value.locked
    ensures HoldsLock(w.procs[p]) <==> w.holder == Some(p)
    ensures w.disk.Sealed? ==> WellKeyedFile(w.disk.file)
  {
    assert ProcOk(w, w.procs[p]);
  }

  lemma {:induction false} StepIs(w: World, p: Pid, c: Choice)
    requires p in w.procs && w.procs[p].pc < |w.procs[p].prog| && !w.procs[p].phase.Stopped?
    ensures w.procs[p].phase.Ready? ==> Next(w, Step(p, c)) == Begin(w, p, c)
    ensures !w.procs[p].phase.Ready? ==> Next(w, Step(p, c)) == Continue(w, p)
  {
    hide Begin, Continue;
  }

  // ---- Edits -------------------------------------------------------------------------------

  lemma {:induction false} MutateInv(init: Disk, w: World, p: Pid, m: Mutation)
    requires Inv(init, w) && AboutTo(w, p, Mutate(m)) && w.procs[p].store.Some?
    ensures Inv(init, Begin(w, p, Plain))
  {
    hide LocalOk, SharedOk, HoldsLock, DiskOk, LogOk, FilesOk, LockOk, KeysOk;
    var proc := w.procs[p];
    AboutToFacts(init, w, p, Mutate(m));
    var edit := ResolveMutation(m, proc.store.value.vault, w.counter);
    if Refusal(edit, proc.store.value.vault.entries).Some? {
      StopInv(init, w, p);
    } else {
      assert proc.expected + [] == proc.expected;
      EditedInv(init, w, p, edit, [], None, w.counter + 3);
    }
  }

  lemma {:induction false} SetPairIs(w: World, p: Pid, key: string, value: string, tier: nat, now: int)
    requires p in w.procs && w.procs[p].store.Some?
    ensures SetPair(w, p, key, value, tier, now)
         == if Refusal(SetEdit(key, value, tier, now), w.procs[p].store.value.vault.entries).Some?
            then Stop(w, p)
            else Put(w, p, EditedProc(w.procs[p], SetEdit(key, value, tier, now), [(key, value)], None))
  {
    var edit := SetEdit(key, value, tier, now);
    var proc := w.procs[p];
    if Refusal(edit, proc.store.value.vault.entries).None? {
      var done := EditedProc(proc, edit, [(key, value)], None);
      var mid := Edited(w, p, edit, w.counter);
      assert mid.procs[p].expected == proc.expected;
      assert mid.procs[p := done] == w.procs[p := done] by {
        assert mid.procs == w.procs[p := mid.procs[p]];
      }
    }
  }

  lemma {:induction false} SetValueInv(init: Disk, w: World, p: Pid, key: string, value: string, tier: Option<nat>,
                                       now: int)
    requires Inv(init, w) && AboutTo(w, p, SetValue(key, value, tier, now)) && w.procs[p].store.Some?
    ensures Inv(init, Begin(w, p, Plain))
  {
    hide LocalOk, SharedOk, HoldsLock, DiskOk, LogOk, FilesOk, LockOk, KeysOk, SetPair, Refusal;
    var proc := w.procs[p];
    AboutToFacts(init, w, p, SetValue(key, value, tier, now));
    var at := TierFor(tier, key, proc.store.value.vault.entries);
    var edit := SetEdit(key, value, at, now);
    SetPairIs(w, p, key, value, at, now);
    if Refusal(edit, proc.store.value.vault.entries).Some? {
      StopInv(init, w, p);
    } else {
      EditedInv(init, w, p, edit, [(key, value)], None, w.counter);
    }
  }

  lemma {:induction false} SetSourceInv(init: Disk, w: World, p: Pid, key: string, tier: nat, now: int)
    requires Inv(init, w) && AboutTo(w, p, SetSource(key, tier, now))
    requires w.procs[p].store.Some? && w.procs[p].source.Some?
    ensures Inv(init, Begin(w, p, Plain))
  {
    hide LocalOk, SharedOk, HoldsLock, DiskOk, LogOk, FilesOk, LockOk, KeysOk, SetPair, Refusal;
    var proc := w.procs[p];
    AboutToFacts(init, w, p, SetSource(key, tier, now));
    var value := proc.source.value.1;
    var edit := SetEdit(key, value, tier, now);
    SetPairIs(w, p, key, value, tier, now);
    if Refusal(edit, proc.store.value.vault.entries).Some? {
      StopInv(init, w, p);
    } else {
      EditedInv(init, w, p, edit, [(key, value)], Some(key), w.counter);
      var done := EditedProc(proc, edit, [(key, value)], Some(key));
      assert Begin(w, p, Plain) == Put(w, p, done) by {
        var mid := EditedProc(proc, edit, [(key, value)], None);
        assert w.procs[p := mid][p := done] == w.procs[p := done];
      }
    }
  }

  // ---- Steps that only concern the process itself ---------------------------------------------

  /** The process moves on; its store and its planned rewrites stay as they are. */
  lemma {:induction false} LocalInv(init: Disk, w: World, p: Pid, proc': Proc)
    requires Inv(init, w) && p in w.procs
    requires var proc := w.procs[p];
             && proc.pc < |proc.prog| && (proc.phase.Ready? || proc.phase.Caching?)
             && proc' == proc.(pc := proc.pc + 1, phase := Ready, verified := proc'.verified,
                               source := proc'.source, taken := proc'.taken)
             && FlagsOf(proc') == After(proc.prog[proc.pc], FlagsOf(proc))
             && (proc'.store.Some? && proc'.store.value.locked && proc'.verified ==>
                   AllHeld(proc'.store.value.loaded.vault.plain, proc'.expected))
             && ((proc'.source == proc.source && proc'.taken == proc.taken) || proc'.taken == {})
    ensures Inv(init, Put(w, p, proc'))
  {
    hide LocalOk, SharedOk, HoldsLock, DiskOk, LogOk, KeysOk, FilesOk, LockOk, FlagsOf, After, AllHeld, Pending;
    var proc, w' := w.procs[p], Put(w, p, proc');
    assert ProcOk(w, proc);
    LocalFacts(proc, proc');
    if HoldsLock(proc) {
      LocalShared(w, w', proc, proc');
    }
    FilesAt(w, w');
    AdvanceInv(init, w, w', p);
  }

  lemma {:induction false} LocalFacts(proc: Proc, proc': Proc)
    requires LocalOk(proc) && proc.pc < |proc.prog| && (proc.phase.Ready? || proc.phase.Caching?)
    requires proc' == proc.(pc := proc.pc + 1, phase := Ready, verified := proc'.verified,
                            source := proc'.source, taken := proc'.taken)
    requires FlagsOf(proc') == After(proc.prog[proc.pc], FlagsOf(proc))
    requires proc'.store.Some? && proc'.store.value.locked && proc'.verified ==>
               AllHeld(proc'.store.value.loaded.vault.plain, proc'.expected)
    requires (proc'.source == proc.source && proc'.taken == proc.taken) || proc'.taken == {}
    ensures LocalOk(proc') && Pending(proc') == Pending(proc)
    ensures HoldsLock(proc') <==> HoldsLock(proc)
  {
    hide DisciplinedFrom, AllHeld;
    Advance(proc, proc');
  }

  lemma {:induction false} LocalShared(w: World, w': World, proc: Proc, proc': Proc)
    requires SharedOk(w, proc) && proc'.phase.Ready? && !proc.phase.Rewriting?
    requires proc'.store == proc.store && proc'.rewrites == proc.rewrites
    requires w.disk == w'.disk && w.sources == w'.sources
    ensures SharedOk(w', proc')
  {
  }

  lemma {:induction false} FilesAt(w: World, w': World)
    requires FilesOk(w) && w'.disk == w.disk && w'.snapshots == w.snapshots && w'.agent == w.agent
    requires w'.published == w.published && w.counter <= w'.counter
    ensures FilesOk(w')
  {
  }

  // ---- Verifying, and what follows it --------------------------------------------------------

  lemma {:induction false} VerifyInv(init: Disk, w: World, p: Pid)
    requires Inv(init, w) && AboutTo(w, p, Verify) && w.procs[p].store.Some?
    ensures Inv(init, Begin(w, p, Plain))
  {
    hide LocalOk, DiskOk, LogOk, KeysOk, FilesOk, LockOk;
    AboutToFacts(init, w, p, Verify);
    var proc := w.procs[p];
    if VerifyPersisted(proc.store.value.vault.dataKey, w.disk, proc.expected).Err? {
      StopInv(init, w, p);
    } else {
      LocalInv(init, w, p, Done(proc.(verified := true)));
    }
  }

  lemma {:induction false} ReadSourceInv(init: Disk, w: World, p: Pid, path: Path)
    requires Inv(init, w) && AboutTo(w, p, ReadSource(path))
    ensures Inv(init, Begin(w, p, Plain))
  {
    hide LocalOk, SharedOk, HoldsLock, DiskOk, LogOk, KeysOk, FilesOk, LockOk;
    AboutToFacts(init, w, p, ReadSource(path));
    if path !in w.sources || TrimmedText(w.sources[path]) == "" {
      StopInv(init, w, p);
    } else {
      VerifiedKept(w, w.procs[p]);
      LocalInv(init, w, p, Begin(w, p, Plain).procs[p]);
    }
  }

  lemma {:induction false} VerifiedKept(w: World, proc: Proc)
    requires ProcOk(w, proc)
    ensures proc.store.Some? && proc.store.value.locked && proc.verified ==>
              AllHeld(proc.store.value.loaded.vault.plain, proc.expected)
  {
  }

  lemma {:induction false} CacheKeyInv(init: Disk, w: World, p: Pid, text: string, c: Choice)
    requires Inv(init, w) && AboutTo(w, p, CacheKey(text))
    ensures Inv(init, Begin(w, p, c))
  {
    hide LocalOk, DiskOk, LogOk, KeysOk, LockOk, Begin;
    AboutToFacts(init, w, p, CacheKey(text));
    CacheKeyBegins(w, p, text, c);
    var proc := w.procs[p];
    if c.Skip? || DeriveWrapKey(w.disk, Passphrase(text)).Err? {
      VerifiedKept(w, proc);
      LocalInv(init, w, p, Done(proc));
    } else {
      var key := DeriveWrapKey(w.disk, Passphrase(text)).value;
      SharedInPhase(w, proc, Caching(key));
      PhaseInv(init, w, p, Caching(key), w.holder);
    }
  }

  lemma {:induction false} CacheKeyBegins(w: World, p: Pid, text: string, c: Choice)
    requires AboutTo(w, p, CacheKey(text))
    ensures var key := DeriveWrapKey(w.disk, Passphrase(text));
            Begin(w, p, c) == if c.Skip? || key.Err? then Put(w, p, Done(w.procs[p])) else At(w, p, Caching(key.value))
  {
    hide DeriveWrapKey;
  }

  lemma {:induction false} SharedInPhase(w: World, proc: Proc, phase: Phase)
    requires phase.Caching? || phase.Refreshing? || phase.Saving?
    requires proc.phase.Ready? && (HoldsLock(proc) ==> SharedOk(w, proc))
    ensures proc.store.Some? && proc.store.value.locked ==> SharedOk(w, proc.(phase := phase))
  {
  }

  lemma {:induction false} CachedInv(init: Disk, w: World, p: Pid)
    requires Inv(init, w) && p in w.procs && w.procs[p].phase.Caching?
    requires w.procs[p].pc < |w.procs[p].prog|
    ensures Inv(init, Continue(w, p))
  {
    hide LocalOk, SharedOk, HoldsLock, DiskOk, LogOk, LockOk;
    var proc := w.procs[p];
    assert ProcOk(w, proc);
    VerifiedKept(w, proc);
    CachingAt(w, proc);
    LocalInv(init, w, p, Done(proc));
    AgentInv(init, Put(w, p, Done(proc)), w.agent + {proc.phase.key});
  }

  lemma {:induction false} CachingAt(w: World, proc: Proc)
    requires ProcOk(w, proc) && proc.phase.Caching?
    ensures proc.prog[proc.pc].CacheKey?
  {
  }

  lemma {:induction false} AgentInv(init: Disk, w: World, agent: set<Key>)
    requires Inv(init, w) && forall key :: key in agent ==> AgentKeyOk(w, key)
    ensures Inv(init, w.(agent := agent))
  {
    hide LocalOk, SharedOk, HoldsLock;
    var w' := w.(agent := agent);
    forall p | p in w'.procs ensures ProcOk(w', w'.procs[p]) {
      assert ProcOk(w, w.procs[p]);
      if HoldsLock(w.procs[p]) {
        SharedKeeps(w, w', w.procs[p]);
      }
    }
  }

  // ---- Source files and snapshots --------------------------------------------------------------

  lemma {:induction false} DestroyInv(init: Disk, w: World, p: Pid, path: Path, key: string)
    requires Inv(init, w) && AboutTo(w, p, DestroySource(path, key))
    ensures Inv(init, Begin(w, p, Plain))
  {
    hide DiskOk, LogOk, KeysOk;
    AboutToFacts(init, w, p, DestroySource(path, key));
    var proc := w.procs[p];
    if path !in w.sources {
      StopInv(init, w, p);
    } else {
      var w' := Begin(w, p, Plain);
      Advance(proc, w'.procs[p]);
      assert proc.rewrites == [];
      AdvanceInv(init, w, w', p);
    }
  }

  lemma {:induction false} CheckInv(init: Disk, w: World, p: Pid, need: Need)
    requires Inv(init, w) && AboutTo(w, p, Check(need))
    ensures Inv(init, Begin(w, p, Plain))
  {
    hide LocalOk, DiskOk, LogOk, KeysOk, LockOk, Meets;
    AboutToFacts(init, w, p, Check(need));
    var proc := w.procs[p];
    if proc.store.None? || !Meets(proc.store.value.vault.entries, need) {
      StopInv(init, w, p);
    } else {
      VerifiedKept(w, proc);
      LocalInv(init, w, p, Done(proc));
    }
  }

  lemma {:induction false} DropKeysInv(init: Disk, w: World, p: Pid, c: Choice)
    requires Inv(init, w) && AboutTo(w, p, DropKeys)
    ensures Inv(init, Begin(w, p, c))
  {
    hide LocalOk, DiskOk, LogOk, KeysOk, LockOk;
    AboutToFacts(init, w, p, DropKeys);
    VerifiedKept(w, w.procs[p]);
    LocalInv(init, w, p, Done(w.procs[p]));
    AgentInv(init, Put(w, p, Done(w.procs[p])), {});
  }

  lemma {:induction false} BackupInv(init: Disk, w: World, p: Pid)
    requires Inv(init, w) && AboutTo(w, p, Backup)
    ensures Inv(init, Begin(w, p, Plain))
  {
    hide LocalOk, DiskOk, LogOk, KeysOk, LockOk;
    AboutToFacts(init, w, p, Backup);
    VerifiedKept(w, w.procs[p]);
    LocalInv(init, w, p, Done(w.procs[p]));
    if w.disk.Sealed? {
      SnapshotInv(init, Put(w, p, Done(w.procs[p])));
    }
  }

  lemma {:induction false} SnapshotInv(init: Disk, w: World)
    requires Inv(init, w) && w.disk.Sealed?
    ensures Inv(init, w.(snapshots := w.snapshots + {w.disk.file}))
  {
    hide LocalOk, SharedOk, HoldsLock;
    var w' := w.(snapshots := w.snapshots + {w.disk.file});
    forall p | p in w'.procs ensures ProcOk(w', w'.procs[p]) {
      assert ProcOk(w, w.procs[p]);
      if HoldsLock(w.procs[p]) {
        SharedKeeps(w, w', w.procs[p]);
      }
    }
  }
}
