/** Every action keeps the protocol invariant. */
module ProtocolSteps {
  import opened Common
  import opened VaultFormat
  import opened Adopt
  import opened Protocol
  import opened ProtocolInvariant

  // ---- Framing -----------------------------------------------------------------------------

  /** What process `p` may do to the shared state: anything while it owns the lock; otherwise it
      only adds random numbers and snapshots. */
  predicate Frames(w: World, w': World, p: Pid) {
    && p in w'.procs && w'.procs == w.procs[p := w'.procs[p]]
    && w.counter <= w'.counter && w.snapshots <= w'.snapshots && w.published <= w'.published
    && (w.disk.Sealed? ==> w'.disk.Sealed?)
    && (w.holder == Some(p) ||
        (w.disk == w'.disk && w.sources == w'.sources && w.v1bak == w'.v1bak && w.log == w'.log))
    && (forall q, n :: q in w.procs && q != p && n in Pending(w.procs[q]) ==>
          n in w.published || n !in w'.published)
  }

  lemma {:induction false} OthersKeep(w: World, w': World, p: Pid, q: Pid)
    requires ProcsOk(w) && LockOk(w) && Frames(w, w', p)
    requires q in w.procs && q != p
    ensures ProcOk(w', w.procs[q])
  {
    assert ProcOk(w, w.procs[q]);
    if HoldsLock(w.procs[q]) {
      assert w.holder == Some(q);
      assert SharedOk(w, w.procs[q]);
      SharedKeeps(w, w', w.procs[q]);
    }
  }

  lemma {:induction false} SharedKeeps(w: World, w': World, proc: Proc)
    requires SharedOk(w, proc) && w.snapshots <= w'.snapshots
    requires w.disk == w'.disk && w.sources == w'.sources && w.v1bak == w'.v1bak && w.log == w'.log
    ensures SharedOk(w', proc)
  {
  }

  /** The acting process accounts for the lock. */
  predicate LockFits(w: World, w': World, p: Pid) {
    && p in w'.procs
    && (HoldsLock(w'.procs[p]) <==> w'.holder == Some(p))
    && (w'.holder == w.holder || (w.holder in {None, Some(p)} && w'.holder in {None, Some(p)}))
  }

  predicate NoRestore(log: seq<Commit>) {
    forall i :: 0 <= i < |log| ==> !log[i].Restored?
  }

  /** The parts of the invariant that an action has to re-establish about shared state and the
      acting process; everything about other processes follows. */
  lemma {:induction false} StepInv(init: Disk, w: World, w': World, p: Pid)
    requires Inv(init, w) && Frames(w, w', p) && LockFits(w, w', p)
    requires DiskOk(init, w') && LogOk(init, w') && FilesOk(w')
    requires ProcOk(w', w'.procs[p])
    requires forall n :: n in Pending(w'.procs[p]) ==>
               n >= w.counter || (p in w.procs && n in Pending(w.procs[p]))
    requires NoRestore(w'.log) ==>
               && NoRestore(w.log)
               && (w.disk.Sealed? ==> w'.disk.Sealed? && w'.disk.file.vault.key == w.disk.file.vault.key)
               && (w'.procs[p].store.Some? && w'.disk.Sealed? ==>
                     w'.procs[p].store.value.vault.dataKey == w'.disk.file.vault.key)
    ensures Inv(init, w')
  {
    hide LocalOk, SharedOk, HoldsLock, DiskOk, LogOk, FilesOk;
    forall q | q in w'.procs ensures ProcOk(w', w'.procs[q]) {
      if q != p {
        OthersKeep(w, w', p, q);
      }
    }
    forall q, r | q in w'.procs && r in w'.procs && q != r
      ensures Pending(w'.procs[q]) !! Pending(w'.procs[r])
    {
      PendingStayDisjoint(w, w', p, q, r);
    }
    assert LockOk(w') by {
      forall q | q in w'.procs ensures HoldsLock(w'.procs[q]) <==> w'.holder == Some(q) {
      }
    }
    assert KeysOk(w') by {
      if NoRestore(w'.log) {
        forall q | q in w'.procs && w'.procs[q].store.Some? && w'.disk.Sealed?
          ensures w'.procs[q].store.value.vault.dataKey == w'.disk.file.vault.key
        {
          if q != p {
            assert ProcOk(w, w.procs[q]);
          }
        }
      }
    }
  }

  lemma {:induction false} PendingStayDisjoint(w: World, w': World, p: Pid, q: Pid, r: Pid)
    requires ProcsOk(w) && Frames(w, w', p)
    requires forall n :: n in Pending(w'.procs[p]) ==>
               n >= w.counter || (p in w.procs && n in Pending(w.procs[p]))
    requires q in w'.procs && r in w'.procs && q != r
    ensures Pending(w'.procs[q]) !! Pending(w'.procs[r])
  {
    if q == p {
      assert ProcOk(w, w.procs[r]);
    } else if r == p {
      assert ProcOk(w, w.procs[q]);
    } else {
      assert w'.procs[q] == w.procs[q] && w'.procs[r] == w.procs[r];
    }
  }

  /** An action that leaves the vault file and its history alone. */
  lemma {:induction false} QuietInv(init: Disk, w: World, w': World, p: Pid)
    requires Inv(init, w) && p in w'.procs && w'.procs == w.procs[p := w'.procs[p]]
    requires w'.disk == w.disk && w'.log == w.log && w'.published == w.published
    requires w.counter <= w'.counter && w.snapshots <= w'.snapshots
    requires w'.v1bak == w.v1bak || (w.holder == Some(p) && !w.disk.Torn?)
    requires w'.sources == w.sources || w.holder == Some(p)
    requires LockFits(w, w', p) && FilesOk(w') && ProcOk(w', w'.procs[p])
    requires forall n :: n in Pending(w'.procs[p]) ==>
               n >= w.counter || (p in w.procs && n in Pending(w.procs[p]))
    requires w'.procs[p].store.Some? && NoRestore(w.log) && w.disk.Sealed? ==>
                 w'.procs[p].store.value.vault.dataKey == w.disk.file.vault.key
    ensures Inv(init, w')
  {
    hide LocalOk, SharedOk, HoldsLock;
    StepInv(init, w, w', p);
  }

  // ---- Ending ------------------------------------------------------------------------------

  lemma {:induction false} StopInv(init: Disk, w: World, p: Pid)
    requires Inv(init, w) && p in w.procs
    ensures Inv(init, Stop(w, p))
  {
    hide LocalOk, SharedOk, HoldsLock, DiskOk, LogOk, KeysOk;
    var w' := Stop(w, p);
    assert ProcOk(w, w.procs[p]);
    StoppedOk(w, w', w.procs[p]);
    QuietInv(init, w, w', p);
  }

  lemma {:induction false} StoppedOk(w: World, w': World, proc: Proc)
    requires ProcOk(w, proc)
    ensures ProcOk(w', proc.(phase := Stopped, store := None))
    ensures !HoldsLock(proc.(phase := Stopped, store := None))
    ensures Pending(proc.(phase := Stopped, store := None)) == {}
  {
  }

  lemma {:induction false} StartInv(init: Disk, w: World, p: Pid, prog: seq<Instr>)
    requires Inv(init, w)
    ensures Inv(init, Next(w, Start(p, prog)))
  {
    hide DiskOk, LogOk;
    if p !in w.procs && Disciplined(prog) {
      QuietInv(init, w, Next(w, Start(p, prog)), p);
    }
  }

  lemma {:induction false} ForgetInv(init: Disk, w: World, keys: set<Key>)
    requires Inv(init, w)
    ensures Inv(init, Next(w, Forget(keys)))
  {
    hide LocalOk, SharedOk, HoldsLock;
    var w' := Next(w, Forget(keys));
    forall p | p in w'.procs ensures ProcOk(w', w'.procs[p]) {
      assert ProcOk(w, w.procs[p]);
      if HoldsLock(w.procs[p]) {
        SharedKeeps(w, w', w.procs[p]);
      }
    }
  }

  // ---- Moving inside an instruction --------------------------------------------------------

  /** A process that only changes phase, possibly taking or releasing the lock. */
  lemma {:induction false} PhaseInv(init: Disk, w: World, p: Pid, phase: Phase, holder: Option<Pid>)
    requires Inv(init, w) && p in w.procs && !w.procs[p].phase.Stopped? && !phase.Stopped?
    requires var proc' := w.procs[p].(phase := phase);
             && PhaseFits(proc')
             && (HoldsLock(proc') <==> holder == Some(p))
             && (HoldsLock(proc') ==> SharedOk(w, proc'))
             && (phase.Caching? ==> AgentKeyOk(w, phase.key))
    requires holder == w.holder || (w.holder in {None, Some(p)} && holder in {None, Some(p)})
    ensures Inv(init, At(w, p, phase).(holder := holder))
  {
    hide LocalOk, SharedOk, HoldsLock, PhaseFits, DiskOk, LogOk;
    var w' := At(w, p, phase).(holder := holder);
    assert ProcOk(w, w.procs[p]);
    PhaseOk(w, w', w.procs[p], phase);
    QuietInv(init, w, w', p);
  }

  lemma {:induction false} PhaseOk(w: World, w': World, proc: Proc, phase: Phase)
    requires ProcOk(w, proc) && !proc.phase.Stopped? && !phase.Stopped?
    requires PhaseFits(proc.(phase := phase))
    requires HoldsLock(proc.(phase := phase)) ==> SharedOk(w, proc.(phase := phase))
    requires phase.Caching? ==> AgentKeyOk(w, phase.key)
    requires w' == w.(procs := w'.procs, holder := w'.holder)
    ensures ProcOk(w', proc.(phase := phase))
  {
    assert FlagsOf(proc.(phase := phase)) == FlagsOf(proc);
    if HoldsLock(proc.(phase := phase)) {
      SharedKeeps(w, w', proc.(phase := phase));
    }
  }

  /** Taking the lock for a phase that requires nothing of the file yet. */
  lemma {:induction false} LockInv(init: Disk, w: World, p: Pid, phase: Phase)
    requires Inv(init, w) && p in w.procs && !w.procs[p].phase.Stopped?
    requires !HoldsLock(w.procs[p])
    requires phase.Creating? || phase.Migrating? || phase.Refreshing? || phase.Saving? || phase.Restoring?
    requires PhaseFits(w.procs[p].(phase := phase))
    requires SharedOk(w, w.procs[p].(phase := phase))
    ensures Inv(init, Lock(w, p, phase))
  {
    if w.holder == None {
      PhaseInv(init, w, p, phase, Some(p));
    }
  }

  // ---- Advancing to the next instruction ---------------------------------------------------

  lemma {:induction false} Advance(proc: Proc, proc': Proc)
    requires LocalOk(proc) && !proc.phase.Stopped? && proc.pc < |proc.prog|
    requires proc'.prog == proc.prog && proc'.pc == proc.pc + 1
    requires FlagsOf(proc') == After(proc.prog[proc.pc], FlagsOf(proc))
    ensures DisciplinedFrom(proc'.prog, proc'.pc, FlagsOf(proc'))
    ensures Allowed(proc.prog[proc.pc], FlagsOf(proc))
  {
  }

  /** A process that finishes an instruction without touching the vault file. */
  predicate Advances(w: World, w': World, p: Pid) {
    && p in w.procs && p in w'.procs
    && w.procs[p].pc < |w.procs[p].prog| && !w.procs[p].phase.Stopped?
    && w'.procs == w.procs[p := w'.procs[p]]
    && w'.procs[p].prog == w.procs[p].prog && w'.procs[p].pc == w.procs[p].pc + 1
    && w'.procs[p].phase == Ready
    && FlagsOf(w'.procs[p]) == After(w.procs[p].prog[w.procs[p].pc], FlagsOf(w.procs[p]))
    && w'.disk == w.disk && w'.log == w.log && w'.published == w.published
    && w'.v1bak == w.v1bak && w.counter <= w'.counter && w.snapshots <= w'.snapshots
  }

  /** Opening: the store is what the file contains. */
  lemma {:induction false} OpenInv(init: Disk, w: World, p: Pid, v: Vault)
    requires Inv(init, w) && p in w.procs
    requires var proc := w.procs[p];
             && proc.pc < |proc.prog| && (proc.phase.Ready? || proc.phase.Loading?)
             && (proc.prog[proc.pc].OpenVault? || proc.prog[proc.pc].OpenRecovery?)
    requires w.disk.Sealed? && v == Contents(w.disk.file)
    ensures Inv(init, Put(w, p, Done(w.procs[p].(store := Opened(v, w.disk.file)))))
  {
    hide LocalOk, SharedOk, HoldsLock, DiskOk, LogOk;
    var w' := Put(w, p, Done(w.procs[p].(store := Opened(v, w.disk.file))));
    assert ProcOk(w, w.procs[p]);
    OpenedOk(w, w', w.procs[p], v, w.disk.file);
    QuietInv(init, w, w', p);
  }

  lemma {:induction false} OpenedOk(w: World, w': World, proc: Proc, v: Vault, file: VaultFile)
    requires ProcOk(w, proc) && WellKeyedFile(file) && v == Contents(file) && w'.disk.Sealed?
    requires proc.pc < |proc.prog| && (proc.phase.Ready? || proc.phase.Loading? || proc.phase.Minting?)
    requires proc.prog[proc.pc].OpenVault? || proc.prog[proc.pc].OpenRecovery?
    ensures var proc' := Done(proc.(store := Opened(v, file)));
            ProcOk(w', proc') && !HoldsLock(proc') && Pending(proc') == {}
    ensures !HoldsLock(proc) || proc.phase.Minting?
  {
    var proc' := Done(proc.(store := Opened(v, file)));
    Advance(proc, proc') by {
      assert FlagsOf(proc') == FlagsOf(proc).(hasStore := true);
    }
    assert ApplyEdits([], v) == v;
  }

  // ---- Instructions that change the process's own store ------------------------------------

  /** `Advances`, with the shared files untouched or touched under the lock. */
  lemma {:induction false} AdvanceInv(init: Disk, w: World, w': World, p: Pid)
    requires Inv(init, w) && Advances(w, w', p) && w'.holder == w.holder
    requires w'.sources == w.sources || w.holder == Some(p)
    requires FilesOk(w') && LocalOk(w'.procs[p])
    requires HoldsLock(w'.procs[p]) <==> HoldsLock(w.procs[p])
    requires HoldsLock(w'.procs[p]) ==> SharedOk(w', w'.procs[p])
    requires w'.procs[p].store.Some? ==>
               && w.procs[p].store.Some?
               && w'.procs[p].store.value.vault.dataKey == w.procs[p].store.value.vault.dataKey
    requires forall n :: n in Pending(w'.procs[p]) ==>
               n in Pending(w.procs[p]) || w.counter <= n < w'.counter
    ensures Inv(init, w')
  {
    hide LocalOk, SharedOk, HoldsLock, DiskOk, LogOk;
    assert ProcOk(w, w.procs[p]);
    QuietInv(init, w, w', p);
  }

  lemma {:induction false} HasRewrapAppend(edits: seq<Edit>, more: seq<Edit>)
    ensures HasRewrap(edits + more) <==> HasRewrap(edits) || HasRewrap(more)
  {
    if HasRewrap(edits) {
      var i :| 0 <= i < |edits| && edits[i].RewrapEdit?;
      assert (edits + more)[i].RewrapEdit?;
    }
    if HasRewrap(more) {
      var i :| 0 <= i < |more| && more[i].RewrapEdit?;
      assert (edits + more)[|edits| + i].RewrapEdit?;
    }
  }

  lemma {:induction false} ApplyAppend(edits: seq<Edit>, more: seq<Edit>, v: Vault)
    ensures ApplyEdits(edits + more, v) == ApplyEdits(more, ApplyEdits(edits, v))
  {
    if more == [] {
      assert edits + more == edits;
    } else {
      var n := |more| - 1;
      ApplyAppend(edits, more[..n], v);
      assert (edits + more)[..|edits| + n] == edits + more[..n];
    }
  }

  /** Edits never change the data key, and without a re-wrap never the passphrase wrap. */
  lemma {:induction false} EditsKeep(edits: seq<Edit>, v: Vault)
    ensures ApplyEdits(edits, v).dataKey == v.dataKey && ApplyEdits(edits, v).kdf == v.kdf
    ensures !HasRewrap(edits) ==> ApplyEdits(edits, v).wrapPassphrase == v.wrapPassphrase
  {
    if edits != [] {
      var n := |edits| - 1;
      EditsKeep(edits[..n], v);
      if !HasRewrap(edits) {
        assert !HasRewrap(edits[..n]) && !edits[n].RewrapEdit?;
      }
    }
  }

  /** An edit that keeps the hierarchy: a change of entries, or a wrap of the same data key. */
  predicate KeepsKeys(edit: Edit, v: Vault) {
    match edit
    case RewrapEdit(wrap) =>
      Wraps(wrap, v.dataKey, v.kdf, WrapPassphraseAad) && wrap.blob.key.secret.Passphrase?
    case RecoveryEdit(wrap) =>
      Wraps(wrap, v.dataKey, v.kdf, WrapRecoveryAad) && wrap.blob.key.secret.Phrase?
    case _ => true
  }

  lemma {:induction false} EditOpenOk(o: Open, edit: Edit)
    requires OpenOk(o) && KeepsKeys(edit, o.vault)
    ensures OpenOk(o.(vault := ApplyEdit(edit, o.vault), edits := o.edits + [edit]))
    ensures HasRewrap(o.edits + [edit]) <==> HasRewrap(o.edits) || edit.RewrapEdit?
    ensures edit.RewrapEdit? ==> ApplyEdit(edit, o.vault).wrapPassphrase == edit.wrap
    ensures !edit.RewrapEdit? ==> ApplyEdit(edit, o.vault).wrapPassphrase == o.vault.wrapPassphrase
  {
    hide ApplyEdit, HasRewrap, Wraps;
    assert (o.edits + [edit])[..|o.edits|] == o.edits;
    EditsKeepKeys(edit, o.vault);
    HasRewrapAppend(o.edits, [edit]);
    HasRewrapOne(edit);
  }

  lemma {:induction false} HasRewrapOne(edit: Edit)
    ensures HasRewrap([edit]) <==> edit.RewrapEdit?
  {
    assert [edit][0] == edit;
  }

  /** What happens to the process when an edit is accepted: `grow` pairs are remembered, and `key`
      is recorded if the value came from the source file. */
  function EditedProc(proc: Proc, edit: Edit, grow: seq<(string, string)>, key: Option<string>)
    : Proc
    requires proc.store.Some?
  {
    var o := proc.store.value;
    Done(proc.(
      store := Some(o.(vault := ApplyEdit(edit, o.vault), edits := o.edits + [edit])),
      expected := proc.expected + grow,
      verified := proc.verified && grow == [],
      taken := if key.Some? then proc.taken + {key.value} else proc.taken))
  }

  lemma {:induction false} EditedOk(w: World, proc: Proc, edit: Edit, grow: seq<(string, string)>,
                                    key: Option<string>)
    requires LocalOk(proc) && proc.store.Some? && proc.phase.Ready? && proc.pc < |proc.prog|
    requires KeepsKeys(edit, proc.store.value.vault)
    requires HoldsLock(proc) ==> SharedOk(w, proc)
    requires key.Some? ==> proc.source.Some? && grow == [(key.value, proc.source.value.1)]
    requires FlagsOf(EditedProc(proc, edit, grow, key)) == After(proc.prog[proc.pc], FlagsOf(proc))
    ensures LocalOk(EditedProc(proc, edit, grow, key))
    ensures HoldsLock(EditedProc(proc, edit, grow, key)) <==> HoldsLock(proc)
    ensures HoldsLock(proc) ==> SharedOk(w, EditedProc(proc, edit, grow, key))
  {
    hide ApplyEdit, OpenOk, KeepsKeys, DisciplinedFrom, Justified, AllHeld, FlagsOf, After, Allowed;
    var proc' := EditedProc(proc, edit, grow, key);
    EditOpenOk(proc.store.value, edit);
    Advance(proc, proc');
    ExpectedGrows(proc.rewrites, proc.expected, proc'.expected);
    if proc'.store.value.locked && proc'.verified {
      assert proc'.expected == proc.expected;
    }
    if key.Some? {
      assert (key.value, proc.source.value.1) in grow;
    }
  }

  /** Remembering more pairs keeps what the remembered pairs justify. */
  lemma {:induction false} ExpectedGrows(rewrites: seq<Rewrite>, stored: seq<(string, string)>,
                                         more: seq<(string, string)>)
    requires forall pair :: pair in stored ==> pair in more
    ensures forall i :: 0 <= i < |rewrites| ==>
              (Justified(rewrites[i].before, rewrites[i].after, stored) ==>
                 Justified(rewrites[i].before, rewrites[i].after, more))
  {
    forall i | 0 <= i < |rewrites| && Justified(rewrites[i].before, rewrites[i].after, stored)
      ensures Justified(rewrites[i].before, rewrites[i].after, more)
    {
      forall l | 0 <= l < |rewrites[i].before|
        ensures LineJustified(rewrites[i].before[l], rewrites[i].after[l], more)
      {
        JustifiedByMore(rewrites[i].before[l], rewrites[i].after[l], stored, more);
      }
    }
  }

  lemma {:induction false} EditedInv(init: Disk, w: World, p: Pid, edit: Edit, grow: seq<(string, string)>,
                                     key: Option<string>, counter: nat)
    requires Inv(init, w) && p in w.procs && w.procs[p].store.Some? && w.procs[p].phase.Ready?
    requires w.procs[p].pc < |w.procs[p].prog| && w.counter <= counter
    requires KeepsKeys(edit, w.procs[p].store.value.vault)
    requires edit.RewrapEdit? ==> w.counter <= edit.wrap.salt < counter
    requires key.Some? ==>
               w.procs[p].source.Some? && grow == [(key.value, w.procs[p].source.value.1)]
    requires FlagsOf(EditedProc(w.procs[p], edit, grow, key))
          == After(w.procs[p].prog[w.procs[p].pc], FlagsOf(w.procs[p]))
    ensures Inv(init, Put(w, p, EditedProc(w.procs[p], edit, grow, key)).(counter := counter))
  {
    hide LocalOk, SharedOk, HoldsLock, DiskOk, LogOk;
    var proc := w.procs[p];
    assert ProcOk(w, proc);
    EditedOk(w, proc, edit, grow, key);
    EditedPending(proc, edit, grow, key);
    var w' := Put(w, p, EditedProc(proc, edit, grow, key)).(counter := counter);
    EditsKeep([edit], proc.store.value.vault);
    if HoldsLock(proc) {
      SharedAt(w, w', EditedProc(proc, edit, grow, key));
    }
    AdvanceInv(init, w, w', p);
  }

  lemma {:induction false} EditedPending(proc: Proc, edit: Edit, grow: seq<(string, string)>, key: Option<string>)
    requires LocalOk(proc) && proc.store.Some? && KeepsKeys(edit, proc.store.value.vault)
    ensures Pending(EditedProc(proc, edit, grow, key))
         <= Pending(proc) + (if edit.RewrapEdit? then {edit.wrap.salt} else {})
    ensures EditedProc(proc, edit, grow, key).store.value.vault.dataKey
         == proc.store.value.vault.dataKey
  {
    EditOpenOk(proc.store.value, edit);
  }

  lemma {:induction false} SharedAt(w: World, w': World, proc: Proc)
    requires SharedOk(w, proc) && w.snapshots == w'.snapshots
    requires w.disk == w'.disk && w.sources == w'.sources && w.v1bak == w'.v1bak && w.log == w'.log
    ensures SharedOk(w', proc)
  {
  }
}
