/** Where the state of a process and of the source files comes from: each fact about a reachable
    world is traced to the step of the run that made it so. */
module ProtocolHistory {
  import opened Common
  import opened VaultFormat
  import opened Adopt
  import opened Protocol
  import opened ProtocolInvariant
  import opened ProtocolActions
  import opened ProtocolRuns

  // ---- Runs and their prefixes -----------------------------------------------------------------

  lemma {:induction false} RunStep(w: World, acts: seq<Action>, m: nat)
    requires m < |acts|
    ensures Run(w, acts[..m + 1]) == Next(Run(w, acts[..m]), acts[m])
  {
    hide Next;
    assert acts[..m + 1][..m] == acts[..m];
  }

  lemma {:induction false} WholeRun(w: World, acts: seq<Action>)
    ensures Run(w, acts[..|acts|]) == Run(w, acts)
  {
    assert acts[..|acts|] == acts;
  }

  // ---- What one step does to a process and to the files ------------------------------------------

  /** The process works on the same program with what it has read, and plans nothing new. */
  predicate KeepsPlans(proc: Proc, proc': Proc) {
    && proc'.prog == proc.prog && proc'.source == proc.source
    && KeepsRewrites(proc, proc') && proc'.planned == proc.planned
  }

  predicate KeepsRewrites(proc: Proc, proc': Proc) {
    proc'.rewrites == proc.rewrites || (proc.rewrites != [] && proc'.rewrites == proc.rewrites[1..])
  }

  /** An open store stays the one it was, with the file it knows, or is dropped for good. */
  predicate KeepsStore(proc: Proc, proc': Proc) {
    proc.store.Some? ==>
      if proc'.store.Some? then
        proc'.store.value.loaded == proc.store.value.loaded && proc'.store.value.locked == proc.store.value.locked
      else proc'.phase.Stopped?
  }

  /** The phases at whose end a store is opened, refreshed or saved. */
  predicate ChangesStore(phase: Phase) {
    phase.Loading? || phase.Minting? || phase.Refreshing? || phase.Checked?
  }

  /** Only process `p` has moved. */
  predicate OnlyMoves(w: World, w': World, p: Pid) {
    p in w'.procs && w'.procs == w.procs[p := w'.procs[p]]
  }

  /** What a step that begins instruction `i` may change about plans and files. */
  predicate BeginShape(w: World, w': World, p: Pid, i: Instr) {
    && p in w.procs && p in w'.procs
    && var proc, proc' := w.procs[p], w'.procs[p];
    && proc'.prog == proc.prog && !proc'.phase.Writing?
    && (proc'.phase.Rewriting? ==> i.RewriteSources? && proc.rewrites != [] && proc'.rewrites == proc.rewrites)
    && (i.OpenVault? || i.OpenRecovery? || KeepsStore(proc, proc'))
    && (proc'.pc == proc.pc || proc'.pc == proc.pc + 1)
    && (proc.planned ==> proc'.planned)
    && (proc'.source == proc.source
        || (i.ReadSource? && i.path in w.sources && proc'.source == Some((i.path, TrimmedText(w.sources[i.path])))))
    && (KeepsRewrites(proc, proc')
        || (i.AdoptSources? && proc.store.Some? && proc'.planned
            && proc'.rewrites == PlannedRewrites(i.work, w.sources, i.req, proc.store.value.vault.entries)))
    && (w'.sources == w.sources
        || (i.DestroySource? && w'.sources == w.sources - {i.path})
        || (i.RewriteSources? && proc.rewrites != []
            && w'.sources == w.sources[proc.rewrites[0].path := []]))
  }

  function PlannedRewrites(work: seq<FileWork>, sources: map<Path, seq<string>>, req: Request, entries: Entries)
    : seq<Rewrite>
  {
    PlanAdoption(work, sources, req, Progress(entries, [], [], [], 0, 0)).1
  }

  lemma {:induction false} EditedMoves(w: World, p: Pid, edit: Edit, counter: nat)
    requires p in w.procs && w.procs[p].store.Some?
    ensures var w' := Edited(w, p, edit, counter);
            && OnlyMoves(w, w', p) && KeepsPlans(w.procs[p], w'.procs[p]) && w'.sources == w.sources
            && (w'.procs[p].pc == w.procs[p].pc || w'.procs[p].pc == w.procs[p].pc + 1)
            && (w'.procs[p].phase.Ready? || w'.procs[p].phase.Stopped?)
            && KeepsStore(w.procs[p], w'.procs[p])
  {
    hide Refusal, ApplyEdit;
    assert w.procs == w.procs[p := w.procs[p]];
  }

  lemma {:induction false} SetPairMoves(w: World, p: Pid, key: string, value: string, tier: nat, now: int)
    requires p in w.procs && w.procs[p].store.Some?
    ensures var w' := SetPair(w, p, key, value, tier, now);
            && OnlyMoves(w, w', p) && KeepsPlans(w.procs[p], w'.procs[p]) && w'.sources == w.sources
            && (w'.procs[p].pc == w.procs[p].pc || w'.procs[p].pc == w.procs[p].pc + 1)
            && (w'.procs[p].phase.Ready? || w'.procs[p].phase.Stopped?)
            && KeepsStore(w.procs[p], w'.procs[p])
  {
    hide Edited;
    var edit := SetEdit(key, value, tier, now);
    EditedMoves(w, p, edit, w.counter);
    var mid := Edited(w, p, edit, w.counter);
    var w' := SetPair(w, p, key, value, tier, now);
    assert w.procs[p := mid.procs[p]][p := w'.procs[p]] == w.procs[p := w'.procs[p]];
  }

  lemma {:induction false} MutateShape(w: World, p: Pid, c: Choice, m: Mutation)
    requires AboutTo(w, p, Mutate(m))
    ensures OnlyMoves(w, Begin(w, p, c), p) && BeginShape(w, Begin(w, p, c), p, Mutate(m))
  {
    hide Edited, ResolveMutation;
    var proc := w.procs[p];
    if proc.store.Some? {
      EditedMoves(w, p, ResolveMutation(m, proc.store.value.vault, w.counter), w.counter + 3);
    }
  }

  lemma {:induction false} SetValueShape(w: World, p: Pid, c: Choice, i: Instr)
    requires AboutTo(w, p, i) && i.SetValue?
    ensures OnlyMoves(w, Begin(w, p, c), p) && BeginShape(w, Begin(w, p, c), p, i)
  {
    hide SetPair;
    var proc := w.procs[p];
    if proc.store.Some? {
      SetPairMoves(w, p, i.key, i.value, TierFor(i.tier, i.key, proc.store.value.vault.entries), i.now);
    }
  }

  lemma {:induction false} SetSourceShape(w: World, p: Pid, c: Choice, i: Instr)
    requires AboutTo(w, p, i) && i.SetSource?
    ensures OnlyMoves(w, Begin(w, p, c), p) && BeginShape(w, Begin(w, p, c), p, i)
  {
    hide SetPair;
    var proc := w.procs[p];
    if proc.store.Some? && proc.source.Some? {
      SetPairMoves(w, p, i.key, proc.source.value.1, i.atTier, i.now);
      var mid := SetPair(w, p, i.key, proc.source.value.1, i.atTier, i.now);
      var w' := Begin(w, p, c);
      assert w.procs[p := mid.procs[p]][p := w'.procs[p]] == w.procs[p := w'.procs[p]];
    }
  }

  /** The instructions that keep to the process: nothing about plans or files changes. */
  predicate IsPrivate(i: Instr) {
    IsOpening(i) || i.LockAndRefresh? || i.Save? || i.Verify? || i.Backup? || i.Restore?
    || i.Check? || i.DropKeys?
  }

  predicate IsOpening(i: Instr) {
    i.OpenVault? || i.OpenRecovery? || i.CacheKey?
  }

  lemma {:induction false} OpeningShape(w: World, p: Pid, c: Choice, i: Instr)
    requires AboutTo(w, p, i) && IsOpening(i)
    ensures OnlyMoves(w, Begin(w, p, c), p) && BeginShape(w, Begin(w, p, c), p, i)
  {
    hide OpenWithWrapKey, OpenWithMnemonic, DeriveWrapKey, PlannedRewrites, SetPair, Edited;
    assert w.procs == w.procs[p := w.procs[p]];
  }

  /** A step that only concerns the process has every shape. */
  lemma {:induction false} QuietShape(w: World, w': World, p: Pid, i: Instr)
    requires ContinueShape(w, w', p) && w.procs[p].phase.Ready?
    ensures OnlyMoves(w, w', p) && BeginShape(w, w', p, i)
  {
    hide PlannedRewrites;
  }

  lemma {:induction false} PrivateShape(w: World, p: Pid, c: Choice, i: Instr)
    requires AboutTo(w, p, i) && IsPrivate(i) && !IsOpening(i)
    ensures OnlyMoves(w, Begin(w, p, c), p) && BeginShape(w, Begin(w, p, c), p, i)
  {
    hide LoadV2, VerifyPersisted, SetPair, Edited, ContinueShape, BeginShape, OnlyMoves, Stop, At, Lock, PlanAdoption,
         Meets;
    var w', proc := Begin(w, p, c), w.procs[p];
    StopShape(w, p);
    PhaseShape(w, p, Refreshing);
    PhaseShape(w, p, Saving(false));
    PhaseShape(w, p, Saving(true));
    PhaseShape(w, p, BackingUp);
    if i.Verify? {
      PutShape(w, Put(w, p, Done(proc.(verified := true))), p, Done(proc.(verified := true)));
    } else if i.Backup? || i.DropKeys? {
      PutShape(w, w', p, Done(proc));
    } else if i.Check? && proc.store.Some? && Meets(proc.store.value.vault.entries, i.need) {
      PutShape(w, w', p, Done(proc));
    }
    QuietShape(w, w', p, i);
  }

  lemma {:induction false} FileShape(w: World, p: Pid, c: Choice, i: Instr)
    requires AboutTo(w, p, i)
    requires i.ReadSource? || i.DestroySource? || i.AdoptSources? || i.RewriteSources?
    ensures OnlyMoves(w, Begin(w, p, c), p) && BeginShape(w, Begin(w, p, c), p, i)
  {
    hide PlanAdoption, TrimmedText;
    assert w.procs == w.procs[p := w.procs[p]];
  }

  lemma {:induction false} BeginHasShape(w: World, p: Pid, c: Choice, i: Instr)
    requires AboutTo(w, p, i)
    ensures OnlyMoves(w, Begin(w, p, c), p) && BeginShape(w, Begin(w, p, c), p, i)
  {
    hide Begin, BeginShape, OnlyMoves;
    match i
    case Mutate(m) => MutateShape(w, p, c, m);
    case SetValue(_, _, _, _) => SetValueShape(w, p, c, i);
    case SetSource(_, _, _) => SetSourceShape(w, p, c, i);
    case ReadSource(_) => FileShape(w, p, c, i);
    case DestroySource(_, _) => FileShape(w, p, c, i);
    case AdoptSources(_, _) => FileShape(w, p, c, i);
    case RewriteSources => FileShape(w, p, c, i);
    case _ =>
      if IsOpening(i) {
        OpeningShape(w, p, c, i);
      } else {
        PrivateShape(w, p, c, i);
      }
  }

  /** A step inside an instruction makes no plan, and writes at most the file it is rewriting. */
  predicate ContinueShape(w: World, w': World, p: Pid) {
    && p in w.procs && OnlyMoves(w, w', p) && KeepsPlans(w.procs[p], w'.procs[p])
    && (w'.sources == w.sources
        || (w.procs[p].phase.Rewriting? && w.procs[p].rewrites != []
            && w'.sources == w.sources[w.procs[p].rewrites[0].path := w.procs[p].rewrites[0].after]))
    && (w'.procs[p].pc == w.procs[p].pc || w'.procs[p].pc == w.procs[p].pc + 1)
    && (w'.procs[p].phase.Writing? ==> w.procs[p].phase.Truncating? || w.procs[p].phase.Writing?)
    && (w'.procs[p].phase.Rewriting? ==> w'.procs[p] == w.procs[p])
    && (ChangesStore(w.procs[p].phase) || KeepsStore(w.procs[p], w'.procs[p]))
  }

  lemma {:induction false} PutShape(w: World, w': World, p: Pid, proc': Proc)
    requires p in w.procs && w'.procs == w.procs[p := proc'] && w'.sources == w.sources
    requires KeepsPlans(w.procs[p], proc') && (proc'.pc == w.procs[p].pc || proc'.pc == w.procs[p].pc + 1)
    requires proc'.phase.Writing? ==> w.procs[p].phase.Truncating? || w.procs[p].phase.Writing?
    requires proc'.phase.Rewriting? ==> proc' == w.procs[p]
    requires ChangesStore(w.procs[p].phase) || KeepsStore(w.procs[p], proc')
    ensures ContinueShape(w, w', p)
  {
  }

  lemma {:induction false} StopShape(w: World, p: Pid)
    requires p in w.procs
    ensures ContinueShape(w, Stop(w, p), p)
  {
    PutShape(w, Stop(w, p), p, w.procs[p].(phase := Stopped, store := None));
  }

  lemma {:induction false} PhaseShape(w: World, p: Pid, phase: Phase)
    requires p in w.procs && (phase.Writing? ==> w.procs[p].phase.Truncating?) && !phase.Rewriting?
    ensures ContinueShape(w, At(w, p, phase), p) && ContinueShape(w, Freed(At(w, p, phase), p), p)
    ensures ContinueShape(w, Lock(w, p, phase), p) && ContinueShape(w, w, p)
  {
    PutShape(w, At(w, p, phase), p, w.procs[p].(phase := phase));
    PutShape(w, Freed(At(w, p, phase), p), p, w.procs[p].(phase := phase));
    assert w.procs == w.procs[p := w.procs[p]];
    PutShape(w, w, p, w.procs[p]);
    if w.holder == None {
      PutShape(w, Lock(w, p, phase), p, w.procs[p].(phase := phase));
    }
  }

  /** Phases that wait for the lock or look at the file. */
  lemma {:induction false} WaitingShape(w: World, p: Pid)
    requires p in w.procs && w.procs[p].pc < |w.procs[p].prog|
    requires var phase := w.procs[p].phase;
             || phase.WaitCreate? || phase.Creating? || phase.WaitMigrate? || phase.Migrating?
             || phase.Truncating? || phase.Saving? || phase.Ready? || phase.Stopped?
    ensures ContinueShape(w, Continue(w, p), p)
  {
    hide ContinueShape, At, Freed, Lock, Stop, OpensLegacy, MayOverwrite;
    var v1 := if w.procs[p].phase.Truncating? then w.procs[p].phase.v1
              else if w.disk.Legacy? then w.disk.v1 else LegacyFile(0, map[]);
    PhaseShape(w, p, Creating);
    PhaseShape(w, p, Minting);
    PhaseShape(w, p, Loading);
    PhaseShape(w, p, Migrating);
    if w.procs[p].phase.Saving? {
      PhaseShape(w, p, Checked(w.procs[p].phase.transient));
    }
    StopShape(w, p);
    PhaseShape(w, p, Truncating(v1));
    if w.procs[p].phase.Truncating? {
      PhaseShape(w, p, Writing(v1));
      OtherFields(w, At(w, p, Writing(v1)).(disk := Torn), At(w, p, Writing(v1)), p);
    }
    OtherFields(w, At(w, p, Truncating(v1)).(v1bak := Some(v1)), At(w, p, Truncating(v1)), p);
  }

  lemma {:induction false} OtherFields(w: World, w': World, w'': World, p: Pid)
    requires ContinueShape(w, w'', p) && w'.procs == w''.procs && w'.sources == w''.sources
    ensures ContinueShape(w, w', p)
  {
  }

  /** Phases that finish with one write of the process and perhaps of the vault file. */
  lemma {:induction false} FinishingShape(w: World, p: Pid)
    requires p in w.procs && w.procs[p].pc < |w.procs[p].prog|
    requires var phase := w.procs[p].phase;
             phase.Minting? || phase.Writing? || phase.Checked? || phase.Restoring?
    ensures ContinueShape(w, Continue(w, p), p)
  {
    hide ContinueShape, MigrateV1, SealFile, NewVault;
    var w' := Continue(w, p);
    if w' == w {
      PhaseShape(w, p, Ready);
    } else {
      PutShape(w, w', p, w'.procs[p]);
    }
  }

  lemma {:induction false} BeforeRestoreShape(w: World, p: Pid)
    requires p in w.procs && w.procs[p].pc < |w.procs[p].prog|
    requires w.procs[p].phase.BackingUp? || w.procs[p].phase.WaitRestore?
    ensures ContinueShape(w, Continue(w, p), p)
  {
    hide ContinueShape, Stop, Lock, At;
    StopShape(w, p);
    PhaseShape(w, p, Restoring);
    if w.procs[p].phase.BackingUp? {
      PutShape(w, Continue(w, p), p, w.procs[p].(phase := WaitRestore));
    }
  }

  lemma {:induction false} RewritingShape(w: World, p: Pid)
    requires p in w.procs && w.procs[p].pc < |w.procs[p].prog| && w.procs[p].phase.Rewriting?
    ensures ContinueShape(w, Continue(w, p), p)
  {
    assert w.procs == w.procs[p := w.procs[p]];
  }

  lemma {:induction false} LoadingShape(w: World, p: Pid)
    requires p in w.procs && w.procs[p].pc < |w.procs[p].prog|
    requires var phase := w.procs[p].phase; phase.Loading? || phase.Caching? || phase.Refreshing?
    ensures ContinueShape(w, Continue(w, p), p)
  {
    hide ContinueShape, LoadV2, Refresh, Stop;
    var w' := Continue(w, p);
    StopShape(w, p);
    if w' == w {
      PhaseShape(w, p, Ready);
    } else if w' != Stop(w, p) {
      PutShape(w, w', p, w'.procs[p]);
    }
  }

  lemma {:induction false} ContinueHasShape(w: World, p: Pid)
    requires p in w.procs && w.procs[p].pc < |w.procs[p].prog|
    ensures ContinueShape(w, Continue(w, p), p)
  {
    hide Continue, ContinueShape;
    var phase := w.procs[p].phase;
    if phase.Minting? || phase.Writing? || phase.Checked? || phase.Restoring? {
      FinishingShape(w, p);
    } else if phase.Loading? || phase.Caching? || phase.Refreshing? {
      LoadingShape(w, p);
    } else if phase.Rewriting? {
      RewritingShape(w, p);
    } else if phase.BackingUp? || phase.WaitRestore? {
      BeforeRestoreShape(w, p);
    } else {
      WaitingShape(w, p);
    }
  }

  /** One action, for one process that exists: it is untouched, or it took a step of this shape. */
  lemma {:induction false} ActionShape(w: World, a: Action, p: Pid)
    requires p in w.procs
    ensures var w' := Next(w, a);
            && p in w'.procs && w'.procs[p].prog == w.procs[p].prog
            && (w.procs[p].planned ==> w'.procs[p].planned)
            && (w'.procs[p].pc == w.procs[p].pc || w'.procs[p].pc == w.procs[p].pc + 1)
    ensures !KeepsPlans(w.procs[p], Next(w, a).procs[p]) ==>
              && a.Step? && a.pid == p && w.procs[p].phase.Ready? && w.procs[p].pc < |w.procs[p].prog|
              && AboutTo(w, p, w.procs[p].prog[w.procs[p].pc])
              && BeginShape(w, Next(w, a), p, w.procs[p].prog[w.procs[p].pc])
    ensures Next(w, a).procs[p] != w.procs[p] ==> (a.Step? || a.Crash?) && a.pid == p
    ensures !KeepsStore(w.procs[p], Next(w, a).procs[p]) ==>
              && a.Step? && a.pid == p && w.procs[p].pc < |w.procs[p].prog|
              && (ChangesStore(w.procs[p].phase)
                  || (w.procs[p].phase.Ready?
                      && (w.procs[p].prog[w.procs[p].pc].OpenVault? || w.procs[p].prog[w.procs[p].pc].OpenRecovery?)))
    ensures Next(w, a).procs[p].phase.Writing? && !w.procs[p].phase.Writing? ==>
              a.Step? && a.pid == p && w.procs[p].phase.Truncating?
    ensures Next(w, a).procs[p].phase.Rewriting? && Next(w, a).procs[p] != w.procs[p] ==>
              && AboutTo(w, p, RewriteSources) && w.procs[p].rewrites != []
              && Next(w, a).procs[p].rewrites == w.procs[p].rewrites
  {
    hide Begin, Continue, BeginShape;
    if a.Step? && a.pid in w.procs && !w.procs[a.pid].phase.Stopped? && w.procs[a.pid].pc < |w.procs[a.pid].prog| {
      var q := a.pid;
      if w.procs[q].phase.Ready? {
        BeginHasShape(w, q, a.choice, w.procs[q].prog[w.procs[q].pc]);
        ShapeKeeps(w, Next(w, a), q, w.procs[q].prog[w.procs[q].pc]);
      } else {
        ContinueHasShape(w, q);
      }
    }
  }

  lemma {:induction false} ShapeKeeps(w: World, w': World, p: Pid, i: Instr)
    requires BeginShape(w, w', p, i)
    ensures w'.procs[p].prog == w.procs[p].prog && (w.procs[p].planned ==> w'.procs[p].planned)
    ensures !w'.procs[p].phase.Writing?
    ensures w'.procs[p].phase.Rewriting? ==>
              i.RewriteSources? && w.procs[p].rewrites != [] && w'.procs[p].rewrites == w.procs[p].rewrites
    ensures i.OpenVault? || i.OpenRecovery? || KeepsStore(w.procs[p], w'.procs[p])
    ensures w'.procs[p].pc == w.procs[p].pc || w'.procs[p].pc == w.procs[p].pc + 1
  {
    hide PlannedRewrites;
  }

  /** One action, for the files: they are untouched, or one process destroyed, emptied or rewrote one. */
  lemma {:induction false} ActionFiles(w: World, a: Action)
    ensures Next(w, a).sources != w.sources ==>
              && a.Step? && a.pid in w.procs && w.procs[a.pid].pc < |w.procs[a.pid].prog|
              && (if w.procs[a.pid].phase.Ready?
                  then BeginShape(w, Next(w, a), a.pid, w.procs[a.pid].prog[w.procs[a.pid].pc])
                  else w.procs[a.pid].phase.Rewriting? && ContinueShape(w, Next(w, a), a.pid))
  {
    hide Begin, Continue, BeginShape;
    if a.Step? && a.pid in w.procs && !w.procs[a.pid].phase.Stopped? && w.procs[a.pid].pc < |w.procs[a.pid].prog| {
      if w.procs[a.pid].phase.Ready? {
        BeginHasShape(w, a.pid, a.choice, w.procs[a.pid].prog[w.procs[a.pid].pc]);
      } else {
        ContinueHasShape(w, a.pid);
      }
    }
  }
}
