/** When a crashed migration leaves a vault file that does not parse, and for how long. */
module ProtocolMigration {
  import opened Common
  import opened VaultFormat
  import opened Protocol
  import opened ProtocolInvariant
  import opened ProtocolSteps
  import opened ProtocolActions
  import opened ProtocolRuns
  import opened ProtocolTheorems
  import opened ProtocolHistory
  import opened ProtocolSources

  /** Some passphrase decrypts every entry of the version 1 file. */
  ghost predicate SomeoneOpens(v1: LegacyFile) {
    exists text: string :: OpensLegacy(v1, Passphrase(text))
  }

  /** Some run ends with a torn file, everybody gone and the lock free. */
  ghost predicate CanBeLeftTorn(w: World) {
    exists acts :: Run(w, acts).disk.Torn? && Run(w, acts).holder == None
  }

  /** Only a migration tears the file, and only with a passphrase that opens what it migrates. */
  lemma {:induction false} TornByMigration(init: Disk, w: World, acts: seq<Action>)
    requires Initial(init, w) && !init.Torn? && Run(w, acts).disk.Torn?
    ensures init.Legacy? && SomeoneOpens(init.v1)
    decreases |acts|
  {
    hide Next, Inv, Initial, SomeoneOpens, Continue;
    assert acts != [] by { StartsWhole(init, w); }
    var k := |acts| - 1;
    var mid := Run(w, acts[..k]);
    if mid.disk.Torn? {
      TornByMigration(init, w, acts[..k]);
    } else {
      RunInv(init, w, acts[..k]);
      OnlyWritesChangeFile(mid, acts[k]);
      WriteShape(init, mid, acts[k].pid);
      TruncatesOpenFile(init, mid, acts[k].pid);
    }
  }

  lemma {:induction false} StartsWhole(init: Disk, w: World)
    requires Initial(init, w)
    ensures w.disk == init
  {
  }

  /** A process that is about to truncate has the first vault in hand and a passphrase that opens it. */
  lemma {:induction false} TruncatesOpenFile(init: Disk, w: World, p: Pid)
    requires Inv(init, w) && p in w.procs && w.procs[p].phase.Truncating?
    ensures init.Legacy? && SomeoneOpens(init.v1)
  {
    hide LocalOk, FilesOk, KeysOk, OpensLegacy;
    assert ProcOk(w, w.procs[p]);
    assert HoldsLock(w.procs[p]);
    assert w.disk == init;
    assert OpensLegacy(init.v1, Passphrase(w.procs[p].prog[w.procs[p].pc].text));
  }

  /** The run that does it: one process opens the vault and crashes right after truncating it. */
  function TearingRun(text: string): seq<Action> {
    [Start(0, [OpenVault(text)]), Step(0, Plain), Step(0, Plain), Step(0, Plain), Step(0, Plain), Crash(0)]
  }

  lemma {:induction false} MigrationCanTear(init: Disk, w: World, text: string)
    requires Initial(init, w) && init.Legacy? && OpensLegacy(init.v1, Passphrase(text))
    ensures Run(w, TearingRun(text)).disk.Torn? && Run(w, TearingRun(text)).holder == None
  {
    var acts := TearingRun(text);
    RunOfSix(w, acts);
    TearingSteps(w, text, init.v1);
  }

  lemma {:induction false} RunOfSix(w: World, acts: seq<Action>)
    requires |acts| == 6
    ensures Run(w, acts)
         == Next(Next(Next(Next(Next(Next(w, acts[0]), acts[1]), acts[2]), acts[3]), acts[4]), acts[5])
  {
    hide Next;
    RunStep(w, acts, 0);
    RunStep(w, acts, 1);
    RunStep(w, acts, 2);
    RunStep(w, acts, 3);
    RunStep(w, acts, 4);
    RunStep(w, acts, 5);
    WholeRun(w, acts);
    assert Run(w, acts[..0]) == w;
  }

  lemma {:induction false} TearingSteps(w: World, text: string, v1: LegacyFile)
    requires 0 !in w.procs && w.disk == Legacy(v1) && w.holder == None && OpensLegacy(v1, Passphrase(text))
    ensures var acts := TearingRun(text);
            var last := Next(Next(Next(Next(Next(Next(w, acts[0]), acts[1]), acts[2]), acts[3]), acts[4]), acts[5]);
            last.disk.Torn? && last.holder == None
  {
    var acts, prog := TearingRun(text), [OpenVault(text)];
    assert Disciplined(prog) by { assert DisciplinedFrom(prog, 1, START.(hasStore := true)); }
    var proc := Proc(prog, 0, Ready, None, [], false, None, {}, [], false);
    var w1 := Next(w, acts[0]);
    assert w1 == Put(w, 0, proc);
    hide Disciplined, OpensLegacy, Next;
    FirstSteps(w1, proc, text);
    var w3 := Next(Next(w1, acts[1]), acts[2]);
    LastSteps(w3, proc, text, v1);
  }

  lemma {:induction false} FirstSteps(w: World, proc: Proc, text: string)
    requires 0 in w.procs && w.procs[0] == proc && w.disk.Legacy? && w.holder == None
    requires proc == Proc([OpenVault(text)], 0, Ready, None, [], false, None, {}, [], false)
    ensures var w' := Next(Next(w, Step(0, Plain)), Step(0, Plain));
            && 0 in w'.procs && w'.procs[0] == proc.(phase := Migrating) && w'.disk == w.disk && w'.holder == Some(0)
  {
    hide Next;
    StepIs(w, 0, Plain);
    StepIs(At(w, 0, WaitMigrate), 0, Plain);
  }

  lemma {:induction false} LastSteps(w: World, proc: Proc, text: string, v1: LegacyFile)
    requires 0 in w.procs && w.procs[0] == proc.(phase := Migrating) && w.disk == Legacy(v1) && w.holder == Some(0)
    requires proc == Proc([OpenVault(text)], 0, Ready, None, [], false, None, {}, [], false)
    requires OpensLegacy(v1, Passphrase(text))
    ensures var last := Next(Next(Next(w, Step(0, Plain)), Step(0, Plain)), Crash(0));
            last.disk.Torn? && last.holder == None
  {
    hide OpensLegacy, Begin;
    var w1 := At(w, 0, Truncating(v1)).(v1bak := Some(v1));
    StepIs(w, 0, Plain);
    assert Continue(w, 0) == w1;
    StepIs(w1, 0, Plain);
    var w2 := At(w1, 0, Writing(v1)).(disk := Torn);
    assert Continue(w1, 0) == w2;
    hide Continue;
    assert Next(w2, Crash(0)) == Stop(w2, 0);
  }

  /** Exactly when a crash can leave a vault file that does not parse, for a vault that was in order: it is in
      version 1, and someone has a passphrase that migrates it. */
  lemma {:induction false} LeftTornIff(init: Disk, w: World)
    requires Initial(init, w) && !init.Torn?
    ensures CanBeLeftTorn(w) <==> init.Legacy? && SomeoneOpens(init.v1)
  {
    hide Run, OpensLegacy, Initial;
    if CanBeLeftTorn(w) {
      var acts :| Run(w, acts).disk.Torn? && Run(w, acts).holder == None;
      TornByMigration(init, w, acts);
    }
    if init.Legacy? && SomeoneOpens(init.v1) {
      var text: string :| OpensLegacy(init.v1, Passphrase(text));
      MigrationCanTear(init, w, text);
    }
  }

  // ---- How long it stays ----------------------------------------------------------------------------

  predicate NobodyWriting(w: World) {
    forall p :: p in w.procs ==> !w.procs[p].phase.Writing?
  }

  lemma {:induction false} TornStepStays(init: Disk, w: World, a: Action)
    requires Inv(init, w) && w.disk.Torn? && NobodyWriting(w)
    requires |w.log| < |Next(w, a).log| ==> !Next(w, a).log[|w.log|].Restored?
    ensures Next(w, a).disk.Torn? && NobodyWriting(Next(w, a))
  {
    hide Next, Inv, Continue;
    OnlyWritesChangeFile(w, a);
    if a.Step? && AtWrite(w, a.pid) && Next(w, a) == Continue(w, a.pid) {
      WriteShape(init, w, a.pid);
      TornIsNotWritten(init, w, a.pid);
    }
    forall p | p in Next(w, a).procs ensures !Next(w, a).procs[p].phase.Writing? {
      if p in w.procs {
        ActionShape(w, a, p);
        if w.procs[p].phase.Truncating? {
          TornIsNotWritten(init, w, p);
        }
      } else {
        StartShape(w, a, p);
      }
    }
  }

  lemma {:induction false} TornIsNotWritten(init: Disk, w: World, p: Pid)
    requires Inv(init, w) && w.disk.Torn? && p in w.procs
    ensures !w.procs[p].phase.Minting? && !w.procs[p].phase.Truncating?
  {
    hide LocalOk, FilesOk, KeysOk, DiskOk, LogOk;
    assert ProcOk(w, w.procs[p]);
  }

  /** Once a migration has crashed, nothing but a restore ever mends the file: no command that opens the vault
      writes over it. */
  lemma {:induction false} TornUntilRestored(init: Disk, w: World, acts: seq<Action>)
    requires Inv(init, w) && w.disk.Torn? && NobodyWriting(w)
    requires NoRestore(Since(w, acts))
    ensures Run(w, acts).disk.Torn? && NobodyWriting(Run(w, acts))
    decreases |acts|
  {
    hide Inv, Next, NobodyWriting;
    if acts != [] {
      var n := |acts| - 1;
      var mid, now := Run(w, acts[..n]), Run(w, acts);
      LogOnlyGrows(init, w, acts[..n]);
      OneStepGrows(init, mid, acts[n]);
      assert Since(w, acts)[..|mid.log| - |w.log|] == Since(w, acts[..n]);
      assert |mid.log| < |now.log| ==> now.log[|mid.log|] == Since(w, acts)[|mid.log| - |w.log|];
      TornUntilRestored(init, w, acts[..n]);
      TornStepStays(init, mid, acts[n]);
    }
  }
}
