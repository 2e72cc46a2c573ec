/** What the commands that change the vault leave when nobody disturbs them: delete, rename, retier, the new passphrase
    and the new recovery phrase, recover, init and restore. */
module ProtocolChanges {
  import opened Common
  import opened VaultFormat
  import opened Protocol
  import opened ProtocolActions
  import opened ProtocolProgress
  import opened ProtocolCommands

  /** What the mutations make of `v`, one after the other, drawing random numbers from `counter` on; None if one of
      them is refused. */
  function Mutated(v: Vault, ms: seq<Mutation>, counter: nat): Option<Vault> {
    if ms == [] then Some(v)
    else
      var n := |ms| - 1;
      match Mutated(v, ms[..n], counter)
      case None => None
      case Some(u) =>
        var edit := ResolveMutation(ms[n], u, counter + 3 * n);
        if Refusal(edit, u.entries).Some? then None else Some(ApplyEdit(edit, u))
  }

  predicate MeetsAll(entries: Entries, needs: seq<Need>) {
    forall i :: 0 <= i < |needs| ==> Meets(entries, needs[i])
  }

  // ---- The instructions, one by one ------------------------------------------------------------------

  lemma {:induction false} OneMutation(before: World, w: World, p: Pid, v: Vault, m: Mutation)
    requires p in before.procs && p in w.procs && AboutTo(w, p, Mutate(m))
    requires Changing(before, w, p, w.procs[p].pc, v, [])
    ensures var edit, pc := ResolveMutation(m, v, w.counter), w.procs[p].pc;
            && Once(w, p).snapshots == w.snapshots
            && if Refusal(edit, v.entries).Some? then Ended(before, Once(w, p), p, pc) && Once(w, p).disk == w.disk
               else Changing(before, Once(w, p), p, pc + 1, ApplyEdit(edit, v), [])
                    && Once(w, p).counter == w.counter + 3
  {
    hide ApplyEdit, Refusal, ResolveMutation;
    OnceIs(w, p);
    var edit := ResolveMutation(m, v, w.counter);
    assert Begin(w, p, Skip) == Edited(w, p, edit, w.counter + 3);
  }

  lemma {:induction false} OneCheck(before: World, w: World, p: Pid, v: Vault, need: Need)
    requires p in before.procs && p in w.procs && AboutTo(w, p, Check(need))
    requires Changing(before, w, p, w.procs[p].pc, v, [])
    ensures var pc := w.procs[p].pc;
            && Once(w, p).snapshots == w.snapshots && Once(w, p).counter == w.counter
            && if Meets(v.entries, need) then Changing(before, Once(w, p), p, pc + 1, v, [])
               else Ended(before, Once(w, p), p, pc) && Once(w, p).disk == w.disk
  {
    hide Meets, SetPair, Edited;
    OnceIs(w, p);
  }

  lemma {:induction false} OneBackup(before: World, w: World, p: Pid, v: Vault)
    requires p in before.procs && p in w.procs && AboutTo(w, p, Backup)
    requires Changing(before, w, p, w.procs[p].pc, v, [])
    ensures Changing(before, Once(w, p), p, w.procs[p].pc + 1, v, []) && Once(w, p).counter == w.counter
    ensures w.disk.Sealed? && Once(w, p).snapshots == w.snapshots + {w.disk.file}
  {
    hide SetPair, Edited;
    OnceIs(w, p);
  }

  lemma {:induction false} AllMutations(before: World, w: World, p: Pid, v: Vault, ms: seq<Mutation>)
    returns (n: nat, pc: nat)
    requires p in before.procs && p in w.procs && Changing(before, w, p, w.procs[p].pc, v, [])
    requires var proc := w.procs[p];
             && proc.pc + |ms| <= |proc.prog|
             && forall i :: 0 <= i < |ms| ==> proc.prog[proc.pc + i] == Mutate(ms[i])
    ensures var after, w' := Mutated(v, ms, w.counter), Solo(w, p, n);
            && w'.snapshots == w.snapshots
            && if after.Some? then
                 && n == |ms| && pc == w.procs[p].pc + n && w'.counter == w.counter + 3 * n
                 && Changing(before, w', p, pc, after.value, [])
               else pc < w.procs[p].pc + |ms| && Ended(before, w', p, pc) && w'.disk == w.disk
    decreases |ms|
  {
    hide Changing, Ended, Solo, Once, ResolveMutation, Refusal, ApplyEdit;
    n, pc := 0, w.procs[p].pc;
    NoSteps(w, p);
    if ms != [] {
      var last := |ms| - 1;
      n, pc := AllMutations(before, w, p, v, ms[..last]);
      var sofar := Mutated(v, ms[..last], w.counter);
      if sofar.Some? {
        var w1 := Solo(w, p, n);
        ReadyFrom(before, w, p, w.procs[p].pc, v, []);
        ReadyFrom(before, w1, p, pc, sofar.value, []);
        SameDisk(before, w, p, w.procs[p].pc, v, []);
        SameDisk(before, w1, p, pc, sofar.value, []);
        OneMutation(before, w1, p, sofar.value, ms[last]);
        SoloUnrolled(w1, p);
        SoloAdd(w, p, n, 1);
        n := n + 1;
        if Mutated(v, ms, w.counter).Some? {
          pc := pc + 1;
        }
      }
    }
  }

  lemma {:induction false} AllChecks(before: World, w: World, p: Pid, v: Vault, needs: seq<Need>)
    returns (n: nat, pc: nat)
    requires p in before.procs && p in w.procs && Changing(before, w, p, w.procs[p].pc, v, [])
    requires var proc := w.procs[p];
             && proc.pc + |needs| <= |proc.prog|
             && forall i :: 0 <= i < |needs| ==> proc.prog[proc.pc + i] == Check(needs[i])
    ensures var w' := Solo(w, p, n);
            && w'.snapshots == w.snapshots
            && if MeetsAll(v.entries, needs) then
                 && n == |needs| && pc == w.procs[p].pc + n && w'.counter == w.counter
                 && Changing(before, w', p, pc, v, [])
               else pc < w.procs[p].pc + |needs| && Ended(before, w', p, pc) && w'.disk == w.disk
    decreases |needs|
  {
    hide Changing, Ended, Solo, Once, Meets;
    n, pc := 0, w.procs[p].pc;
    NoSteps(w, p);
    if needs != [] {
      var last := |needs| - 1;
      n, pc := AllChecks(before, w, p, v, needs[..last]);
      assert MeetsAll(v.entries, needs) <==> MeetsAll(v.entries, needs[..last]) && Meets(v.entries, needs[last]);
      if MeetsAll(v.entries, needs[..last]) {
        var w1 := Solo(w, p, n);
        ReadyFrom(before, w, p, w.procs[p].pc, v, []);
        ReadyFrom(before, w1, p, pc, v, []);
        SameDisk(before, w, p, w.procs[p].pc, v, []);
        SameDisk(before, w1, p, pc, v, []);
        OneCheck(before, w1, p, v, needs[last]);
        SoloUnrolled(w1, p);
        SoloAdd(w, p, n, 1);
        n := n + 1;
        if Meets(v.entries, needs[last]) {
          pc := pc + 1;
        }
      }
    }
  }

  /** Saving as the last instruction. */
  lemma {:induction false} SavesAtEnd(before: World, w: World, p: Pid, pc: nat, v: Vault)
    requires p in before.procs && Changing(before, w, p, pc, v, [])
    requires var prog := before.procs[p].prog; |prog| == pc + 1 && prog[pc] == Save
    ensures var w' := Solo(w, p, 4);
            Ended(before, w', p, pc + 1) && w'.disk == Sealed(SealFile(v, w.counter)) && w'.snapshots == w.snapshots
  {
    hide Solo, Next, SealFile, Once;
    SoloSave(w, p);
    var w1 := Solo(w, p, 3);
    StopsAtEnd(w1, p);
    SoloUnrolled(w1, p);
    SoloAdd(w, p, 3, 1);
  }

  // ---- A whole command -----------------------------------------------------------------------------------

  lemma {:induction false} MutateProgramParts(text: string, needs: seq<Need>, backup: bool, ms: seq<Mutation>)
    ensures var prog, k := MutateProgram(text, needs, backup, ms), if backup then 1 else 0;
            && |prog| == 3 + |needs| + k + |ms| + 1
            && prog[0] == OpenVault(text) && prog[1] == CacheKey(text) && prog[2] == LockAndRefresh
            && (forall i :: 0 <= i < |needs| ==> prog[3 + i] == Check(needs[i]))
            && (backup ==> prog[3 + |needs|] == Backup)
            && (forall i :: 0 <= i < |ms| ==> prog[3 + |needs| + k + i] == Mutate(ms[i]))
            && prog[|prog| - 1] == Save
  {
  }

  /** Where a command stands after its snapshot, if it takes one. */
  lemma {:induction false} MayBackUp(before: World, w: World, p: Pid, v: Vault, backup: bool) returns (n: nat)
    requires p in before.procs && p in w.procs && Changing(before, w, p, w.procs[p].pc, v, [])
    requires backup ==> AboutTo(w, p, Backup)
    ensures n == (if backup then 1 else 0) && w.disk.Sealed?
    ensures Changing(before, Solo(w, p, n), p, w.procs[p].pc + n, v, []) && Solo(w, p, n).counter == w.counter
    ensures Solo(w, p, n).snapshots == w.snapshots + (if backup then {w.disk.file} else {})
  {
    NoSteps(w, p);
    SoloUnrolled(w, p);
    n := if backup then 1 else 0;
    if backup {
      OneBackup(before, w, p, v);
    }
  }

  /** A command that nobody disturbs, on a well-keyed vault with the right passphrase: it comes to its end if and only
      if what it needs is there and no mutation is refused, and then the vault on disk is what the mutations make of
      the old one; otherwise the file is as it was. The snapshot is taken once what it needs is there. */
  lemma {:induction false} MutateCompletes(w: World, p: Pid, text: string, needs: seq<Need>, backup: bool,
                                           ms: seq<Mutation>)
    returns (n: nat)
    requires var prog := MutateProgram(text, needs, backup, ms);
             p in w.procs && w.procs[p] == Proc(prog, 0, Ready, None, [], false, None, {}, [], false)
    requires w.holder == None && w.disk.Sealed? && WellKeyedFile(w.disk.file)
    requires PassphraseOf(Contents(w.disk.file)) == Passphrase(text)
    ensures var w', v := Solo(w, p, n), Contents(w.disk.file);
            var met := MeetsAll(v.entries, needs);
            var after := if met then Mutated(v, ms, w.counter) else None;
            && p in w'.procs && w'.procs == w.procs[p := w'.procs[p]] && w'.procs[p].phase.Stopped?
            && w'.holder == None && w'.sources == w.sources && w'.disk.Sealed?
            && (if after.Some? then Contents(w'.disk.file) == after.value else w'.disk == w.disk)
            && (after.Some? ==> w'.disk.file.version == 2 && w'.disk.file.vault.aad == VaultAad)
            && (w'.procs[p].pc == |w.procs[p].prog| <==> after.Some?)
            && w'.snapshots == w.snapshots + (if backup && met then {w.disk.file} else {})
  {
    hide Changing, Ended, Solo, Once, Next, WellKeyedFile, Disciplined, SealFile, Begin, Continue, MutateProgram,
         Mutated, MeetsAll;
    var v, k := Contents(w.disk.file), if backup then 1 else 0;
    MutateProgramParts(text, needs, backup, ms);
    SoloOpenForChange(w, p, text);
    var w1 := Solo(w, p, 5);
    StartsChanging(w, w1, p, v);
    ReadyFrom(w, w1, p, 3, v, []);
    var c, pc := AllChecks(w, w1, p, v, needs);
    var w2 := Solo(w1, p, c);
    SoloAdd(w, p, 5, c);
    if MeetsAll(v.entries, needs) {
      ReadyFrom(w, w2, p, pc, v, []);
      SameDisk(w, w2, p, pc, v, []);
      var b := MayBackUp(w, w2, p, v, backup);
      var w3 := Solo(w2, p, b);
      ReadyFrom(w, w3, p, pc + b, v, []);
      var m, pc' := AllMutations(w, w3, p, v, ms);
      var w4 := Solo(w3, p, m);
      SoloAdd(w, p, 5 + c, b);
      SoloAdd(w, p, 5 + c + b, m);
      SameDisk(w, w3, p, pc + b, v, []);
      n := 5 + c + b + m;
      if Mutated(v, ms, w.counter).Some? {
        var after := Mutated(v, ms, w.counter).value;
        SavesAtEnd(w, w4, p, pc', after);
        SoloAdd(w, p, n, 4);
        n := n + 4;
        EndedMeans(w, Solo(w4, p, 4), p, pc' + 1);
        SealedContents(after, w4.counter);
        SealedFormat(after, w4.counter);
      } else {
        EndedMeans(w, w4, p, pc');
      }
    } else {
      n := 5 + c;
      EndedMeans(w, w2, p, pc);
    }
  }

  // ---- What each command leaves ---------------------------------------------------------------------------

  /** It has stopped, nobody holds the lock, and no source and no other process has changed. */
  predicate Over(w: World, w': World, p: Pid) {
    Ends(w, w', p) && w'.sources == w.sources
  }

  lemma {:induction false} SealedFormat(v: Vault, nonce: nat)
    ensures SealFile(v, nonce).version == 2 && SealFile(v, nonce).vault.aad == VaultAad
  {
  }

  lemma {:induction false} OneNeed(entries: Entries, need: Need)
    ensures MeetsAll(entries, [need]) <==> Meets(entries, need)
  {
    hide Meets;
    assert [need][0] == need;
  }

  lemma {:induction false} OneStepMutated(v: Vault, m: Mutation, counter: nat)
    ensures var edit := ResolveMutation(m, v, counter);
            Mutated(v, [m], counter) == if Refusal(edit, v.entries).Some? then None else Some(ApplyEdit(edit, v))
  {
    hide ResolveMutation, Refusal, ApplyEdit;
    assert [m][..0] == [];
    assert Mutated(v, [m][..0], counter) == Some(v);
  }

  /** delete: a key that is there goes, after a snapshot if one is wanted, and nothing else changes; for a key that is
      not there nothing is written at all. */
  lemma {:induction false} DeleteCompletes(w: World, p: Pid, text: string, key: string, backup: bool) returns (n: nat)
    requires Undisturbed(w, p, DeleteProgram(text, key, backup), text)
    ensures var w', v := Solo(w, p, n), Contents(w.disk.file);
            && Over(w, w', p)
            && if key in v.entries then
                 && Contents(w'.disk.file) == v.(entries := v.entries - {key})
                 && w'.snapshots == w.snapshots + (if backup then {w.disk.file} else {})
               else w'.disk == w.disk && w'.snapshots == w.snapshots
  {
    hide MutateProgram, Mutated, Solo;
    n := MutateCompletes(w, p, text, [HasKey(key)], backup, [Change(DeleteEdit(key))]);
    OneNeed(Contents(w.disk.file).entries, HasKey(key));
    OneStepMutated(Contents(w.disk.file), Change(DeleteEdit(key)), w.counter);
  }

  /** rename: the entry moves whole if it is there and its new name is free; renaming to the same name keeps the
      contents; otherwise nothing is written. */
  lemma {:induction false} RenameCompletes(w: World, p: Pid, text: string, from: string, to: string) returns (n: nat)
    requires Undisturbed(w, p, RenameProgram(text, from, to), text)
    ensures var w', v := Solo(w, p, n), Contents(w.disk.file);
            && Over(w, w', p)
            && if from == to then Contents(w'.disk.file) == v
               else if from in v.entries && to !in v.entries then
                 && Contents(w'.disk.file) == v.(entries := Contents(w'.disk.file).entries)
                 && Contents(w'.disk.file).entries.Keys == v.entries.Keys - {from} + {to}
                 && Contents(w'.disk.file).entries[to] == v.entries[from]
                 && forall k :: k in v.entries && k != from ==> Contents(w'.disk.file).entries[k] == v.entries[k]
               else w'.disk == w.disk
  {
    hide MutateProgram, Mutated, Solo;
    n := MutateCompletes(w, p, text, [], false, [Change(RenameEdit(from, to))]);
    OneStepMutated(Contents(w.disk.file), Change(RenameEdit(from, to)), w.counter);
  }

  /** retier: an existing key gets a tier from 1 to 4, keeps its value, its policy and its other times; but a key of
      the sign-only tier 4 never leaves it, and then nothing is written. */
  lemma {:induction false} RetierCompletes(w: World, p: Pid, text: string, key: string, tier: nat, now: int)
    returns (n: nat)
    requires Undisturbed(w, p, RetierProgram(text, key, tier, now), text)
    ensures var w', v := Solo(w, p, n), Contents(w.disk.file);
            && Over(w, w', p)
            && if key in v.entries && 1 <= tier <= 4 && (v.entries[key].tier == 4 ==> tier == 4) then
                 var e := v.entries[key];
                 Contents(w'.disk.file)
                 == v.(entries := v.entries[key := Entry(e.value, tier, e.createdAt, now, e.rotateDays, e.expiresAt)])
               else w'.disk == w.disk
  {
    hide MutateProgram, Mutated, Solo;
    n := MutateCompletes(w, p, text, [MayRetier(key, tier)], false, [Change(RetierEdit(key, tier, now))]);
    OneNeed(Contents(w.disk.file).entries, MayRetier(key, tier));
    OneStepMutated(Contents(w.disk.file), Change(RetierEdit(key, tier, now)), w.counter);
  }

  /** change-passphrase: the new passphrase and no other opens the vault, to the same entries under the same data key,
      and the recovery phrase opens it as before. */
  lemma {:induction false} ChangePassphraseCompletes(w: World, p: Pid, text: string, to: string, secret: Secret,
                                                     words: Option<nat>)
    returns (n: nat)
    requires Undisturbed(w, p, ChangePassphraseProgram(text, to), text)
    ensures var w', v := Solo(w, p, n), Contents(w.disk.file);
            && Over(w, w', p)
            && Contents(w'.disk.file) == v.(wrapPassphrase := w'.disk.file.passphrase)
            && (LoadV2(w'.disk, secret).Ok? <==> secret == Passphrase(to))
            && (OpenWithMnemonic(w'.disk, words).Ok? <==> OpenWithMnemonic(w.disk, words).Ok?)
  {
    hide MutateProgram, Mutated, Solo, LoadV2, OpenWithMnemonic;
    var v, c := Contents(w.disk.file), w.counter;
    n := MutateCompletes(w, p, text, [], false, [NewPassphrase(to)]);
    OneStepMutated(v, NewPassphrase(to), c);
    var w' := Solo(w, p, n);
    RewrapOnly(v, Passphrase(to), c, c + 1);
    WellKeyedOpens(w.disk.file, secret, words);
    WellKeyedOpens(w'.disk.file, secret, words);
  }

  lemma {:induction false} RewrapOnly(v: Vault, secret: Secret, salt: nat, nonce: nat)
    requires WellKeyed(v) && secret.Passphrase?
    ensures var edit := ChangePassphrase(v, secret, salt, nonce);
            var after := ApplyEdit(edit, v);
            && Refusal(edit, v.entries).None? && WellKeyed(after)
            && after == v.(wrapPassphrase := after.wrapPassphrase) && PassphraseOf(after) == secret
  {
  }

  lemma {:induction false} RecoveryOnly(v: Vault, entropy: nat, salt: nat, nonce: nat)
    requires WellKeyed(v)
    ensures var edit := GenerateRecoveryKey(v, entropy, salt, nonce);
            var after := ApplyEdit(edit, v);
            && Refusal(edit, v.entries).None? && WellKeyed(after) && after.wrapRecovery.Some?
            && after == v.(wrapRecovery := after.wrapRecovery)
            && after.wrapRecovery.value.blob.key.secret == Phrase(entropy)
  {
  }

  /** Who opens a file whose contents are well keyed. */
  lemma {:induction false} WellKeyedOpens(f: VaultFile, secret: Secret, words: Option<nat>)
    requires WellKeyedFile(f)
    ensures LoadV2(Sealed(f), secret).Ok? <==> secret == PassphraseOf(Contents(f))
    ensures OpenWithMnemonic(Sealed(f), words).Ok? <==>
            words.Some? && f.recovery.Some? && f.recovery.value.blob.key.secret == Phrase(words.value)
  {
    WellKeyedFileOpens(f, secret, if words.Some? then words.value else 0);
  }

  /** new-recovery-key: the phrase that was drawn and no other opens the vault, to the same entries under the same data
      key, and the passphrase opens it as before. */
  lemma {:induction false} NewRecoveryKeyCompletes(w: World, p: Pid, text: string, secret: Secret, words: Option<nat>)
    returns (n: nat)
    requires Undisturbed(w, p, NewRecoveryKeyProgram(text), text)
    ensures var w', v := Solo(w, p, n), Contents(w.disk.file);
            && Over(w, w', p)
            && Contents(w'.disk.file) == v.(wrapRecovery := w'.disk.file.recovery)
            && (OpenWithMnemonic(w'.disk, words).Ok? <==> words == Some(w.counter))
            && (LoadV2(w'.disk, secret).Ok? <==> secret == Passphrase(text))
  {
    hide MutateProgram, Mutated, Solo, LoadV2, OpenWithMnemonic;
    var v, c := Contents(w.disk.file), w.counter;
    n := MutateCompletes(w, p, text, [], false, [NewRecoveryKey]);
    OneStepMutated(v, NewRecoveryKey, c);
    var w' := Solo(w, p, n);
    RecoveryOnly(v, c, c + 1, c + 2);
    WellKeyedOpens(w'.disk.file, secret, words);
  }

  // ---- recover ------------------------------------------------------------------------------------------------

  /** A mutation after opening with the recovery phrase. */
  lemma {:induction false} RecoverRuns(w: World, p: Pid, words: nat, m: Mutation) returns (n: nat)
    requires p in w.procs
    requires w.procs[p] == Proc(RecoverProgram(Some(words), m), 0, Ready, None, [], false, None, {}, [], false)
    requires w.holder == None && w.disk.Sealed? && WellKeyedFile(w.disk.file)
    ensures var w', v := Solo(w, p, n), Contents(w.disk.file);
            var after := if OpenWithMnemonic(w.disk, Some(words)).Ok? then Mutated(v, [m], w.counter) else None;
            && Over(w, w', p)
            && (if after.Some? then Contents(w'.disk.file) == after.value else w'.disk == w.disk)
            && (after.Some? ==> w'.disk.file.version == 2 && w'.disk.file.vault.aad == VaultAad)
  {
    hide Changing, Ended, Solo, Once, Next, Disciplined, SealFile, Begin, Continue, Mutated, OpenWithMnemonic;
    var v, prog := Contents(w.disk.file), RecoverProgram(Some(words), m);
    OnceIs(w, p);
    SoloUnrolled(w, p);
    if OpenWithMnemonic(w.disk, Some(words)).Ok? {
      var w1 := Put(w, p, Done(w.procs[p].(store := Opened(v, w.disk.file))));
      OpensRecovery(w, p, words);
      RefreshedContents(w.disk.file);
      SoloLock(w1, p, v);
      SoloAdd(w, p, 1, 2);
      var w3 := Solo(w1, p, 2);
      RecoveredIsChanging(w, w1, w3, p, v);
      ReadyFrom(w, w3, p, 2, v, []);
      var k, pc := AllMutations(w, w3, p, v, [m]);
      var w4 := Solo(w3, p, k);
      SoloAdd(w, p, 3, k);
      n := 3 + k;
      if Mutated(v, [m], w.counter).Some? {
        var after := Mutated(v, [m], w.counter).value;
        SavesAtEnd(w, w4, p, pc, after);
        SoloAdd(w, p, n, 4);
        n := n + 4;
        EndedMeans(w, Solo(w4, p, 4), p, pc + 1);
        SealedContents(after, w4.counter);
        SealedFormat(after, w4.counter);
      } else {
        EndedMeans(w, w4, p, pc);
      }
    } else {
      n := 1;
      RecoveryStops(w, p, words);
    }
  }

  lemma {:induction false} OpensRecovery(w: World, p: Pid, words: nat)
    requires AboutTo(w, p, OpenRecovery(Some(words))) && w.disk.Sealed? && WellKeyedFile(w.disk.file)
    requires OpenWithMnemonic(w.disk, Some(words)).Ok?
    ensures Begin(w, p, Skip) == Put(w, p, Done(w.procs[p].(store := Opened(Contents(w.disk.file), w.disk.file))))
  {
    WellKeyedFileOpens(w.disk.file, Passphrase(""), words);
    hide OpenWithMnemonic;
  }

  lemma {:induction false} RecoveryStops(w: World, p: Pid, words: nat)
    requires AboutTo(w, p, OpenRecovery(Some(words))) && OpenWithMnemonic(w.disk, Some(words)).Err?
    ensures Begin(w, p, Skip) == Stop(w, p)
  {
    hide OpenWithMnemonic;
  }

  lemma {:induction false} RecoveredIsChanging(w: World, w1: World, w3: World, p: Pid, v: Vault)
    requires p in w.procs && w.procs[p].expected == [] && w.procs[p].pc == 0
    requires w.disk.Sealed? && v == Contents(w.disk.file)
    requires w1 == Put(w, p, Done(w.procs[p].(store := Opened(v, w.disk.file))))
    requires w3 == Put(w1, p, Done(w1.procs[p].(store := Some(Open(v, w1.disk.file, [], true)), verified := false)))
                     .(holder := Some(p))
    ensures Changing(w, w3, p, 2, v, [])
  {
    assert w1.procs[p := w3.procs[p]] == w.procs[p := w3.procs[p]];
  }

  /** recover: with the right phrase the vault gets a new one, and only the new one opens it; with a wrong phrase, or
      without a recovery wrap, nothing is written. The passphrase and the entries stay. */
  lemma {:induction false} RecoverCompletes(w: World, p: Pid, words: nat, secret: Secret, others: Option<nat>)
    returns (n: nat)
    requires p in w.procs
    requires w.procs[p]
          == Proc(RecoverProgram(Some(words), NewRecoveryKey), 0, Ready, None, [], false, None, {}, [], false)
    requires w.holder == None && w.disk.Sealed? && WellKeyedFile(w.disk.file)
    ensures var w', v := Solo(w, p, n), Contents(w.disk.file);
            && Over(w, w', p)
            && if OpenWithMnemonic(w.disk, Some(words)).Ok? then
                 && Contents(w'.disk.file) == v.(wrapRecovery := w'.disk.file.recovery)
                 && (OpenWithMnemonic(w'.disk, others).Ok? <==> others == Some(w.counter))
                 && (LoadV2(w'.disk, secret).Ok? <==> LoadV2(w.disk, secret).Ok?)
               else w'.disk == w.disk
  {
    hide Mutated, Solo, LoadV2, OpenWithMnemonic, RecoverProgram;
    var v, c := Contents(w.disk.file), w.counter;
    n := RecoverRuns(w, p, words, NewRecoveryKey);
    OneStepMutated(v, NewRecoveryKey, c);
    RecoveryOnly(v, c, c + 1, c + 2);
    WellKeyedOpens(w.disk.file, secret, others);
    if OpenWithMnemonic(w.disk, Some(words)).Ok? {
      WellKeyedOpens(Solo(w, p, n).disk.file, secret, others);
    }
  }

  /** change-passphrase after opening with the recovery phrase. */
  lemma {:induction false} ResetPassphraseCompletes(w: World, p: Pid, words: nat, to: string, secret: Secret)
    returns (n: nat)
    requires p in w.procs
    requires w.procs[p]
          == Proc(RecoverProgram(Some(words), NewPassphrase(to)), 0, Ready, None, [], false, None, {}, [], false)
    requires w.holder == None && w.disk.Sealed? && WellKeyedFile(w.disk.file)
    ensures var w', v := Solo(w, p, n), Contents(w.disk.file);
            && Over(w, w', p)
            && if OpenWithMnemonic(w.disk, Some(words)).Ok? then
                 && Contents(w'.disk.file) == v.(wrapPassphrase := w'.disk.file.passphrase)
                 && (LoadV2(w'.disk, secret).Ok? <==> secret == Passphrase(to))
               else w'.disk == w.disk
  {
    hide Mutated, Solo, LoadV2, OpenWithMnemonic, RecoverProgram;
    var v, c := Contents(w.disk.file), w.counter;
    n := RecoverRuns(w, p, words, NewPassphrase(to));
    OneStepMutated(v, NewPassphrase(to), c);
    RewrapOnly(v, Passphrase(to), c, c + 1);
    if OpenWithMnemonic(w.disk, Some(words)).Ok? {
      WellKeyedOpens(Solo(w, p, n).disk.file, secret, None);
    }
  }

  // ---- init -----------------------------------------------------------------------------------------------------

  /** The vault as its first opener makes it. */
  function Founded(text: string, counter: nat): Vault {
    NewVault(Passphrase(text), counter, counter + 1, counter + 2)
  }

  lemma {:induction false} SoloFound(w: World, p: Pid, text: string)
    requires AboutTo(w, p, OpenVault(text)) && w.disk.Absent? && w.holder == None
    ensures var v, proc := Founded(text, w.counter), w.procs[p];
            var file := SealFile(v, w.counter + 3);
            Solo(w, p, 4) == Write(w, p, file, Created(file), true, Done(proc.(store := Opened(v, file))))
                               .(counter := w.counter + 4)
  {
    hide Solo, Once, Write, NewVault, SealFile, Begin, Continue;
    var proc := w.procs[p];
    var w1 := Put(w, p, proc.(phase := WaitCreate));
    var w2 := Put(w, p, proc.(phase := Creating)).(holder := Some(p));
    var w3 := Put(w, p, proc.(phase := Minting)).(holder := Some(p));
    FoundingSteps(w, p, text, proc);
    PutTwice(w, p, proc.(phase := WaitCreate), proc.(phase := Creating));
    OnceIs(w, p);
    OnceIs(w1, p);
    OnceIs(w2, p);
    OnceIs(w3, p);
    SoloUnrolled(w, p);
    SoloUnrolled(w3, p);
    SoloAdd(w, p, 3, 1);
  }

  lemma {:induction false} FoundingSteps(w: World, p: Pid, text: string, proc: Proc)
    requires AboutTo(w, p, OpenVault(text)) && w.disk.Absent? && w.holder == None && proc == w.procs[p]
    ensures var w2 := Put(w, p, proc.(phase := Creating)).(holder := Some(p));
            var w3 := Put(w, p, proc.(phase := Minting)).(holder := Some(p));
            var v := Founded(text, w.counter);
            var file := SealFile(v, w.counter + 3);
            && Begin(w, p, Skip) == Put(w, p, proc.(phase := WaitCreate))
            && Continue(Put(w, p, proc.(phase := WaitCreate)), p) == w2 && Continue(w2, p) == w3
            && Continue(w3, p) == Write(w, p, file, Created(file), true, Done(proc.(store := Opened(v, file))))
                                    .(counter := w.counter + 4)
  {
    hide NewVault, SealFile;
    PutTwice(w, p, proc.(phase := WaitCreate), proc.(phase := Creating));
    PutTwice(w, p, proc.(phase := Creating), proc.(phase := Minting));
    var v := Founded(text, w.counter);
    PutTwice(w, p, proc.(phase := Minting), Done(proc.(store := Opened(v, SealFile(v, w.counter + 3)))));
  }

  /** A save that takes the lock only for itself. */
  lemma {:induction false} SoloSaveFree(w: World, p: Pid)
    requires AboutTo(w, p, Save) && w.procs[p].store.Some? && !w.procs[p].store.value.locked && w.holder == None
    requires w.disk == Sealed(w.procs[p].store.value.loaded)
    ensures var o := w.procs[p].store.value;
            var file := SealFile(o.vault, w.counter);
            Solo(w, p, 3)
            == Write(w, p, file, Saved(o.edits, w.counter), true,
                     Done(w.procs[p].(store := Some(o.(loaded := file, edits := [])), verified := false)))
                 .(counter := w.counter + 1)
  {
    hide Solo, Once, SealFile, Begin, Continue, Write;
    var proc := w.procs[p];
    var w1 := Put(w, p, proc.(phase := Saving(true))).(holder := Some(p));
    var w2 := Put(w, p, proc.(phase := Checked(true))).(holder := Some(p));
    FreeSaveSteps(w, p, proc);
    OnceIs(w, p);
    OnceIs(w1, p);
    OnceIs(w2, p);
    SoloUnrolled(w, p);
  }

  lemma {:induction false} FreeSaveSteps(w: World, p: Pid, proc: Proc)
    requires AboutTo(w, p, Save) && proc == w.procs[p] && w.holder == None
    requires proc.store.Some? && !proc.store.value.locked && w.disk == Sealed(proc.store.value.loaded)
    ensures var w1 := Put(w, p, proc.(phase := Saving(true))).(holder := Some(p));
            var w2 := Put(w, p, proc.(phase := Checked(true))).(holder := Some(p));
            var o := proc.store.value;
            var file := SealFile(o.vault, w.counter);
            && Begin(w, p, Skip) == w1 && Continue(w1, p) == w2
            && Continue(w2, p)
               == Write(w, p, file, Saved(o.edits, w.counter), true,
                        Done(proc.(store := Some(o.(loaded := file, edits := [])), verified := false)))
                    .(counter := w.counter + 1)
  {
    hide SealFile, Begin;
    PutTwice(w, p, proc.(phase := Saving(true)), proc.(phase := Checked(true)));
    FreeSaveBegins(w, p, proc);
    FreeSaveWrites(w, p, proc);
  }

  lemma {:induction false} FreeSaveBegins(w: World, p: Pid, proc: Proc)
    requires AboutTo(w, p, Save) && proc == w.procs[p] && w.holder == None
    requires proc.store.Some? && !proc.store.value.locked
    ensures Begin(w, p, Skip) == Put(w, p, proc.(phase := Saving(true))).(holder := Some(p))
  {
  }

  lemma {:induction false} FreeSaveWrites(w: World, p: Pid, proc: Proc)
    requires AboutTo(w, p, Save) && proc == w.procs[p] && proc.store.Some?
    ensures var w2 := Put(w, p, proc.(phase := Checked(true))).(holder := Some(p));
            var o := proc.store.value;
            var file := SealFile(o.vault, w.counter);
            Continue(w2, p)
            == Write(w, p, file, Saved(o.edits, w.counter), true,
                     Done(proc.(store := Some(o.(loaded := file, edits := [])), verified := false)))
                 .(counter := w.counter + 1)
  {
    hide SealFile;
    var o := proc.store.value;
    var file := SealFile(o.vault, w.counter);
    PutTwice(w, p, proc.(phase := Checked(true)),
             Done(proc.(store := Some(o.(loaded := file, edits := [])), verified := false)));
  }

  /** init where there is no vault: afterwards there is an empty one, which the chosen passphrase opens and no other,
      and the phrase that was drawn and no other. */
  lemma {:induction false} InitCompletes(w: World, p: Pid, text: string, secret: Secret, words: Option<nat>)
    requires p in w.procs && w.disk.Absent? && w.holder == None
    requires w.procs[p] == Proc(InitProgram(text), 0, Ready, None, [], false, None, {}, [], false)
    ensures var w' := Solo(w, p, 12);
            && Over(w, w', p) && w'.snapshots == w.snapshots
            && Contents(w'.disk.file).entries == map[]
            && (LoadV2(w'.disk, secret).Ok? <==> secret == Passphrase(text))
            && (OpenWithMnemonic(w'.disk, words).Ok? <==> words == Some(w.counter + 5))
  {
    hide Solo, Once, SealFile, LoadV2, OpenWithMnemonic, NewVault, ApplyEdit, GenerateRecoveryKey, Write;
    var v, c := Founded(text, w.counter), w.counter;
    var w2 := InitFounds(w, p, text);
    InitAddsPhrase(w, w2, p, v);
    SoloAdd(w, p, 7, 5);
    FoundedFacts(text, c);
    RecoveryOnly(v, c + 5, c + 6, c + 7);
    var after := ApplyEdit(GenerateRecoveryKey(v, c + 5, c + 6, c + 7), v);
    SealedContents(after, c + 8);
    SealedFormat(after, c + 8);
    WellKeyedOpens(SealFile(after, c + 8), secret, words);
  }

  /** Process `p` alone has moved; its store is open, without the lock, on what is on disk. */
  predicate OpenFree(before: World, w: World, p: Pid, pc: nat, v: Vault)
    requires p in before.procs
  {
    && p in w.procs && w.procs == before.procs[p := w.procs[p]] && w.holder == None
    && w.sources == before.sources && w.snapshots == before.snapshots
    && var proc := w.procs[p];
    && proc.phase.Ready? && proc.pc == pc && proc.prog == before.procs[p].prog
    && proc.store.Some? && !proc.store.value.locked && proc.store.value.vault == v
    && w.disk == Sealed(proc.store.value.loaded)
  }

  /** The first two instructions of init: the vault is made, and saved once more. */
  lemma {:induction false} InitFounds(w: World, p: Pid, text: string) returns (w2: World)
    requires p in w.procs && w.disk.Absent? && w.holder == None
    requires w.procs[p] == Proc(InitProgram(text), 0, Ready, None, [], false, None, {}, [], false)
    ensures w2 == Solo(w, p, 7) && w2.counter == w.counter + 5 && OpenFree(w, w2, p, 2, Founded(text, w.counter))
  {
    hide Solo, Once, SealFile, NewVault, Write;
    var v, c := Founded(text, w.counter), w.counter;
    var made, saved := SealFile(v, c + 3), SealFile(v, c + 4);
    SoloFound(w, p, text);
    var proc1 := Done(w.procs[p].(store := Opened(v, made)));
    Wrote(w, p, made, Created(made), proc1);
    var w1 := Solo(w, p, 4);
    SoloSaveFree(w1, p);
    var proc2 := Done(proc1.(store := Some(Open(v, saved, [], false)), verified := false));
    Wrote(w1, p, saved, Saved([], c + 4), proc2);
    SoloAdd(w, p, 4, 3);
    w2 := Solo(w1, p, 3);
    assert w.procs[p := proc1][p := proc2] == w.procs[p := proc2];
  }

  /** Its last two: the recovery phrase, and the last save. */
  lemma {:induction false} InitAddsPhrase(before: World, w: World, p: Pid, v: Vault)
    requires p in before.procs && OpenFree(before, w, p, 2, v)
    requires |w.procs[p].prog| == 4 && w.procs[p].prog[2] == Mutate(NewRecoveryKey) && w.procs[p].prog[3] == Save
    ensures var w', c := Solo(w, p, 5), w.counter;
            && Over(before, w', p) && w'.snapshots == before.snapshots
            && w'.disk == Sealed(SealFile(ApplyEdit(GenerateRecoveryKey(v, c, c + 1, c + 2), v), c + 3))
  {
    hide Solo, Once, SealFile, ApplyEdit, GenerateRecoveryKey, Write;
    var o, c := w.procs[p].store.value, w.counter;
    var edit := GenerateRecoveryKey(v, c, c + 1, c + 2);
    var after := ApplyEdit(edit, v);
    var file := SealFile(after, c + 3);
    RecoveryMutation(w, p, v);
    SoloUnrolled(w, p);
    var w1 := Solo(w, p, 1);
    SoloSaveFree(w1, p);
    var w2 := Solo(w1, p, 3);
    var proc2 := Done(w1.procs[p].(store := Some(w1.procs[p].store.value.(loaded := file, edits := [])),
                                   verified := false));
    Wrote(w1, p, file, Saved(o.edits + [edit], c + 3), proc2);
    StopsAtEnd(w2, p);
    SoloUnrolled(w2, p);
    SoloAdd(w, p, 1, 3);
    SoloAdd(w, p, 4, 1);
  }

  lemma {:induction false} FoundedFacts(text: string, counter: nat)
    ensures var v := Founded(text, counter);
            WellKeyed(v) && v.entries == map[] && v.wrapRecovery == None && PassphraseOf(v) == Passphrase(text)
  {
  }

  lemma {:induction false} Wrote(w: World, p: Pid, file: VaultFile, commit: Commit, proc: Proc)
    ensures var w' := Write(w, p, file, commit, true, proc);
            && w'.disk == Sealed(file) && w'.holder == None && w'.sources == w.sources && w'.snapshots == w.snapshots
            && p in w'.procs && w'.procs[p] == proc && w'.procs == w.procs[p := proc] && w'.counter == w.counter
  {
  }

  lemma {:induction false} RecoveryMutation(w: World, p: Pid, v: Vault)
    requires AboutTo(w, p, Mutate(NewRecoveryKey)) && w.procs[p].store.Some? && w.procs[p].store.value.vault == v
    ensures var edit, o := GenerateRecoveryKey(v, w.counter, w.counter + 1, w.counter + 2), w.procs[p].store.value;
            Once(w, p) == Put(w, p, Done(w.procs[p].(
                            store := Some(o.(vault := ApplyEdit(edit, v), edits := o.edits + [edit])))))
                            .(counter := w.counter + 3)
  {
    OnceIs(w, p);
    var edit := GenerateRecoveryKey(v, w.counter, w.counter + 1, w.counter + 2);
    assert Begin(w, p, Skip) == Edited(w, p, edit, w.counter + 3) by { hide Edited, GenerateRecoveryKey; }
    hide Once;
  }

  // ---- restore --------------------------------------------------------------------------------------------------

  /** restore: a snapshot that opens replaces the vault file, after the old one was kept, and then the agent is told to
      drop its keys; one that does not open changes nothing at all. */
  lemma {:induction false} RestoreCompletes(w: World, p: Pid, file: VaultFile, text: string)
    requires p in w.procs && w.holder == None && file in w.snapshots
    requires w.procs[p] == Proc(RestoreProgram(file, text), 0, Ready, None, [], false, None, {}, [], false)
    ensures var w' := Solo(w, p, 6);
            && p in w'.procs && w'.procs == w.procs[p := w'.procs[p]] && w'.procs[p].phase.Stopped?
            && w'.holder == None && w'.sources == w.sources
            && if LoadV2(Sealed(file), Passphrase(text)).Ok? then
                 && w'.disk == Sealed(file)
                 && w'.snapshots == w.snapshots + (if w.disk.Sealed? then {w.disk.file} else {})
                 && AboutTo(Solo(w, p, 4), p, DropKeys)
                 && Next(Solo(w, p, 4), Step(p, Plain)).agent == {}
               else w' == Stop(w, p)
  {
    hide Solo, Once, LoadV2, Begin, Continue;
    OnceIs(w, p);
    SoloUnrolled(w, p);
    SoloAdd(w, p, 1, 5);
    if LoadV2(Sealed(file), Passphrase(text)).Ok? {
      var w4 := RestoreSteps(w, p, file, text);
      SoloUnrolled(w4, p);
      SoloAdd(w, p, 4, 2);
      DropSteps(w4, p);
    } else {
      RestoreRefused(w, p, file, text);
      SoloStopped(Stop(w, p), p, 5);
    }
  }

  lemma {:induction false} RestoreRefused(w: World, p: Pid, file: VaultFile, text: string)
    requires AboutTo(w, p, Restore(file, text)) && LoadV2(Sealed(file), Passphrase(text)).Err?
    ensures Begin(w, p, Skip) == Stop(w, p)
  {
    hide LoadV2;
  }

  /** The steps of a restore up to its write. */
  lemma {:induction false} RestoreSteps(w: World, p: Pid, file: VaultFile, text: string) returns (w4: World)
    requires AboutTo(w, p, Restore(file, text)) && w.holder == None && file in w.snapshots
    requires LoadV2(Sealed(file), Passphrase(text)).Ok?
    ensures w4 == Solo(w, p, 4) && p in w4.procs && w4.procs == w.procs[p := Done(w.procs[p])]
    ensures w4.holder == None && w4.sources == w.sources && w4.disk == Sealed(file)
    ensures w4.snapshots == w.snapshots + (if w.disk.Sealed? then {w.disk.file} else {})
  {
    hide Solo, Once, LoadV2, Begin, Continue, InRestore, Write;
    var proc := w.procs[p];
    var kept := w.(snapshots := w.snapshots + (if w.disk.Sealed? then {w.disk.file} else {}));
    var w1 := Put(w, p, proc.(phase := BackingUp));
    var w2 := Put(kept, p, proc.(phase := WaitRestore));
    var w3 := Put(kept, p, proc.(phase := Restoring)).(holder := Some(p));
    w4 := Write(kept, p, file, Restored(file), true, Done(proc));
    BackupBegins(w, p, file, text);
    RestoreStepsAre(w, p, file, kept);
    OnceIs(w, p);
    OnceIs(w1, p);
    OnceIs(w2, p);
    OnceIs(w3, p);
    SoloFour(w, w1, w2, w3, w4, p);
    Wrote(kept, p, file, Restored(file), Done(proc));
  }

  lemma {:induction false} SoloFour(w: World, w1: World, w2: World, w3: World, w4: World, p: Pid)
    requires Once(w, p) == w1 && Once(w1, p) == w2 && Once(w2, p) == w3 && Once(w3, p) == w4
    ensures Solo(w, p, 4) == w4
  {
    hide Once, Solo;
    SoloUnrolled(w, p);
    SoloUnrolled(w3, p);
    SoloAdd(w, p, 3, 1);
  }

  lemma {:induction false} RestoreStepsAre(w: World, p: Pid, file: VaultFile, kept: World)
    requires p in w.procs && w.procs[p].pc < |w.procs[p].prog| && w.holder == None && file in w.snapshots
    requires w.procs[p].prog[w.procs[p].pc].Restore? && w.procs[p].prog[w.procs[p].pc].file == file
    requires kept == w.(snapshots := w.snapshots + (if w.disk.Sealed? then {w.disk.file} else {}))
    ensures var proc := w.procs[p];
            var w2 := Put(kept, p, proc.(phase := WaitRestore));
            var w3 := Put(kept, p, proc.(phase := Restoring)).(holder := Some(p));
            && Continue(Put(w, p, proc.(phase := BackingUp)), p) == w2 && Continue(w2, p) == w3
            && Continue(w3, p) == Write(kept, p, file, Restored(file), true, Done(proc))
  {
    hide Continue;
    var proc := w.procs[p];
    var w1 := Put(w, p, proc.(phase := BackingUp));
    RestoreWaits(w1, p, file);
    PutTwice(w, p, proc.(phase := BackingUp), proc.(phase := WaitRestore));
    var w2 := Put(kept, p, proc.(phase := WaitRestore));
    RestoreLocks(w2, p, file);
    PutTwice(kept, p, proc.(phase := WaitRestore), proc.(phase := Restoring));
    RestoreWrites(Put(kept, p, proc.(phase := Restoring)).(holder := Some(p)), p, file);
    PutTwice(kept, p, proc.(phase := Restoring), Done(proc));
  }

  lemma {:induction false} BackupBegins(w: World, p: Pid, file: VaultFile, text: string)
    requires AboutTo(w, p, Restore(file, text)) && file in w.snapshots && LoadV2(Sealed(file), Passphrase(text)).Ok?
    ensures Begin(w, p, Skip) == Put(w, p, w.procs[p].(phase := BackingUp))
  {
    hide LoadV2, SetPair, Edited;
  }

  /** `p` is inside a restore of `file`, in this phase. */
  predicate InRestore(w: World, p: Pid, file: VaultFile, phase: Phase) {
    && p in w.procs && w.procs[p].phase == phase && w.procs[p].pc < |w.procs[p].prog|
    && w.procs[p].prog[w.procs[p].pc].Restore? && w.procs[p].prog[w.procs[p].pc].file == file
  }

  lemma {:induction false} RestoreWaits(w: World, p: Pid, file: VaultFile)
    requires InRestore(w, p, file, BackingUp)
    ensures Continue(w, p) == Put(w, p, w.procs[p].(phase := WaitRestore))
                                .(snapshots := w.snapshots + (if w.disk.Sealed? then {w.disk.file} else {}))
  {
    assert w.snapshots + {} == w.snapshots;
  }

  lemma {:induction false} RestoreLocks(w: World, p: Pid, file: VaultFile)
    requires InRestore(w, p, file, WaitRestore) && file in w.snapshots && w.holder == None
    ensures Continue(w, p) == Put(w, p, w.procs[p].(phase := Restoring)).(holder := Some(p))
  {
  }

  lemma {:induction false} RestoreWrites(w: World, p: Pid, file: VaultFile)
    requires InRestore(w, p, file, Restoring)
    ensures Continue(w, p) == Write(w, p, file, Restored(file), true, Done(w.procs[p]))
  {
  }

  lemma {:induction false} DropSteps(w: World, p: Pid)
    requires AboutTo(w, p, DropKeys) && w.procs[p].pc + 1 == |w.procs[p].prog| && w.holder == None
    ensures Next(w, Step(p, Plain)).agent == {}
    ensures var w' := Once(Once(w, p), p);
            && p in w'.procs && w'.procs == w.procs[p := w'.procs[p]] && w'.procs[p].phase.Stopped?
            && w'.holder == None && w'.sources == w.sources && w'.disk == w.disk && w'.snapshots == w.snapshots
  {
    OnceIs(w, p);
    StepIs(w, p, Plain);
    StopsAtEnd(Put(w, p, Done(w.procs[p])), p);
    hide Next;
  }

  // ---- The agent ------------------------------------------------------------------------------------------------

  /** After a command opened the vault with the passphrase and told the agent, the agent has a key that opens it, and
      the next command opens it in one step, without the passphrase. */
  lemma {:induction false} CachedKeyOpens(w: World, p: Pid, text: string, q: Pid, other: string) returns (key: Key)
    requires AboutTo(w, p, CacheKey(text)) && w.disk.Sealed? && WellKeyedFile(w.disk.file)
    requires PassphraseOf(Contents(w.disk.file)) == Passphrase(text)
    requires q != p && AboutTo(w, q, OpenVault(other))
    ensures var w' := Next(Next(w, Step(p, Plain)), Step(p, Plain));
            && key in w'.agent && w'.disk == w.disk
            && var w'' := Next(w', Step(q, UseAgent(key)));
               q in w''.procs && w''.procs[q].store == Opened(Contents(w.disk.file), w.disk.file)
  {
    hide LoadV2, OpenWithMnemonic, SetPair, Edited, WellKeyedFile;
    key := Derived(Passphrase(text), w.disk.file.passphrase.salt, w.disk.file.kdf);
    DerivedKeyOpens(w.disk.file, text);
    StepIs(w, p, Plain);
    var w1 := At(w, p, Caching(key));
    assert Next(w, Step(p, Plain)) == w1;
    StepIs(w1, p, Plain);
    var w2 := Put(w1, p, Done(w1.procs[p])).(agent := w.agent + {key});
    assert Next(w1, Step(p, Plain)) == w2;
    hide DeriveWrapKey, OpenWithWrapKey;
    StepIs(w2, q, UseAgent(key));
  }

  lemma {:induction false} DerivedKeyOpens(f: VaultFile, text: string)
    requires WellKeyedFile(f) && PassphraseOf(Contents(f)) == Passphrase(text)
    ensures DeriveWrapKey(Sealed(f), Passphrase(text)) == Ok(Derived(Passphrase(text), f.passphrase.salt, f.kdf))
    ensures OpenWithWrapKey(Sealed(f), Derived(Passphrase(text), f.passphrase.salt, f.kdf)) == Ok(Contents(f))
  {
  }
}
