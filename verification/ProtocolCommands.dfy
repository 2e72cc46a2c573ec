/** The programs of the protocol and the command methods agree: a command that nobody disturbs ends where its
    method ends. */
module ProtocolCommands {
  import opened Common
  import opened VaultFormat
  import opened Protocol
  import opened ProtocolActions
  import opened ProtocolProgress
  import opened Commands

  /** Process `p` alone has moved since `before`: it holds the lock, has changed its copy to `v` and will verify
      `expected`, but has written nothing. */
  predicate Changing(before: World, w: World, p: Pid, pc: nat, v: Vault, expected: seq<(string, string)>)
    requires p in before.procs
  {
    && p in w.procs && w.procs == before.procs[p := w.procs[p]] && w.holder == Some(p)
    && w.disk == before.disk && w.sources == before.sources && w.disk.Sealed?
    && var proc := w.procs[p];
    && proc.phase.Ready? && proc.pc == pc && proc.prog == before.procs[p].prog && proc.expected == expected
    && proc.store.Some? && proc.store.value.vault == v
    && proc.store.value.loaded == w.disk.file && proc.store.value.locked
  }

  /** Process `p` alone has moved, and has ended at instruction `pc` without changing anything but the vault. */
  predicate Ended(before: World, w: World, p: Pid, pc: nat)
    requires p in before.procs
  {
    && p in w.procs && w.procs == before.procs[p := w.procs[p]] && w.holder == None && w.sources == before.sources
    && w.procs[p].phase.Stopped? && w.procs[p].pc == pc && w.procs[p].prog == before.procs[p].prog
  }

  // ---- One pair ----------------------------------------------------------------------------------

  lemma {:induction false} StoresValue(before: World, w: World, p: Pid, v: Vault, expected: seq<(string, string)>,
                                       key: string, value: string, tier: Option<nat>, now: int)
    requires p in before.procs && p in w.procs && AboutTo(w, p, SetValue(key, value, tier, now))
    requires Changing(before, w, p, w.procs[p].pc, v, expected)
    ensures var to, pc := TierFor(tier, key, v.entries), w.procs[p].pc;
            if ValidTier(to) then
              Changing(before, Once(w, p), p, pc + 1, ApplyEdit(SetEdit(key, value, to, now), v),
                       expected + [(key, value)])
            else Ended(before, Once(w, p), p, pc) && Once(w, p).disk == w.disk
  {
    hide TierFor, ValidTier, ApplyEdit;
    var to := TierFor(tier, key, v.entries);
    OnceIs(w, p);
    BeginSetValue(w, p, key, value, tier, now);
    if ValidTier(to) {
      SetPairResult(w, p, key, value, to, now);
    } else {
      SetPairRefused(w, p, key, value, to, now);
    }
  }

  lemma {:induction false} BeginSetValue(w: World, p: Pid, key: string, value: string, tier: Option<nat>, now: int)
    requires AboutTo(w, p, SetValue(key, value, tier, now)) && w.procs[p].store.Some?
    ensures Begin(w, p, Skip)
         == SetPair(w, p, key, value, TierFor(tier, key, w.procs[p].store.value.vault.entries), now)
  {
    hide SetPair, TierFor;
  }

  lemma {:induction false} SetPairRefused(w: World, p: Pid, key: string, value: string, tier: nat, now: int)
    requires p in w.procs && w.procs[p].store.Some? && !ValidTier(tier)
    ensures SetPair(w, p, key, value, tier, now) == Stop(w, p)
  {
  }

  lemma {:induction false} ChangesKey(before: World, w: World, p: Pid, v: Vault, expected: seq<(string, string)>,
                                      edit: Edit)
    requires p in before.procs && p in w.procs && AboutTo(w, p, Mutate(Change(edit)))
    requires Changing(before, w, p, w.procs[p].pc, v, expected) && Refusal(edit, v.entries).None?
    ensures Changing(before, Once(w, p), p, w.procs[p].pc + 1, ApplyEdit(edit, v), expected)
  {
    hide ApplyEdit, Refusal;
    OnceIs(w, p);
    assert Begin(w, p, Skip) == Edited(w, p, edit, w.counter + 3);
  }

  /** The instructions for one pair do to the copy what the method does to the store. */
  lemma {:induction false} StoresPair(before: World, w: World, p: Pid, v: Vault, expected: seq<(string, string)>,
                                      pair: (string, string), o: SetOptions, now: int)
    returns (n: nat)
    requires p in before.procs && p in w.procs && Changing(before, w, p, w.procs[p].pc, v, expected)
    requires var instrs := PairInstrs(pair.0, pair.1, o.tier, o.rotateDays, o.expiresAt, now);
             var proc := w.procs[p];
             proc.pc + |instrs| <= |proc.prog| && proc.prog[proc.pc..proc.pc + |instrs|] == instrs
    ensures var instrs := PairInstrs(pair.0, pair.1, o.tier, o.rotateDays, o.expiresAt, now);
            var after, pc := StorePair(v, pair.0, pair.1, o, now), w.procs[p].pc;
            if after.Ok? then
              n == |instrs| && Changing(before, Solo(w, p, n), p, pc + n, after.value, expected + [pair])
            else Ended(before, Solo(w, p, n), p, pc) && Solo(w, p, n).disk == w.disk
  {
    hide Changing, Ended, Once, ApplyEdit, SetEntry, TierFor, ValidTier;
    var instrs := PairInstrs(pair.0, pair.1, o.tier, o.rotateDays, o.expiresAt, now);
    var proc, pc := w.procs[p], w.procs[p].pc;
    InstrAt(proc.prog, pc, instrs, 0);
    SoloUnrolled(w, p);
    var to := TierFor(o.tier, pair.0, v.entries);
    ReadyFrom(before, w, p, pc, v, expected);
    StoresValue(before, w, p, v, expected, pair.0, pair.1, o.tier, now);
    n := 1;
    if ValidTier(to) {
      var v1 := ApplyEdit(SetEdit(pair.0, pair.1, to, now), v);
      var w1 := Once(w, p);
      SetMakesKey(v, pair.0, pair.1, to, now);
      ReadyFrom(before, w1, p, pc + 1, v1, expected + [pair]);
      var policy := if o.rotateDays == Some(0) then None else o.rotateDays;
      if o.rotateDays.Some? {
        var rotation := RotationEdit(pair.0, policy, now);
        InstrAt(proc.prog, pc, instrs, 1);
        ChangesKey(before, w1, p, v1, expected + [pair], rotation);
        n := 2;
        var w2 := Once(w1, p);
        ReadyFrom(before, w2, p, pc + 2, ApplyEdit(rotation, v1), expected + [pair]);
        if o.expiresAt.Some? {
          InstrAt(proc.prog, pc, instrs, 2);
          KeyStays(rotation, v1, pair.0, o.expiresAt);
          ChangesKey(before, w2, p, ApplyEdit(rotation, v1), expected + [pair], ExpiryEdit(pair.0, o.expiresAt));
          n := 3;
        }
      } else if o.expiresAt.Some? {
        InstrAt(proc.prog, pc, instrs, 1);
        ChangesKey(before, w1, p, v1, expected + [pair], ExpiryEdit(pair.0, o.expiresAt));
        n := 2;
      }
    }
  }

  lemma {:induction false} InstrAt(prog: seq<Instr>, from: nat, instrs: seq<Instr>, i: nat)
    requires i < |instrs| && from + |instrs| <= |prog| && prog[from..from + |instrs|] == instrs
    ensures prog[from + i] == instrs[i]
  {
    assert prog[from + i] == prog[from..from + |instrs|][i];
  }

  lemma {:induction false} ReadyFrom(before: World, w: World, p: Pid, pc: nat, v: Vault,
                                     expected: seq<(string, string)>)
    requires p in before.procs && Changing(before, w, p, pc, v, expected)
    ensures p in w.procs && w.procs[p].phase.Ready? && w.procs[p].pc == pc && w.procs[p].prog == before.procs[p].prog
  {
  }

  lemma {:induction false} SetMakesKey(v: Vault, key: string, value: string, tier: nat, now: int)
    requires ValidTier(tier)
    ensures var after := ApplyEdit(SetEdit(key, value, tier, now), v).entries;
            && (forall days, at :: Refusal(RotationEdit(key, days, at), after).None?)
            && (forall expiry :: Refusal(ExpiryEdit(key, expiry), after).None?)
  {
  }

  lemma {:induction false} KeyStays(rotation: Edit, v: Vault, key: string, expiry: Option<int>)
    requires rotation.RotationEdit? && rotation.key == key && Refusal(rotation, v.entries).None?
    ensures Refusal(ExpiryEdit(key, expiry), ApplyEdit(rotation, v).entries).None?
  {
  }

  // ---- All pairs, and the whole command ------------------------------------------------------------

  /** The instructions for all pairs do to the copy what the loop of the method does to the store. */
  lemma {:induction false} StoresPairs(before: World, w: World, p: Pid, v: Vault, pairs: seq<(string, string)>,
                                       o: SetOptions, now: int)
    returns (n: nat, pc: nat)
    requires p in before.procs && p in w.procs && Changing(before, w, p, w.procs[p].pc, v, [])
    requires var instrs := SetInstrs(pairs, o.tier, o.rotateDays, o.expiresAt, now);
             var proc := w.procs[p];
             proc.pc + |instrs| <= |proc.prog| && proc.prog[proc.pc..proc.pc + |instrs|] == instrs
    ensures var instrs := SetInstrs(pairs, o.tier, o.rotateDays, o.expiresAt, now);
            var after := StorePairs(v, pairs, o, now);
            if after.Ok? then
              && n == |instrs| && pc == w.procs[p].pc + n
              && Changing(before, Solo(w, p, n), p, pc, after.value, pairs)
            else pc < w.procs[p].pc + |instrs| && Ended(before, Solo(w, p, n), p, pc) && Solo(w, p, n).disk == w.disk
    decreases |pairs|
  {
    hide Changing, Ended, StorePair, PairInstrs, Solo, Next;
    pc := w.procs[p].pc;
    n := 0;
    if pairs == [] {
      assert Solo(w, p, 0) == w by { NoSteps(w, p); }
    } else {
      var last := |pairs| - 1;
      var pair := pairs[last];
      var earlier := SetInstrs(pairs[..last], o.tier, o.rotateDays, o.expiresAt, now);
      var instrs := PairInstrs(pair.0, pair.1, o.tier, o.rotateDays, o.expiresAt, now);
      var prog := w.procs[p].prog;
      SliceOfSlice(prog, w.procs[p].pc, earlier, instrs);
      n, pc := StoresPairs(before, w, p, v, pairs[..last], o, now);
      var sofar := StorePairs(v, pairs[..last], o, now);
      if sofar.Ok? {
        var w1 := Solo(w, p, n);
        ReadyFrom(before, w, p, w.procs[p].pc, v, []);
        ReadyFrom(before, w1, p, pc, sofar.value, pairs[..last]);
        var m := StoresPair(before, w1, p, sofar.value, pairs[..last], pair, o, now);
        SoloAdd(w, p, n, m);
        SameDisk(before, w, p, w.procs[p].pc, v, []);
        SameDisk(before, w1, p, pc, sofar.value, pairs[..last]);
        assert pairs == pairs[..last] + [pair];
        n := n + m;
        if StorePair(sofar.value, pair.0, pair.1, o, now).Ok? {
          pc := pc + m;
        } else {
          SomeInstr(pair, o, now);
        }
      }
    }
  }

  lemma {:induction false} NoSteps(w: World, p: Pid)
    ensures Solo(w, p, 0) == w
  {
  }

  lemma {:induction false} SomeInstr(pair: (string, string), o: SetOptions, now: int)
    ensures |PairInstrs(pair.0, pair.1, o.tier, o.rotateDays, o.expiresAt, now)| > 0
  {
  }

  lemma {:induction false} SameDisk(before: World, w: World, p: Pid, pc: nat, v: Vault,
                                    expected: seq<(string, string)>)
    requires p in before.procs && Changing(before, w, p, pc, v, expected)
    ensures w.disk == before.disk
  {
  }

  lemma {:induction false} SliceOfSlice(prog: seq<Instr>, from: nat, earlier: seq<Instr>, later: seq<Instr>)
    requires from + |earlier| + |later| <= |prog|
    requires prog[from..from + |earlier + later|] == earlier + later
    ensures prog[from..from + |earlier|] == earlier
    ensures prog[from + |earlier|..from + |earlier| + |later|] == later
  {
    var slice := prog[from..from + |earlier + later|];
    assert slice[..|earlier|] == earlier && slice[|earlier|..] == later;
    assert slice[..|earlier|] == prog[from..from + |earlier|];
  }

  lemma {:induction false} StartsChanging(before: World, w: World, p: Pid, v: Vault)
    requires p in before.procs && before.disk.Sealed? && v == Contents(before.disk.file)
    requires before.procs[p].pc == 0 && before.procs[p].expected == []
    requires w == Put(before, p, before.procs[p].(pc := 3, phase := Ready, verified := false,
                                                  store := Some(Open(v, before.disk.file, [], true))))
                    .(holder := Some(p))
    ensures Changing(before, w, p, 3, v, [])
  {
  }

  /** Saving and verifying, the end of the program: the copy is on disk, and the end is reached if and only if the
      verification succeeds. */
  lemma {:induction false} SavesAndVerifies(before: World, w: World, p: Pid, pc: nat, v: Vault,
                                            expected: seq<(string, string)>)
    returns (pc': nat)
    requires p in before.procs && Changing(before, w, p, pc, v, expected)
    requires var prog := before.procs[p].prog;
             |prog| == pc + 2 && prog[pc] == Save && prog[pc + 1] == Verify
    ensures Ended(before, Solo(w, p, 5), p, pc') && Solo(w, p, 5).disk == Sealed(SealFile(v, w.counter))
    ensures pc' == pc + 2 <==> VerifyPersisted(v.dataKey, Sealed(SealFile(v, w.counter)), expected).Ok?
  {
    hide Solo, Next, SealFile, VerifyPersisted, Once;
    var proc := w.procs[p];
    var o, file := proc.store.value, SealFile(v, w.counter);
    SoloSave(w, p);
    var w1 := Solo(w, p, 3);
    SoloAdd(w, p, 3, 1);
    SoloAdd(w, p, 4, 1);
    if VerifyPersisted(v.dataKey, w1.disk, expected).Ok? {
      SoloVerify(w1, p);
      var w2 := Solo(w1, p, 1);
      StopsAtEnd(w2, p);
      SoloUnrolled(w2, p);
      pc' := pc + 2;
    } else {
      SoloVerifyFails(w1, p);
      SoloStopped(Solo(w1, p, 1), p, 1);
      pc' := pc + 1;
    }
  }

  lemma {:induction false} EndedMeans(before: World, w: World, p: Pid, pc: nat)
    requires p in before.procs && Ended(before, w, p, pc)
    ensures p in w.procs && w.procs == before.procs[p := w.procs[p]] && w.holder == None && w.sources == before.sources
    ensures w.procs[p].phase.Stopped? && w.procs[p].pc == pc
  {
  }

  lemma {:induction false} SetProgramParts(text: string, pairs: seq<(string, string)>, o: SetOptions, now: int)
    ensures var prog := SetProgram(text, pairs, o.tier, o.rotateDays, o.expiresAt, now);
            var instrs := SetInstrs(pairs, o.tier, o.rotateDays, o.expiresAt, now);
            && |prog| == 3 + |instrs| + 2 && prog[3..3 + |instrs|] == instrs
            && prog[0] == OpenVault(text) && prog[1] == CacheKey(text) && prog[2] == LockAndRefresh
            && prog[3 + |instrs|] == Save && prog[3 + |instrs| + 1] == Verify
  {
  }

  lemma {:induction false} StoredVerifies(v: Vault, pairs: seq<(string, string)>, o: SetOptions, now: int, nonce: nat)
    requires StorePairs(v, pairs, o, now).Ok?
    ensures var after := StorePairs(v, pairs, o, now).value;
            && Contents(SealFile(after, nonce)) == after
            && (VerifyPersisted(after.dataKey, Sealed(SealFile(after, nonce)), pairs).Ok? <==> Consistent(pairs))
  {
    hide StorePairs, VerifyPersisted, Consistent;
    StoredLast(v, pairs, o, now, "");
    VerifiesIffConsistent(v, pairs, o, now, nonce);
    SealedContents(StorePairs(v, pairs, o, now).value, nonce);
  }

  /** A `set` that nobody disturbs leaves the vault that the method computes, and comes to its end if and only if no
      key was given two values; a refused tier leaves the file alone. */
  lemma {:induction false} SetCompletes(w: World, p: Pid, text: string, pairs: seq<(string, string)>, o: SetOptions,
                                        now: int)
    returns (n: nat)
    requires var prog := SetProgram(text, pairs, o.tier, o.rotateDays, o.expiresAt, now);
             p in w.procs && w.procs[p] == Proc(prog, 0, Ready, None, [], false, None, {}, [], false)
    requires w.holder == None && w.disk.Sealed? && WellKeyedFile(w.disk.file)
    requires PassphraseOf(Contents(w.disk.file)) == Passphrase(text)
    ensures var w', after := Solo(w, p, n), StorePairs(Contents(w.disk.file), pairs, o, now);
            && p in w'.procs && w'.procs == w.procs[p := w'.procs[p]] && w'.procs[p].phase.Stopped?
            && w'.holder == None && w'.sources == w.sources && w'.disk.Sealed?
            && (if after.Ok? then Contents(w'.disk.file) == after.value else w'.disk == w.disk)
            && (w'.procs[p].pc == |w.procs[p].prog| <==> after.Ok? && Consistent(pairs))
  {
    hide Changing, Ended, Solo, Next, WellKeyedFile, SetInstrs, Consistent, StorePairs, Disciplined, SealFile,
         VerifyPersisted, Begin, Continue, SetProgram;
    var prog := SetProgram(text, pairs, o.tier, o.rotateDays, o.expiresAt, now);
    var instrs := SetInstrs(pairs, o.tier, o.rotateDays, o.expiresAt, now);
    SetProgramParts(text, pairs, o, now);
    SoloOpenForChange(w, p, text);
    var w1, v := Solo(w, p, 5), Contents(w.disk.file);
    StartsChanging(w, w1, p, v);
    var m, pc := StoresPairs(w, w1, p, v, pairs, o, now);
    SoloAdd(w, p, 5, m);
    var w2 := Solo(w1, p, m);
    if StorePairs(v, pairs, o, now).Ok? {
      var after := StorePairs(v, pairs, o, now).value;
      var pc' := SavesAndVerifies(w, w2, p, pc, after, pairs);
      SoloAdd(w, p, 5 + m, 5);
      EndedMeans(w, Solo(w2, p, 5), p, pc');
      StoredVerifies(v, pairs, o, now, w2.counter);
      n := 5 + m + 5;
    } else {
      n := 5 + m;
      EndedMeans(w, w2, p, pc);
    }
  }
}
