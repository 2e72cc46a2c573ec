/** Runs that get somewhere: a command that nobody disturbs completes. */
module ProtocolProgress {
  import opened Common
  import opened VaultFormat
  import opened Adopt
  import opened Protocol
  import opened ProtocolInvariant
  import opened ProtocolActions

  function Once(w: World, p: Pid): World {
    Next(w, Step(p, Skip))
  }

  /** `n` steps of process `p` alone. */
  function Solo(w: World, p: Pid, n: nat): World {
    if n == 0 then w else Once(Solo(w, p, n - 1), p)
  }

  lemma {:induction false} SoloAdd(w: World, p: Pid, m: nat, n: nat)
    ensures Solo(w, p, m + n) == Solo(Solo(w, p, m), p, n)
  {
    hide Once;
    if n > 0 {
      SoloAdd(w, p, m, n - 1);
    }
  }

  function SoloActs(p: Pid, n: nat): seq<Action> {
    if n == 0 then [] else SoloActs(p, n - 1) + [Step(p, Skip)]
  }

  lemma {:induction false} SoloIsRun(w: World, p: Pid, n: nat)
    ensures Solo(w, p, n) == Run(w, SoloActs(p, n))
  {
    hide Next;
    if n > 0 {
      SoloIsRun(w, p, n - 1);
      assert SoloActs(p, n)[..|SoloActs(p, n)| - 1] == SoloActs(p, n - 1);
    }
  }

  lemma {:induction false} RunAppend(w: World, xs: seq<Action>, ys: seq<Action>)
    ensures Run(w, xs + ys) == Run(Run(w, xs), ys)
  {
    hide Next;
    if ys == [] {
      assert xs + ys == xs;
    } else {
      var n := |ys| - 1;
      RunAppend(w, xs, ys[..n]);
      assert (xs + ys)[..|xs| + n] == xs + ys[..n];
    }
  }

  // ---- Single instructions, undisturbed ------------------------------------------------------

  lemma {:induction false} OnceIs(w: World, p: Pid)
    requires p in w.procs && w.procs[p].pc < |w.procs[p].prog| && !w.procs[p].phase.Stopped?
    ensures w.procs[p].phase.Ready? ==> Once(w, p) == Begin(w, p, Skip)
    ensures !w.procs[p].phase.Ready? ==> Once(w, p) == Continue(w, p)
  {
    hide Begin, Continue;
  }

  lemma {:induction false} SoloUnrolled(w: World, p: Pid)
    ensures Solo(w, p, 1) == Once(w, p)
    ensures Solo(w, p, 2) == Once(Once(w, p), p)
    ensures Solo(w, p, 3) == Once(Once(Once(w, p), p), p)
  {
    hide Next;
    assert Solo(w, p, 0) == w;
    assert Solo(w, p, 1) == Once(w, p);
    assert Solo(w, p, 2) == Once(Solo(w, p, 1), p);
  }

  lemma {:induction false} PutTwice(w: World, p: Pid, a: Proc, b: Proc)
    ensures Put(Put(w, p, a), p, b) == Put(w, p, b)
    ensures p in Put(w, p, a).procs && Put(w, p, a).procs[p] == a
  {
    assert w.procs[p := a][p := b] == w.procs[p := b];
  }

  lemma {:induction false} SoloOpen(w: World, p: Pid, text: string, v: Vault)
    requires AboutTo(w, p, OpenVault(text)) && w.disk.Sealed?
    requires LoadV2(w.disk, Passphrase(text)) == Ok(v)
    ensures Solo(w, p, 2) == Put(w, p, Done(w.procs[p].(store := Opened(v, w.disk.file))))
  {
    hide Solo, Once, LoadV2, SetPair, Edited, Write, PlanAdoption, Refresh, ResolveMutation;
    var proc := w.procs[p];
    var w1 := Put(w, p, proc.(phase := Loading));
    OnceIs(w, p);
    OnceIs(w1, p);
    SoloUnrolled(w, p);
    PutTwice(w, p, proc.(phase := Loading), Done(proc.(store := Opened(v, w.disk.file))));
  }

  lemma {:induction false} SoloSkipCache(w: World, p: Pid, text: string)
    requires AboutTo(w, p, CacheKey(text))
    ensures Solo(w, p, 1) == Put(w, p, Done(w.procs[p]))
  {
    assert Solo(w, p, 0) == w;
  }

  lemma {:induction false} SoloLock(w: World, p: Pid, v: Vault)
    requires AboutTo(w, p, LockAndRefresh) && w.disk.Sealed? && w.holder == None
    requires w.procs[p].store.Some? && !w.procs[p].store.value.locked
    requires Refresh(w.procs[p].store.value.vault, w.disk) == Ok(v)
    ensures Solo(w, p, 2)
         == Put(w, p, Done(w.procs[p].(store := Some(Open(v, w.disk.file, [], true)), verified := false)))
              .(holder := Some(p))
  {
    hide Solo, Once, Refresh, Begin, Continue;
    var proc := w.procs[p];
    var w1 := Put(w, p, proc.(phase := Refreshing)).(holder := Some(p));
    LockSteps(w, p, v);
    OnceIs(w, p);
    OnceIs(w1, p);
    SoloUnrolled(w, p);
    PutTwice(w, p, proc.(phase := Refreshing),
             Done(proc.(store := Some(Open(v, w.disk.file, [], true)), verified := false)));
  }

  lemma {:induction false} LockSteps(w: World, p: Pid, v: Vault)
    requires AboutTo(w, p, LockAndRefresh) && w.disk.Sealed? && w.holder == None
    requires w.procs[p].store.Some? && !w.procs[p].store.value.locked
    requires Refresh(w.procs[p].store.value.vault, w.disk) == Ok(v)
    ensures var proc := w.procs[p];
            var w1 := Put(w, p, proc.(phase := Refreshing)).(holder := Some(p));
            && Begin(w, p, Skip) == w1
            && Continue(w1, p)
               == Put(w1, p, Done(w1.procs[p].(store := Some(Open(v, w.disk.file, [], true)),
                                               verified := false)))
  {
    hide Refresh;
  }

  /** The start that every changing command shares: open, cache, lock, refresh. */
  lemma {:induction false} SoloOpenForChange(w: World, p: Pid, text: string)
    requires AboutTo(w, p, OpenVault(text)) && w.procs[p].pc + 2 < |w.procs[p].prog|
    requires var proc := w.procs[p];
             proc.prog[proc.pc + 1] == CacheKey(text) && proc.prog[proc.pc + 2] == LockAndRefresh
    requires w.holder == None && w.disk.Sealed? && WellKeyedFile(w.disk.file)
    requires PassphraseOf(Contents(w.disk.file)) == Passphrase(text)
    ensures var proc := w.procs[p];
            Solo(w, p, 5)
            == Put(w, p, proc.(pc := proc.pc + 3, phase := Ready, verified := false,
                               store := Some(Open(Contents(w.disk.file), w.disk.file, [], true))))
                 .(holder := Some(p))
  {
    hide Solo, LoadV2, Refresh, WellKeyedFile, Disciplined;
    var v, proc := Contents(w.disk.file), w.procs[p];
    WellKeyedFileOpens(w.disk.file, Passphrase(text), 0);
    RefreshedContents(w.disk.file);
    SoloOpen(w, p, text, v);
    var loaded := Done(proc.(store := Opened(v, w.disk.file)));
    SoloSkipCache(Solo(w, p, 2), p, text);
    PutTwice(w, p, loaded, Done(loaded));
    SoloLock(Put(w, p, Done(loaded)), p, v);
    PutTwice(w, p, Done(loaded),
             Done(Done(loaded).(store := Some(Open(v, w.disk.file, [], true)), verified := false)));
    SoloAdd(w, p, 2, 1);
    SoloAdd(w, p, 3, 2);
  }

  lemma {:induction false} RefreshedContents(f: VaultFile)
    requires WellKeyedFile(f)
    ensures Refresh(Contents(f), Sealed(f)) == Ok(Contents(f))
  {
  }

  lemma {:induction false} SoloSave(w: World, p: Pid)
    requires AboutTo(w, p, Save) && w.procs[p].store.Some? && w.procs[p].store.value.locked
    requires w.disk == Sealed(w.procs[p].store.value.loaded)
    ensures var o := w.procs[p].store.value;
            var file := SealFile(o.vault, w.counter);
            Solo(w, p, 3)
            == Write(w, p, file, Saved(o.edits, w.counter), false,
                     Done(w.procs[p].(store := Some(o.(loaded := file, edits := [])), verified := false)))
                 .(counter := w.counter + 1)
  {
    hide Solo, Once, SealFile, Begin, Continue, Write;
    var proc := w.procs[p];
    var w1 := Put(w, p, proc.(phase := Saving(false)));
    var w2 := Put(w, p, proc.(phase := Checked(false)));
    SaveSteps(w, p, proc);
    PutTwice(w, p, proc.(phase := Saving(false)), proc.(phase := Checked(false)));
    SavedPut(w, p, proc);
    OnceIs(w, p);
    OnceIs(w1, p);
    OnceIs(w2, p);
    SoloUnrolled(w, p);
  }

  /** The steps of a save up to its write. */
  lemma {:induction false} SaveSteps(w: World, p: Pid, proc: Proc)
    requires AboutTo(w, p, Save) && proc == w.procs[p]
    requires proc.store.Some? && proc.store.value.locked && w.disk == Sealed(proc.store.value.loaded)
    ensures Begin(w, p, Skip) == Put(w, p, proc.(phase := Saving(false)))
    ensures Continue(Put(w, p, proc.(phase := Saving(false))), p)
         == Put(Put(w, p, proc.(phase := Saving(false))), p, proc.(phase := Checked(false)))
  {
  }

  lemma {:induction false} SavedPut(w: World, p: Pid, proc: Proc)
    requires AboutTo(w, p, Save) && proc == w.procs[p] && proc.store.Some?
    ensures var o := proc.store.value;
            var file := SealFile(o.vault, w.counter);
            Continue(Put(w, p, proc.(phase := Checked(false))), p)
            == Write(w, p, file, Saved(o.edits, w.counter), false,
                     Done(proc.(store := Some(o.(loaded := file, edits := [])), verified := false)))
                 .(counter := w.counter + 1)
  {
    hide SealFile;
    var o := proc.store.value;
    var file := SealFile(o.vault, w.counter);
    PutTwice(w, p, proc.(phase := Checked(false)),
             Done(proc.(store := Some(o.(loaded := file, edits := [])), verified := false)));
  }

  lemma {:induction false} SoloVerify(w: World, p: Pid)
    requires AboutTo(w, p, Verify) && w.procs[p].store.Some?
    requires VerifyPersisted(w.procs[p].store.value.vault.dataKey, w.disk, w.procs[p].expected).Ok?
    ensures Solo(w, p, 1) == Put(w, p, Done(w.procs[p].(verified := true)))
  {
    hide Solo, Once, VerifyPersisted, SetPair, Edited, PlanAdoption, LoadV2, OpenWithWrapKey, OpenWithMnemonic;
    OnceIs(w, p);
    SoloUnrolled(w, p);
  }

  lemma {:induction false} SoloSetSource(w: World, p: Pid, key: string, tier: nat, now: int)
    requires AboutTo(w, p, SetSource(key, tier, now)) && ValidTier(tier)
    requires w.procs[p].store.Some? && w.procs[p].source.Some?
    ensures var proc := w.procs[p];
            var o, value := proc.store.value, proc.source.value.1;
            var edit := SetEdit(key, value, tier, now);
            Solo(w, p, 1)
            == Put(w, p, Done(proc.(
                 store := Some(o.(vault := ApplyEdit(edit, o.vault), edits := o.edits + [edit])),
                 expected := proc.expected + [(key, value)], verified := false,
                 taken := proc.taken + {key})))
  {
    hide Solo, Once, ApplyEdit, SetPair, Continue, Edited, Begin, Put, ValidTier;
    var proc := w.procs[p];
    var o, value := proc.store.value, proc.source.value.1;
    var edit := SetEdit(key, value, tier, now);
    var a := Done(proc.(
      store := Some(o.(vault := ApplyEdit(edit, o.vault), edits := o.edits + [edit]))));
    var b := a.(expected := proc.expected + [(key, value)], verified := false);
    SetPairResult(w, p, key, value, tier, now);
    PutTwice(w, p, b, b);
    BeginSetSource(w, p, key, tier, now, Put(w, p, b));
    PutTwice(w, p, b, b.(taken := proc.taken + {key}));
    OnceIs(w, p);
    SoloUnrolled(w, p);
  }

  lemma {:induction false} BeginSetSource(w: World, p: Pid, key: string, tier: nat, now: int, w': World)
    requires AboutTo(w, p, SetSource(key, tier, now))
    requires w.procs[p].store.Some? && w.procs[p].source.Some?
    requires w' == SetPair(w, p, key, w.procs[p].source.value.1, tier, now)
    requires p in w'.procs && !w'.procs[p].phase.Stopped?
    ensures Begin(w, p, Skip) == Put(w', p, w'.procs[p].(taken := w.procs[p].taken + {key}))
  {
    hide SetPair, Put;
  }

  lemma {:induction false} SetPairResult(w: World, p: Pid, key: string, value: string, tier: nat, now: int)
    requires p in w.procs && w.procs[p].store.Some? && ValidTier(tier)
    ensures var proc := w.procs[p];
            var o, edit := proc.store.value, SetEdit(key, value, tier, now);
            SetPair(w, p, key, value, tier, now)
            == Put(w, p, Done(proc.(
                 store := Some(o.(vault := ApplyEdit(edit, o.vault), edits := o.edits + [edit])))).(
                 expected := proc.expected + [(key, value)], verified := false))
  {
    hide ApplyEdit;
    var proc := w.procs[p];
    var o, edit := proc.store.value, SetEdit(key, value, tier, now);
    var a := Done(proc.(
      store := Some(o.(vault := ApplyEdit(edit, o.vault), edits := o.edits + [edit]))));
    PutTwice(w, p, a, a.(expected := proc.expected + [(key, value)], verified := false));
  }

  // ---- A whole import ------------------------------------------------------------------------

  /** Where an import stands when it has opened nothing yet but has read its source. */
  predicate ReadyToImport(w: World, p: Pid, text: string, path: Path, key: string, tier: nat,
                          now: int, value: string)
  {
    && AboutTo(w, p, OpenVault(text))
    && w.procs[p] == Proc(ImportProgram(text, path, key, tier, now), 1, Ready, None, [], false,
                          Some((path, value)), {}, [], false)
  }

  /** From there, if nobody else moves, ten steps later the value is on disk and the import is
      about to destroy its source; nothing else about the source files has changed. */
  lemma {:induction false} ImportGetsThere(w: World, p: Pid, text: string, path: Path, key: string, tier: nat,
                                           now: int, value: string)
    requires ReadyToImport(w, p, text, path, key, tier, now, value)
    requires w.holder == None && w.disk.Sealed? && WellKeyedFile(w.disk.file) && ValidTier(tier)
    requires PassphraseOf(Contents(w.disk.file)) == Passphrase(text)
    ensures var w' := Solo(w, p, 10);
            && AboutTo(w', p, DestroySource(path, key)) && w'.procs == w.procs[p := w'.procs[p]]
            && w'.procs[p].prog == ImportProgram(text, path, key, tier, now) && w'.procs[p].pc == 7
            && w'.holder == Some(p) && w'.sources == w.sources && w'.disk.Sealed?
            && Contents(w'.disk.file)
               == Contents(w.disk.file).(entries := SetEntry(w.disk.file.vault.plain, key, value, tier, now))
  {
    hide Solo, Next, ApplyEdits, LoadV2, Refresh, WellKeyedFile, Begin, Continue, VerifyPersisted, SetEntry,
         Disciplined;
    var v := Contents(w.disk.file);
    SoloOpenForChange(w, p, text);
    var w3 := Solo(w, p, 5);
    SoloSetSource(w3, p, key, tier, now);
    var w4 := Solo(w3, p, 1);
    SoloSave(w4, p);
    var w5 := Solo(w4, p, 3);
    var edit := SetEdit(key, value, tier, now);
    assert w5.procs[p].expected == [(key, value)];
    VerifiesOwnSave(ApplyEdit(edit, v), w4.counter, key, value, tier, now, v);
    SealedContents(ApplyEdit(edit, v), w4.counter);
    SoloVerify(w5, p);
    SoloAdd(w, p, 5, 1);
    SoloAdd(w, p, 6, 3);
    SoloAdd(w, p, 9, 1);
  }

  lemma {:induction false} VerifiesOwnSave(v': Vault, nonce: nat, key: string, value: string, tier: nat, now: int,
                                           v: Vault)
    requires ValidTier(tier) && v' == ApplyEdit(SetEdit(key, value, tier, now), v)
    ensures VerifyPersisted(v'.dataKey, Sealed(SealFile(v', nonce)), [(key, value)]).Ok?
    ensures v'.entries == SetEntry(v.entries, key, value, tier, now)
  {
    assert Holds(v'.entries, key, value);
    assert [(key, value)][1..] == [];
  }

  // ---- A whole command -----------------------------------------------------------------------

  /** Process `p` is about to run `prog` on a well-keyed vault that nobody has locked, with its passphrase. */
  predicate Undisturbed(w: World, p: Pid, prog: seq<Instr>, text: string) {
    && p in w.procs && w.procs[p] == Proc(prog, 0, Ready, None, [], false, None, {}, [], false)
    && w.holder == None && w.disk.Sealed? && WellKeyedFile(w.disk.file)
    && PassphraseOf(Contents(w.disk.file)) == Passphrase(text)
  }

  /** It has stopped, nobody holds the lock, there is a vault file, and no other process has changed. */
  predicate Ends(w: World, w': World, p: Pid) {
    && p in w'.procs && w'.procs == w.procs[p := w'.procs[p]] && w'.procs[p].phase.Stopped?
    && w'.holder == None && w'.disk.Sealed?
  }

  // ---- A whole adoption ----------------------------------------------------------------------

  /** What the adoption makes of the entries and the files of `w`, if it gets that far. */
  function PlanFor(w: World, work: seq<FileWork>, req: Request): (Progress, seq<Rewrite>)
    requires w.disk.Sealed?
  {
    PlanAdoption(work, w.sources, req, Progress(w.disk.file.vault.plain, [], [], [], 0, 0))
  }

  lemma {:induction false} SoloAdopt(w: World, p: Pid, work: seq<FileWork>, req: Request, plan: Progress,
                                     rewrites: seq<Rewrite>)
    requires AboutTo(w, p, AdoptSources(work, req)) && w.procs[p].store.Some?
    requires var start := Progress(w.procs[p].store.value.vault.entries, [], [], [], 0, 0);
             (plan, rewrites) == PlanAdoption(work, w.sources, req, start)
    ensures var proc := w.procs[p];
            var o := proc.store.value;
            Solo(w, p, 1)
            == Put(w, p, Done(proc.(
                 store := Some(o.(vault := o.vault.(entries := plan.entries), edits := o.edits + plan.edits)),
                 expected := proc.expected + plan.stored, verified := false,
                 rewrites := rewrites, planned := true)))
  {
    hide PlanAdoption, Solo, Once;
    OnceIs(w, p);
    SoloUnrolled(w, p);
  }

  /** Verification stops the process exactly when something is not stored. */
  lemma {:induction false} SoloVerifyFails(w: World, p: Pid)
    requires AboutTo(w, p, Verify) && w.procs[p].store.Some?
    requires VerifyPersisted(w.procs[p].store.value.vault.dataKey, w.disk, w.procs[p].expected).Err?
    ensures Solo(w, p, 1) == Stop(w, p)
  {
    hide Solo, Once, VerifyPersisted, SetPair, Edited, PlanAdoption, LoadV2, OpenWithWrapKey, OpenWithMnemonic;
    OnceIs(w, p);
    SoloUnrolled(w, p);
  }

  lemma {:induction false} SoloStopped(w: World, p: Pid, n: nat)
    requires p in w.procs && w.procs[p].phase.Stopped?
    ensures Solo(w, p, n) == w
  {
    if n > 0 {
      SoloStopped(w, p, n - 1);
      hide Begin, Continue;
    }
  }

  /** `n` of the planned rewrites done. */
  function RewritesDone(w: World, p: Pid, n: nat): World
    requires p in w.procs && n <= |w.procs[p].rewrites|
  {
    Put(w, p, w.procs[p].(rewrites := w.procs[p].rewrites[n..]))
      .(sources := Rewritten(w.sources, w.procs[p].rewrites[..n]))
  }

  /** Emptying a file and writing it. */
  lemma {:induction false} OneRewrite(w: World, p: Pid)
    requires AboutTo(w, p, RewriteSources) && w.procs[p].rewrites != []
    ensures var r := w.procs[p].rewrites[0];
            && Once(w, p) == At(w, p, Rewriting).(sources := w.sources[r.path := []])
            && Solo(w, p, 2) == Put(w, p, w.procs[p].(rewrites := w.procs[p].rewrites[1..]))
                                  .(sources := w.sources[r.path := r.after])
  {
    hide Once, Solo;
    var proc, r := w.procs[p], w.procs[p].rewrites[0];
    OnceIs(w, p);
    var mid := At(w, p, Rewriting).(sources := w.sources[r.path := []]);
    OnceIs(mid, p);
    SoloUnrolled(w, p);
    PutTwice(w, p, proc.(phase := Rewriting), proc.(rewrites := proc.rewrites[1..]));
    assert w.sources[r.path := []][r.path := r.after] == w.sources[r.path := r.after];
  }

  lemma {:induction false} SoloRewrites(w: World, p: Pid, n: nat)
    requires AboutTo(w, p, RewriteSources) && n <= |w.procs[p].rewrites|
    ensures Solo(w, p, 2 * n) == RewritesDone(w, p, n)
  {
    hide Once, Solo;
    var proc := w.procs[p];
    if n == 0 {
      assert proc.rewrites[0..] == proc.rewrites && proc.rewrites[..0] == [];
      assert w.procs[p := proc] == w.procs;
      SoloNothing(w, p);
    } else {
      SoloRewrites(w, p, n - 1);
      var mid := RewritesDone(w, p, n - 1);
      OneRewrite(mid, p);
      SoloAdd(w, p, 2 * (n - 1), 2);
      assert proc.rewrites[n - 1..][0] == proc.rewrites[n - 1] && proc.rewrites[n - 1..][1..] == proc.rewrites[n..];
      assert proc.rewrites[..n][..n - 1] == proc.rewrites[..n - 1];
      PutTwice(w, p, mid.procs[p], proc.(rewrites := proc.rewrites[n..]));
    }
  }

  lemma {:induction false} SoloNothing(w: World, p: Pid)
    ensures Solo(w, p, 0) == w
  {
  }

  lemma {:induction false} StopsAtEnd(w: World, p: Pid)
    requires p in w.procs && w.procs[p].phase.Ready? && w.procs[p].pc == |w.procs[p].prog|
    ensures Once(w, p) == Stop(w, p)
  {
  }

  lemma {:induction false} SoloRewriteAll(w: World, p: Pid)
    requires AboutTo(w, p, RewriteSources) && w.holder == Some(p) && w.procs[p].pc + 1 == |w.procs[p].prog|
    ensures var w' := Solo(w, p, 2 * |w.procs[p].rewrites| + 2);
            && p in w'.procs && w'.procs == w.procs[p := w'.procs[p]] && w'.procs[p].phase.Stopped?
            && w'.disk == w.disk && w'.holder == None
            && w'.sources == Rewritten(w.sources, w.procs[p].rewrites)
  {
    hide Solo, Once, Rewritten;
    var n := |w.procs[p].rewrites|;
    var w1 := RewritesDone(w, p, n);
    assert w.procs[p].rewrites[..n] == w.procs[p].rewrites;
    SoloRewrites(w, p, n);
    SoloAdd(w, p, 2 * n, 2);
    SoloUnrolled(w1, p);
    OnceIs(w1, p);
    var w2 := Put(w1, p, Done(w1.procs[p]));
    assert Once(w1, p) == w2;
    StopsAtEnd(w2, p);
  }

  /** Where a process that adopts stands after its save, if nobody else has moved. */
  lemma {:induction false} AdoptSaves(w: World, p: Pid, text: string, work: seq<FileWork>, req: Request)
    returns (w': World)
    requires AboutTo(w, p, OpenVault(text))
    requires w.procs[p] == Proc(AdoptProgram(text, work, req), 0, Ready, None, [], false, None, {}, [], false)
    requires w.holder == None && w.disk.Sealed? && WellKeyedFile(w.disk.file)
    requires PassphraseOf(Contents(w.disk.file)) == Passphrase(text)
    ensures w' == Solo(w, p, 9) && AboutTo(w', p, Verify) && w'.procs == w.procs[p := w'.procs[p]]
    ensures w'.procs[p].prog == AdoptProgram(text, work, req) && w'.procs[p].pc == 5 && w'.procs[p].store.Some?
    ensures w'.holder == Some(p) && w'.sources == w.sources && w'.disk.Sealed? && w'.disk.file.version == 2
    ensures var (plan, rewrites) := PlanFor(w, work, req);
            && Contents(w'.disk.file) == Contents(w.disk.file).(entries := plan.entries)
            && w'.procs[p].store.value.vault == Contents(w'.disk.file) && w'.disk.file.vault.aad == VaultAad
            && w'.procs[p].expected == plan.stored && w'.procs[p].rewrites == rewrites
  {
    hide Solo, Next, LoadV2, Refresh, WellKeyedFile, Begin, Continue, VerifyPersisted, Disciplined, PlanAdoption;
    var v := Contents(w.disk.file);
    SoloOpenForChange(w, p, text);
    var w3 := Solo(w, p, 5);
    var (plan, rewrites) := PlanFor(w, work, req);
    SoloAdopt(w3, p, work, req, plan, rewrites);
    var w4 := Solo(w3, p, 1);
    SoloSave(w4, p);
    w' := Solo(w4, p, 3);
    SealedContents(v.(entries := plan.entries), w4.counter);
    assert [] + plan.stored == plan.stored;
    AddUp(w, p);
  }

  lemma {:induction false} AddUp(w: World, p: Pid)
    ensures Solo(w, p, 9) == Solo(Solo(Solo(w, p, 5), p, 1), p, 3)
  {
    hide Solo;
    SoloAdd(w, p, 5, 1);
    SoloAdd(w, p, 6, 3);
  }

  lemma {:induction false} VerifiesIff(v: Vault, f: VaultFile, pairs: seq<(string, string)>)
    requires Contents(f) == v && f.vault.aad == VaultAad
    ensures VerifyPersisted(v.dataKey, Sealed(f), pairs).Ok? <==> Missing(v.entries, pairs) == []
  {
  }

  /** Where it stands after a verification that succeeds. */
  lemma {:induction false} AdoptReachesRewrites(w: World, p: Pid, text: string, work: seq<FileWork>, req: Request)
    requires AboutTo(w, p, OpenVault(text))
    requires w.procs[p] == Proc(AdoptProgram(text, work, req), 0, Ready, None, [], false, None, {}, [], false)
    requires w.holder == None && w.disk.Sealed? && WellKeyedFile(w.disk.file)
    requires PassphraseOf(Contents(w.disk.file)) == Passphrase(text)
    requires Consistent(PlanFor(w, work, req).0.stored)
    ensures var (plan, rewrites) := PlanFor(w, work, req);
            var w' := Solo(w, p, 10);
            && AboutTo(w', p, RewriteSources) && w'.procs == w.procs[p := w'.procs[p]]
            && w'.procs[p].pc + 1 == |w'.procs[p].prog| && w'.procs[p].rewrites == rewrites
            && w'.holder == Some(p) && w'.sources == w.sources
            && w'.disk.Sealed? && w'.disk.file.version == 2 && w'.disk.file.vault.aad == VaultAad
            && Contents(w'.disk.file) == Contents(w.disk.file).(entries := plan.entries)
  {
    hide Solo, Next, WellKeyedFile, Begin, Continue, VerifyPersisted, Disciplined, PlanAdoption, Rewritten,
         Consistent, Missing;
    var (plan, rewrites) := PlanFor(w, work, req);
    var w5 := AdoptSaves(w, p, text, work, req);
    var proc := w5.procs[p];
    VerifiesIff(proc.store.value.vault, w5.disk.file, plan.stored);
    PlanHoldsIff(work, w.sources, req, w.disk.file.vault.plain);
    SoloAdd(w, p, 9, 1);
    SoloVerify(w5, p);
    PutTwice(w5, p, Done(proc.(verified := true)), Done(proc.(verified := true)));
  }

  /** An adoption that nobody disturbs, whatever files, lines, prefix and force it has: it ends with the planned
      entries in the vault and the lock free, and it rewrites the sources as planned exactly when no key was
      given two different values; otherwise every source is as it was. */
  lemma {:induction false} AdoptCompletes(w: World, p: Pid, text: string, work: seq<FileWork>, req: Request)
    returns (n: nat)
    requires Undisturbed(w, p, AdoptProgram(text, work, req), text)
    ensures n == 12 + 2 * |PlanFor(w, work, req).1|
    ensures var (plan, rewrites), w' := PlanFor(w, work, req), Solo(w, p, n);
            && Ends(w, w', p) && w'.disk.file.version == 2 && w'.disk.file.vault.aad == VaultAad
            && Contents(w'.disk.file) == Contents(w.disk.file).(entries := plan.entries)
            && w'.sources == if Consistent(plan.stored) then Rewritten(w.sources, rewrites) else w.sources
  {
    hide Solo, Next, WellKeyedFile, Begin, Continue, VerifyPersisted, Disciplined, PlanAdoption, Rewritten,
         Consistent, Missing;
    var (plan, rewrites) := PlanFor(w, work, req);
    n := 12 + 2 * |rewrites|;
    var w5 := AdoptSaves(w, p, text, work, req);
    var proc := w5.procs[p];
    VerifiesIff(proc.store.value.vault, w5.disk.file, plan.stored);
    PlanHoldsIff(work, w.sources, req, w.disk.file.vault.plain);
    SoloAdd(w, p, 9, 1);
    SoloAdd(w, p, 10, 2 * |rewrites| + 2);
    if Consistent(plan.stored) {
      AdoptReachesRewrites(w, p, text, work, req);
      SoloRewriteAll(Solo(w, p, 10), p);
    } else {
      SoloVerifyFails(w5, p);
      SoloStopped(Stop(w5, p), p, 2 * |rewrites| + 2);
    }
  }

  // ---- A whole import, from its first step to its last -------------------------------------------

  lemma {:induction false} SoloRead(w: World, p: Pid, path: Path)
    requires AboutTo(w, p, ReadSource(path)) && path in w.sources && TrimmedText(w.sources[path]) != ""
    ensures Solo(w, p, 1)
         == Put(w, p, Done(w.procs[p].(source := Some((path, TrimmedText(w.sources[path]))), taken := {})))
  {
    hide TrimmedText, Solo, Once;
    OnceIs(w, p);
    SoloUnrolled(w, p);
  }

  lemma {:induction false} SoloDestroy(w: World, p: Pid, path: Path, key: string)
    requires AboutTo(w, p, DestroySource(path, key)) && path in w.sources && w.holder == Some(p)
    requires w.procs[p].pc + 1 == |w.procs[p].prog|
    ensures var w' := Solo(w, p, 2);
            && p in w'.procs && w'.procs == w.procs[p := w'.procs[p]] && w'.procs[p].phase.Stopped?
            && w'.disk == w.disk && w'.holder == None && w'.sources == w.sources - {path}
  {
    hide Solo, Once;
    var w1 := Put(w, p, Done(w.procs[p])).(sources := w.sources - {path});
    OnceIs(w, p);
    StopsAtEnd(w1, p);
    SoloUnrolled(w, p);
  }

  /** Whether an import comes to its end when nobody disturbs it: there is a file, its text is not blank, and the tier
      is one of 1 to 4. */
  predicate CanImport(w: World, path: Path, tier: nat) {
    path in w.sources && TrimmedText(w.sources[path]) != "" && 1 <= tier <= 4
  }

  /** An import that nobody disturbs stores the trimmed text of its source and then destroys the source, and nothing
      else about the files or the vault changes; if there is nothing to import, or the tier is none, nothing changes
      at all. */
  lemma {:induction false} ImportCompletes(w: World, p: Pid, text: string, path: Path, key: string, tier: nat, now: int)
    returns (n: nat)
    requires Undisturbed(w, p, ImportProgram(text, path, key, tier, now), text)
    ensures var w' := Solo(w, p, n);
            && Ends(w, w', p)
            && if CanImport(w, path, tier) then
                 && w'.sources == w.sources - {path}
                 && Contents(w'.disk.file)
                    == Contents(w.disk.file).(entries := SetEntry(w.disk.file.vault.plain, key,
                                                                  TrimmedText(w.sources[path]), tier, now))
               else w'.sources == w.sources && w'.disk == w.disk
  {
    hide Solo, Next, WellKeyedFile, TrimmedText, SetEntry, Begin, Continue, Disciplined;
    if path !in w.sources || TrimmedText(w.sources[path]) == "" {
      n := 1;
      SoloCannotRead(w, p, path);
    } else {
      var value := TrimmedText(w.sources[path]);
      SoloRead(w, p, path);
      var w1 := Solo(w, p, 1);
      if ValidTier(tier) {
        ImportGetsThere(w1, p, text, path, key, tier, now, value);
        var w2 := Solo(w1, p, 10);
        SoloDestroy(w2, p, path, key);
        SoloAdd(w, p, 1, 10);
        SoloAdd(w, p, 11, 2);
        n := 13;
        var last := Solo(w2, p, 2);
        assert w.procs[p := w1.procs[p]][p := w2.procs[p]][p := last.procs[p]] == w.procs[p := last.procs[p]];
      } else {
        ImportIsRefused(w1, p, text, path, key, tier, now, value);
        SoloAdd(w, p, 1, 6);
        n := 7;
        var last := Solo(w1, p, 6);
        assert w.procs[p := w1.procs[p]][p := last.procs[p]] == w.procs[p := last.procs[p]];
      }
    }
  }

  lemma {:induction false} SoloCannotRead(w: World, p: Pid, path: Path)
    requires AboutTo(w, p, ReadSource(path)) && (path !in w.sources || TrimmedText(w.sources[path]) == "")
    ensures Solo(w, p, 1) == Stop(w, p)
  {
    hide TrimmedText, Solo, Once;
    OnceIs(w, p);
    SoloUnrolled(w, p);
  }

  lemma {:induction false} ImportIsRefused(w: World, p: Pid, text: string, path: Path, key: string, tier: nat,
                                           now: int, value: string)
    requires ReadyToImport(w, p, text, path, key, tier, now, value)
    requires w.holder == None && w.disk.Sealed? && WellKeyedFile(w.disk.file) && !ValidTier(tier)
    requires PassphraseOf(Contents(w.disk.file)) == Passphrase(text)
    ensures var w' := Solo(w, p, 6);
            && p in w'.procs && w'.procs == w.procs[p := w'.procs[p]] && w'.procs[p].phase.Stopped?
            && w'.holder == None && w'.sources == w.sources && w'.disk == w.disk
  {
    hide Solo, Next, ApplyEdits, LoadV2, Refresh, WellKeyedFile, Continue, VerifyPersisted, SetEntry, Disciplined, Once;
    SoloOpenForChange(w, p, text);
    var w3 := Solo(w, p, 5);
    OnceIs(w3, p);
    SetIsRefused(w3, p, key, tier, now);
    SoloUnrolled(w3, p);
    SoloAdd(w, p, 5, 1);
  }

  lemma {:induction false} SetIsRefused(w: World, p: Pid, key: string, tier: nat, now: int)
    requires AboutTo(w, p, SetSource(key, tier, now)) && !ValidTier(tier)
    requires w.procs[p].store.Some? && w.procs[p].source.Some?
    ensures Begin(w, p, Skip) == Stop(w, p)
  {
  }
}
