/** Any number of processes sharing one vault file, one lock and some source files.

    Each process runs the instruction list of one command. A step is one access to the shared
    state: reading the file, taking the lock, comparing, writing, and so on are separate steps, so
    other processes may act between any two of them. A process may crash at any point; the
    operating system then drops its lock. */
module Protocol {
  import opened Common
  import opened VaultFormat
  import opened Adopt

  type Pid = nat
  type Path = string

  // ---- Programs --------------------------------------------------------------------------

  /** What a command checks before it changes anything: delete needs the key, retier also refuses to take a key out of
      the sign-only tier. */
  datatype Need = HasKey(key: string) | MayRetier(key: string, tier: nat)

  predicate Meets(entries: Entries, need: Need) {
    match need
    case HasKey(key) => key in entries
    case MayRetier(key, tier) => key in entries && !(entries[key].tier == TIER_SIGN_ONLY && tier != TIER_SIGN_ONLY)
  }

  datatype Mutation = Change(edit: Edit) | NewRecoveryKey | NewPassphrase(text: string)

  datatype Instr =
    | OpenVault(text: string)                // open_vault: an agent's key, else the passphrase
    | OpenRecovery(words: Option<nat>)       // open_at_with_mnemonic
    | CacheKey(text: string)                 // derive_wrap_key, then PUT to the agent
    | LockAndRefresh
    | Check(need: Need)
    | Mutate(mutation: Mutation)
    | SetValue(key: string, value: string, tier: Option<nat>, now: int)
    | Save
    | Verify                                 // verify_persisted of every pair set so far
    | ReadSource(path: Path)
    | SetSource(key: string, atTier: nat, now: int)
    | DestroySource(path: Path, key: string)
    | AdoptSources(work: seq<FileWork>, req: Request)
    | RewriteSources
    | Backup
    | Restore(file: VaultFile, text: string)  // open the snapshot, back up, lock, write
    | DropKeys                               // DROP to the agent

  /** What a process has established when it reaches an instruction. */
  datatype Flags = Flags(hasStore: bool, locked: bool, verified: bool, read: Option<Path>,
                         taken: set<string>, planned: bool)

  const START := Flags(false, false, false, None, {}, false)

  /** Which instructions the commands issue in which situation. */
  predicate Allowed(i: Instr, fl: Flags) {
    match i
    case OpenVault(_) => !fl.hasStore
    case OpenRecovery(_) => !fl.hasStore
    case CacheKey(_) => true
    case LockAndRefresh => fl.hasStore
    case Check(_) => fl.hasStore
    case Mutate(m) => fl.hasStore && (m.Change? ==> !m.edit.RewrapEdit? && !m.edit.RecoveryEdit?)
    case SetValue(_, _, _, _) => fl.hasStore
    case Save => fl.hasStore
    case Verify => fl.hasStore
    case ReadSource(_) => true
    case SetSource(_, _, _) => fl.hasStore && fl.read.Some?
    case DestroySource(path, key) =>
      fl.locked && fl.verified && fl.read == Some(path) && key in fl.taken && !fl.planned
    case AdoptSources(work, _) => fl.locked && !fl.planned && DistinctWork(work)
    case RewriteSources => fl.locked && fl.verified && fl.planned
    case Backup => true
    case Restore(_, _) => !fl.hasStore
    case DropKeys => true
  }

  function After(i: Instr, fl: Flags): Flags {
    match i
    case OpenVault(_) => fl.(hasStore := true)
    case OpenRecovery(_) => fl.(hasStore := true)
    case LockAndRefresh => fl.(locked := true, verified := false)
    case SetValue(_, _, _, _) => fl.(verified := false)
    case Save => fl.(verified := false)
    case Verify => fl.(verified := true)
    case ReadSource(path) => fl.(read := Some(path), taken := {})
    case SetSource(key, _, _) => fl.(verified := false, taken := fl.taken + {key})
    case AdoptSources(_, _) => fl.(verified := false, planned := true)
    case _ => fl
  }

  /** From instruction `i` on, every instruction is allowed when it is reached. */
  predicate DisciplinedFrom(prog: seq<Instr>, i: nat, fl: Flags)
    requires i <= |prog|
    decreases |prog| - i
  {
    i == |prog| || (Allowed(prog[i], fl) && DisciplinedFrom(prog, i + 1, After(prog[i], fl)))
  }

  predicate Disciplined(prog: seq<Instr>) {
    DisciplinedFrom(prog, 0, START)
  }

  // ---- The shared state ------------------------------------------------------------------

  /** An open store: its contents, the file they came from, and the edits made since. */
  datatype Open = Open(vault: Vault, loaded: VaultFile, edits: seq<Edit>, locked: bool)

  /** Where a process is inside an instruction that takes several steps. */
  datatype Phase =
    | Ready
    | WaitCreate | Creating | Minting
    | WaitMigrate | Migrating | Truncating(v1: LegacyFile) | Writing(v1: LegacyFile)
    | Loading
    | Caching(key: Key)
    | Refreshing
    | Saving(transient: bool) | Checked(transient: bool)
    | BackingUp | WaitRestore | Restoring
    | Rewriting
    | Stopped

  datatype Proc = Proc(prog: seq<Instr>, pc: nat, phase: Phase, store: Option<Open>,
                       expected: seq<(string, string)>, verified: bool,
                       source: Option<(Path, string)>, taken: set<string>,
                       rewrites: seq<Rewrite>, planned: bool)

  /** One successful write of the vault file, in commit order. */
  datatype Commit =
    | Created(file: VaultFile)
    | Migrated(file: VaultFile)
    | Saved(edits: seq<Edit>, nonce: nat)
    | Restored(file: VaultFile)

  /** `counter` is the next random number; `published` are the salts that have been in the vault
      file or a snapshot; `log` is the history of commits. */
  datatype World = World(disk: Disk, v1bak: Option<LegacyFile>, holder: Option<Pid>,
                         procs: map<Pid, Proc>, sources: map<Path, seq<string>>,
                         snapshots: set<VaultFile>, agent: set<Key>,
                         counter: nat, published: set<nat>, log: seq<Commit>)

  datatype Choice = Plain | UseAgent(key: Key) | Skip

  datatype Action =
    | Start(pid: Pid, prog: seq<Instr>)
    | Step(pid: Pid, choice: Choice)
    | Crash(pid: Pid)
    | Forget(keys: set<Key>)                 // agent entries expire or are dropped

  // ---- Steps -----------------------------------------------------------------------------

  function Put(w: World, p: Pid, proc: Proc): World {
    w.(procs := w.procs[p := proc])
  }

  function Freed(w: World, p: Pid): World {
    if w.holder == Some(p) then w.(holder := None) else w
  }

  /** The process ends: its store is dropped and so is its lock. */
  function Stop(w: World, p: Pid): World
    requires p in w.procs
  {
    Freed(Put(w, p, w.procs[p].(phase := Stopped, store := None)), p)
  }

  function At(w: World, p: Pid, phase: Phase): World
    requires p in w.procs
  {
    Put(w, p, w.procs[p].(phase := phase))
  }

  function Done(proc: Proc): Proc {
    proc.(pc := proc.pc + 1, phase := Ready)
  }

  /** Take the lock and go on in `phase`; nothing happens while someone else holds it. */
  function Lock(w: World, p: Pid, phase: Phase): World
    requires p in w.procs
  {
    if w.holder == None then At(w, p, phase).(holder := Some(p)) else w
  }

  function Opened(v: Vault, file: VaultFile): Option<Open> {
    Some(Open(v, file, [], false))
  }

  /** A successful write of `file` over the vault, releasing the lock if it was only for that. */
  function Write(w: World, p: Pid, file: VaultFile, commit: Commit, release: bool, proc: Proc)
    : World
  {
    Put(w, p, proc).(disk := Sealed(file), log := w.log + [commit],
                     published := w.published + {file.passphrase.salt},
                     holder := if release then None else w.holder)
  }

  function Edited(w: World, p: Pid, edit: Edit, counter: nat): World
    requires p in w.procs && w.procs[p].store.Some?
  {
    var o := w.procs[p].store.value;
    if Refusal(edit, o.vault.entries).Some? then Stop(w, p)
    else
      var o' := o.(vault := ApplyEdit(edit, o.vault), edits := o.edits + [edit]);
      Put(w, p, Done(w.procs[p].(store := Some(o')))).(counter := counter)
  }

  function ResolveMutation(m: Mutation, v: Vault, counter: nat): Edit {
    match m
    case Change(edit) => edit
    case NewRecoveryKey => GenerateRecoveryKey(v, counter, counter + 1, counter + 2)
    case NewPassphrase(text) => ChangePassphrase(v, Passphrase(text), counter, counter + 1)
  }

  /** A snapshot of the vault file, if there is one. */
  function BackedUp(w: World, p: Pid, proc: Proc): World {
    if w.disk.Sealed? then Put(w, p, proc).(snapshots := w.snapshots + {w.disk.file}) else Put(w, p, proc)
  }

  /** Store a pair and remember it for verification. */
  function SetPair(w: World, p: Pid, key: string, value: string, tier: nat, now: int): World
    requires p in w.procs && w.procs[p].store.Some?
  {
    var w' := Edited(w, p, SetEdit(key, value, tier, now), w.counter);
    var proc := w'.procs[p];
    if proc.phase.Stopped? then w'
    else Put(w', p, proc.(expected := proc.expected + [(key, value)], verified := false))
  }

  /** The first step of the instruction at hand. */
  function Begin(w: World, p: Pid, c: Choice): World
    requires p in w.procs && w.procs[p].pc < |w.procs[p].prog|
  {
    var proc := w.procs[p];
    match proc.prog[proc.pc]
    case OpenVault(text) =>
      if c.UseAgent? && c.key in w.agent && OpenWithWrapKey(w.disk, c.key).Ok? then
        Put(w, p, Done(proc.(store := Opened(OpenWithWrapKey(w.disk, c.key).value, w.disk.file))))
      else
        At(w, p, match w.disk case Absent => WaitCreate case Legacy(_) => WaitMigrate case _ => Loading)
    case OpenRecovery(words) =>
      (match OpenWithMnemonic(w.disk, words)
       case Err(_) => Stop(w, p)
       case Ok(v) => Put(w, p, Done(proc.(store := Opened(v, w.disk.file)))))
    case CacheKey(text) =>
      if c.Skip? then Put(w, p, Done(proc))
      else (
        match DeriveWrapKey(w.disk, Passphrase(text))
        case Err(_) => Put(w, p, Done(proc))
        case Ok(key) => At(w, p, Caching(key)))
    case LockAndRefresh =>
      if proc.store.None? then Stop(w, p)
      else if proc.store.value.locked then At(w, p, Refreshing)
      else Lock(w, p, Refreshing)
    case Check(need) =>
      if proc.store.None? || !Meets(proc.store.value.vault.entries, need) then Stop(w, p) else Put(w, p, Done(proc))
    case Mutate(m) =>
      if proc.store.None? then Stop(w, p)
      else Edited(w, p, ResolveMutation(m, proc.store.value.vault, w.counter), w.counter + 3)
    case SetValue(key, value, tier, now) =>
      if proc.store.None? then Stop(w, p)
      else SetPair(w, p, key, value, TierFor(tier, key, proc.store.value.vault.entries), now)
    case Save =>
      if proc.store.None? then Stop(w, p)
      else if proc.store.value.locked then At(w, p, Saving(false))
      else Lock(w, p, Saving(true))
    case Verify =>
      if proc.store.None? then Stop(w, p)
      else (
        match VerifyPersisted(proc.store.value.vault.dataKey, w.disk, proc.expected)
        case Err(_) => Stop(w, p)
        case Ok(_) => Put(w, p, Done(proc.(verified := true))))
    case ReadSource(path) =>
      if path !in w.sources || TrimmedText(w.sources[path]) == "" then Stop(w, p)
      else Put(w, p, Done(proc.(source := Some((path, TrimmedText(w.sources[path]))), taken := {})))
    case SetSource(key, tier, now) =>
      if proc.store.None? || proc.source.None? then Stop(w, p)
      else
        var w' := SetPair(w, p, key, proc.source.value.1, tier, now);
        if w'.procs[p].phase.Stopped? then w'
        else Put(w', p, w'.procs[p].(taken := proc.taken + {key}))
    case DestroySource(path, key) =>
      if path !in w.sources then Stop(w, p)
      else Put(w, p, Done(proc)).(sources := w.sources - {path})
    case AdoptSources(work, req) =>
      if proc.store.None? then Stop(w, p)
      else
        var o := proc.store.value;
        var (plan, rewrites) := PlanAdoption(work, w.sources, req,
                                             Progress(o.vault.entries, [], [], [], 0, 0));
        Put(w, p, Done(proc.(
          store := Some(o.(vault := o.vault.(entries := plan.entries), edits := o.edits + plan.edits)),
          expected := proc.expected + plan.stored, verified := false,
          rewrites := rewrites, planned := true)))
    case RewriteSources =>
      if proc.rewrites == [] then Put(w, p, Done(proc))
      else
        At(w, p, Rewriting).(sources := w.sources[proc.rewrites[0].path := []])
    case Backup => BackedUp(w, p, Done(proc))
    case Restore(file, text) =>
      if file in w.snapshots && LoadV2(Sealed(file), Passphrase(text)).Ok? then At(w, p, BackingUp)
      else Stop(w, p)
    case DropKeys => if c.Skip? then Put(w, p, Done(proc)) else Put(w, p, Done(proc)).(agent := {})
  }

  /** The later steps of the instruction at hand. */
  function Continue(w: World, p: Pid): World
    requires p in w.procs && w.procs[p].pc < |w.procs[p].prog|
  {
    var proc := w.procs[p];
    var instr := proc.prog[proc.pc];
    match proc.phase
    case Ready => w
    case Stopped => w
    case WaitCreate => Lock(w, p, Creating)
    case Creating =>
      if w.disk.Absent? then At(w, p, Minting) else Freed(At(w, p, Loading), p)
    case Minting =>
      if !instr.OpenVault? then w
      else
        var v := NewVault(Passphrase(instr.text), w.counter, w.counter + 1, w.counter + 2);
        var file := SealFile(v, w.counter + 3);
        Write(w, p, file, Created(file), true, Done(proc.(store := Opened(v, file))))
          .(counter := w.counter + 4)
    case WaitMigrate => Lock(w, p, Migrating)
    case Migrating =>
      if !instr.OpenVault? then w
      else (
        match w.disk
        case Sealed(_) => Freed(At(w, p, Loading), p)
        case Legacy(v1) =>
          if OpensLegacy(v1, Passphrase(instr.text))
          then At(w, p, Truncating(v1)).(v1bak := Some(v1))
          else Stop(w, p)
        case _ => Stop(w, p))
    case Truncating(v1) => At(w, p, Writing(v1)).(disk := Torn)
    case Writing(v1) =>
      if !instr.OpenVault? then w
      else (
        match MigrateV1(v1, Passphrase(instr.text), w.counter, w.counter + 1, w.counter + 2)
        case Err(_) => w
        case Ok(v) =>
          var file := SealFile(v, w.counter + 3);
          Write(w, p, file, Migrated(file), true, proc.(phase := Loading))
            .(counter := w.counter + 4))
    case Loading =>
      if !instr.OpenVault? then w
      else (
        match LoadV2(w.disk, Passphrase(instr.text))
        case Err(_) => Stop(w, p)
        case Ok(v) => Put(w, p, Done(proc.(store := Opened(v, w.disk.file)))))
    case Caching(key) => Put(w, p, Done(proc)).(agent := w.agent + {key})
    case Refreshing =>
      if proc.store.None? then w
      else (
        match Refresh(proc.store.value.vault, w.disk)
        case Err(_) => Stop(w, p)
        case Ok(v) =>
          Put(w, p, Done(proc.(store := Some(Open(v, w.disk.file, [], true)), verified := false))))
    case Saving(transient) =>
      if proc.store.None? then w
      else if MayOverwrite(Some(proc.store.value.loaded), w.disk) then At(w, p, Checked(transient))
      else Stop(w, p)
    case Checked(transient) =>
      if proc.store.None? then w
      else
        var o := proc.store.value;
        var file := SealFile(o.vault, w.counter);
        Write(w, p, file, Saved(o.edits, w.counter), transient,
              Done(proc.(store := Some(o.(loaded := file, edits := [])), verified := false)))
          .(counter := w.counter + 1)
    case BackingUp => BackedUp(w, p, proc.(phase := WaitRestore))
    case WaitRestore =>
      if instr.Restore? && instr.file in w.snapshots then Lock(w, p, Restoring) else Stop(w, p)
    case Restoring =>
      if !instr.Restore? then w
      else Write(w, p, instr.file, Restored(instr.file), true, Done(proc))
    case Rewriting =>
      if proc.rewrites == [] then w
      else
        var r := proc.rewrites[0];
        Put(w, p, proc.(phase := Ready, rewrites := proc.rewrites[1..])).(sources := w.sources[r.path := r.after])
  }

  function StepOf(w: World, p: Pid, c: Choice): World {
    if p !in w.procs || w.procs[p].phase.Stopped? then w
    else if w.procs[p].pc >= |w.procs[p].prog| then Stop(w, p)
    else if w.procs[p].phase.Ready? then Begin(w, p, c)
    else Continue(w, p)
  }

  /** One action. Starting runs only disciplined programs. */
  function Next(w: World, a: Action): World {
    match a
    case Start(p, prog) =>
      if p in w.procs || !Disciplined(prog) then w
      else Put(w, p, Proc(prog, 0, Ready, None, [], false, None, {}, [], false))
    case Step(p, c) => StepOf(w, p, c)
    case Crash(p) => if p in w.procs then Stop(w, p) else w
    case Forget(keys) => w.(agent := w.agent - keys)
  }

  function Run(w: World, acts: seq<Action>): World {
    if acts == [] then w
    else Next(Run(w, acts[..|acts| - 1]), acts[|acts| - 1])
  }

  // ---- What the commands run -------------------------------------------------------------

  /** What `set` does for one pair: the value, then a new rotation policy if one is given (0 days clears it), then
      an explicit due date. */
  function PairInstrs(key: string, value: string, tier: Option<nat>, rotateDays: Option<nat>, expiresAt: Option<int>,
                      now: int): seq<Instr>
  {
    var policy := if rotateDays == Some(0) then None else rotateDays;
    [SetValue(key, value, tier, now)]
    + (if rotateDays.Some? then [Mutate(Change(RotationEdit(key, policy, now)))] else [])
    + (if expiresAt.Some? then [Mutate(Change(ExpiryEdit(key, expiresAt)))] else [])
  }

  function SetInstrs(pairs: seq<(string, string)>, tier: Option<nat>, rotateDays: Option<nat>,
                     expiresAt: Option<int>, now: int) : seq<Instr>
  {
    if pairs == [] then []
    else
      var (key, value) := pairs[|pairs| - 1];
      SetInstrs(pairs[..|pairs| - 1], tier, rotateDays, expiresAt, now)
      + PairInstrs(key, value, tier, rotateDays, expiresAt, now)
  }

  function SetProgram(text: string, pairs: seq<(string, string)>, tier: Option<nat>,
                      rotateDays: Option<nat>, expiresAt: Option<int>, now: int) : seq<Instr>
  {
    [OpenVault(text), CacheKey(text), LockAndRefresh]
    + SetInstrs(pairs, tier, rotateDays, expiresAt, now)
    + [Save, Verify]
  }

  function ImportProgram(text: string, path: Path, key: string, tier: nat, now: int): seq<Instr> {
    [ReadSource(path), OpenVault(text), CacheKey(text), LockAndRefresh, SetSource(key, tier, now),
     Save, Verify, DestroySource(path, key)]
  }

  function AdoptProgram(text: string, work: seq<FileWork>, req: Request): seq<Instr> {
    [OpenVault(text), CacheKey(text), LockAndRefresh, AdoptSources(work, req), Save, Verify,
     RewriteSources]
  }

  /** The commands that open, lock, check, change and save. */
  function MutateProgram(text: string, needs: seq<Need>, backup: bool, ms: seq<Mutation>): seq<Instr> {
    [OpenVault(text), CacheKey(text), LockAndRefresh] + ChangeInstrs(needs, backup, ms) + [Save]
  }

  function ChangeInstrs(needs: seq<Need>, backup: bool, ms: seq<Mutation>): seq<Instr> {
    seq(|needs|, i requires 0 <= i < |needs| => Check(needs[i]))
    + (if backup then [Backup] else [])
    + seq(|ms|, i requires 0 <= i < |ms| => Mutate(ms[i]))
  }

  function DeleteProgram(text: string, key: string, backup: bool): seq<Instr> {
    MutateProgram(text, [HasKey(key)], backup, [Change(DeleteEdit(key))])
  }

  function RenameProgram(text: string, from: string, to: string): seq<Instr> {
    MutateProgram(text, [], false, [Change(RenameEdit(from, to))])
  }

  function RetierProgram(text: string, key: string, tier: nat, now: int): seq<Instr> {
    MutateProgram(text, [MayRetier(key, tier)], false, [Change(RetierEdit(key, tier, now))])
  }

  function ChangePassphraseProgram(text: string, to: string): seq<Instr> {
    MutateProgram(text, [], false, [NewPassphrase(to)])
  }

  function NewRecoveryKeyProgram(text: string): seq<Instr> {
    MutateProgram(text, [], false, [NewRecoveryKey])
  }

  /** recover, and change-passphrase after opening with the recovery phrase. */
  function RecoverProgram(words: Option<nat>, m: Mutation): seq<Instr> {
    [OpenRecovery(words), LockAndRefresh, Mutate(m), Save]
  }

  /** init saves twice without taking the lock first. */
  function InitProgram(text: string): seq<Instr> {
    [OpenVault(text), Save, Mutate(NewRecoveryKey), Save]
  }

  function RestoreProgram(file: VaultFile, text: string): seq<Instr> {
    [Restore(file, text), DropKeys]
  }

  predicate IsPlain(m: Mutation) {
    m.Change? ==> !m.edit.RewrapEdit? && !m.edit.RecoveryEdit?
  }

  /** A stretch of set, change and snapshot instructions keeps what is established. */
  lemma {:induction false} StretchIsDisciplined(prog: seq<Instr>, i: nat, j: nat, fl: Flags)
    requires i <= j <= |prog| && fl.hasStore && !fl.verified
    requires forall k :: i <= k < j ==>
               prog[k].SetValue? || prog[k].Backup? || prog[k].Check? || (prog[k].Mutate? && IsPlain(prog[k].mutation))
    requires DisciplinedFrom(prog, j, fl)
    ensures DisciplinedFrom(prog, i, fl)
    decreases j - i
  {
    if i < j {
      StretchIsDisciplined(prog, i + 1, j, fl);
      assert After(prog[i], fl) == fl;
    }
  }

  lemma {:induction false} SetInstrsArePlain(pairs: seq<(string, string)>, tier: Option<nat>,
                                             rotateDays: Option<nat>, expiresAt: Option<int>,
                                             now: int)
    ensures forall i :: i in SetInstrs(pairs, tier, rotateDays, expiresAt, now) ==>
              i.SetValue? || (i.Mutate? && IsPlain(i.mutation))
  {
    if pairs != [] {
      SetInstrsArePlain(pairs[..|pairs| - 1], tier, rotateDays, expiresAt, now);
    }
  }

  lemma {:induction false} SetIsDisciplined(text: string, pairs: seq<(string, string)>, tier: Option<nat>,
                                            rotateDays: Option<nat>, expiresAt: Option<int>, now: int)
    ensures Disciplined(SetProgram(text, pairs, tier, rotateDays, expiresAt, now))
  {
    var p := SetProgram(text, pairs, tier, rotateDays, expiresAt, now);
    var instrs := SetInstrs(pairs, tier, rotateDays, expiresAt, now);
    var n := 3 + |instrs|;
    var ready := START.(hasStore := true, locked := true);
    assert p[n] == Save && p[n + 1] == Verify && |p| == n + 2;
    assert DisciplinedFrom(p, n + 1, ready);
    assert DisciplinedFrom(p, n, ready);
    SetInstrsArePlain(pairs, tier, rotateDays, expiresAt, now);
    assert forall k :: 3 <= k < n ==> p[k] == instrs[k - 3] && p[k] in instrs;
    StretchIsDisciplined(p, 3, n, ready);
    HeadIsDisciplined(p, text);
  }

  lemma {:induction false} MutateIsDisciplined(text: string, needs: seq<Need>, backup: bool, ms: seq<Mutation>)
    requires forall i :: 0 <= i < |ms| ==> IsPlain(ms[i])
    ensures Disciplined(MutateProgram(text, needs, backup, ms))
  {
    var p := MutateProgram(text, needs, backup, ms);
    var instrs := ChangeInstrs(needs, backup, ms);
    var n := 3 + |instrs|;
    var ready := START.(hasStore := true, locked := true);
    assert p[n] == Save && |p| == n + 1;
    assert DisciplinedFrom(p, n, ready);
    assert forall k :: 3 <= k < n ==> p[k] == instrs[k - 3];
    StretchIsDisciplined(p, 3, n, ready);
    HeadIsDisciplined(p, text);
  }

  lemma {:induction false} HeadIsDisciplined(p: seq<Instr>, text: string)
    requires 3 <= |p| && p[..3] == [OpenVault(text), CacheKey(text), LockAndRefresh]
    requires DisciplinedFrom(p, 3, START.(hasStore := true, locked := true))
    ensures Disciplined(p)
  {
    assert p[0] == p[..3][0] && p[1] == p[..3][1] && p[2] == p[..3][2];
    assert DisciplinedFrom(p, 2, START.(hasStore := true));
    assert DisciplinedFrom(p, 1, START.(hasStore := true));
  }

  lemma {:induction false} ImportIsDisciplined(text: string, path: Path, key: string, tier: nat, now: int)
    ensures Disciplined(ImportProgram(text, path, key, tier, now))
  {
    var p := ImportProgram(text, path, key, tier, now);
    var read := START.(read := Some(path));
    var ready := read.(hasStore := true, locked := true);
    var done := ready.(taken := {key});
    assert After(p[4], ready) == done by { assert ready.taken + {key} == {key}; }
    assert DisciplinedFrom(p, 7, done.(verified := true));
    assert DisciplinedFrom(p, 6, done);
    assert DisciplinedFrom(p, 5, done);
    assert DisciplinedFrom(p, 4, ready);
    assert DisciplinedFrom(p, 3, read.(hasStore := true));
    assert DisciplinedFrom(p, 2, read.(hasStore := true));
    assert DisciplinedFrom(p, 1, read);
  }

  lemma {:induction false} AdoptIsDisciplined(text: string, work: seq<FileWork>, req: Request)
    requires DistinctWork(work)
    ensures Disciplined(AdoptProgram(text, work, req))
  {
    var p := AdoptProgram(text, work, req);
    var ready := START.(hasStore := true, locked := true);
    var planned := ready.(planned := true);
    assert DisciplinedFrom(p, 6, planned.(verified := true));
    assert DisciplinedFrom(p, 5, planned);
    assert DisciplinedFrom(p, 4, planned);
    assert DisciplinedFrom(p, 3, ready);
    HeadIsDisciplined(p, text);
  }

  lemma {:induction false} OthersAreDisciplined(text: string, words: Option<nat>, m: Mutation, file: VaultFile)
    requires IsPlain(m)
    ensures Disciplined(RecoverProgram(words, m))
    ensures Disciplined(InitProgram(text))
    ensures Disciplined(RestoreProgram(file, text))
  {
    var hasStore := START.(hasStore := true);
    var p := RecoverProgram(words, m);
    assert DisciplinedFrom(p, 3, hasStore.(locked := true));
    assert DisciplinedFrom(p, 2, hasStore.(locked := true));
    assert DisciplinedFrom(p, 1, hasStore);
    var q := InitProgram(text);
    assert DisciplinedFrom(q, 3, hasStore);
    assert DisciplinedFrom(q, 2, hasStore);
    assert DisciplinedFrom(q, 1, hasStore);
    var r := RestoreProgram(file, text);
    assert DisciplinedFrom(r, 1, START);
  }
}
