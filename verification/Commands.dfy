/** The commands that change the vault, step by step (src/main.rs): each opens it, takes the lock and re-reads,
    changes the entries, saves, verifies, and only then touches a source file.  Other processes act
    between the steps in module `Protocol`; here they act where this process waits for the lock. */
module Commands {
  import opened Common
  import opened VaultFormat
  import opened VaultStores
  import opened Adopt
  import opened AdoptSelection
  import opened AdoptOutcome

  datatype Failure = InVault(error: Error) | NoSuchFile | EmptyFile

  /** What a command finds around it: the agent's key for this vault and whether an agent listens, the passphrase,
      and the file as it is when the lock is obtained, first while opening and then for the change. */
  datatype Env = Env(pid: nat, cached: Option<Key>, listening: bool, text: string, opening: Disk, locking: Disk)

  class Files {
    var files: map<string, seq<string>>

    constructor (files: map<string, seq<string>>)
      ensures this.files == files
    {
      this.files := files;
    }
  }

  // ---- Opening -----------------------------------------------------------------------------

  /** The agent's key when it still opens the file, otherwise the passphrase. After opening by passphrase the derived
      key is offered to an agent that listens; that key opens the very vault that was opened. */
  method OpenVault(dir: VaultDir, env: Env) returns (store: Result<VaultStore, Error>, offer: Option<Key>)
    requires dir.holder != Some(env.pid)
    modifies dir
    ensures dir.holder == old(dir.holder) && dir.counter >= old(dir.counter)
    ensures var agent := env.cached.Some? && OpenWithWrapKey(old(dir.disk), env.cached.value).Ok?;
            var (disk, v) := if agent then (old(dir.disk), OpenWithWrapKey(old(dir.disk), env.cached.value))
                             else OpenOutcome(old(dir.disk), old(dir.holder) == None, env.opening, Passphrase(env.text),
                                              old(dir.counter));
            && dir.disk == disk && (store.Ok? <==> v.Ok?) && (store.Ok? ==> store.value.View() == v.value)
            && (offer.Some? <==> !agent && v.Ok? && env.listening)
    ensures offer.Some? ==>
              && DeriveWrapKey(dir.disk, Passphrase(env.text)) == Ok(offer.value)
              && OpenWithWrapKey(dir.disk, offer.value) == Ok(store.value.View())
    ensures store.Ok? ==> fresh(store.value) && store.value.dir == dir && store.value.pid == env.pid
                          && store.value.Valid() && !store.value.locked
  {
    offer := None;
    if env.cached.Some? {
      store := VaultStore.OpenAtWithWrapKey(dir, env.pid, env.cached.value);
      if store.Ok? {
        return;
      }
    }
    OpeningAgreesWithDisk(dir.disk, dir.holder == None, env.opening, Passphrase(env.text), dir.counter);
    store := VaultStore.OpenAtWithPassphrase(dir, env.pid, Passphrase(env.text), env.opening);
    if store.Ok? && env.listening {
      DerivedOpens(dir.disk, Passphrase(env.text));
      offer := Some(DeriveWrapKey(dir.disk, Passphrase(env.text)).value);
    }
  }

  lemma {:induction false} DerivedOpens(disk: Disk, secret: Secret)
    requires LoadV2(disk, secret).Ok?
    ensures DeriveWrapKey(disk, secret).Ok?
    ensures OpenWithWrapKey(disk, DeriveWrapKey(disk, secret).value) == LoadV2(disk, secret)
  {
  }

  /** The file after opening it, without any change. */
  function OpenedDisk(disk: Disk, holder: Option<nat>, counter: nat, env: Env): Disk {
    if env.cached.Some? && OpenWithWrapKey(disk, env.cached.value).Ok? then disk
    else OpenOutcome(disk, holder == None, env.opening, Passphrase(env.text), counter).0
  }

  /** Opens, takes the lock and re-reads: on success the store shows exactly what is on disk. */
  method OpenForChange(dir: VaultDir, env: Env) returns (store: Result<VaultStore, Error>)
    requires dir.holder != Some(env.pid)
    modifies dir
    ensures store.Err? ==> dir.holder == old(dir.holder)
    ensures store.Err? ==> dir.disk in {OpenedDisk(old(dir.disk), old(dir.holder), old(dir.counter), env), env.locking}
    ensures store.Ok? ==>
              && fresh(store.value) && store.value.dir == dir && store.value.pid == env.pid
              && store.value.Valid() && store.value.locked && old(dir.holder) == None
              && dir.disk == env.locking && ReadFile(dir.disk).Ok? && store.value.loaded == Some(dir.disk.file)
              && Dec(store.value.dataKey, dir.disk.file.vault, VaultAad) == Some(store.value.entries)
              && store.value.View() == Contents(dir.disk.file)
  {
    var opening, offer := OpenVault(dir, env);
    if opening.Err? {
      return opening;
    }
    var r := opening.value.LockAndRefresh(env.locking);
    if r.Err? {
      opening.value.Unlock();
      return Err(r.error);
    }
    return opening;
  }

  // ---- set -----------------------------------------------------------------------------------

  datatype SetOptions = SetOptions(tier: Option<nat>, rotateDays: Option<nat>, expiresAt: Option<int>)

  function StorePair(v: Vault, key: string, value: string, o: SetOptions, now: int): Result<Vault, Error> {
    var tier := TierFor(o.tier, key, v.entries);
    if !ValidTier(tier) then Err(InvalidTier)
    else
      var v1 := ApplyEdit(SetEdit(key, value, tier, now), v);
      var policy := if o.rotateDays == Some(0) then None else o.rotateDays;
      var v2 := if o.rotateDays.Some? then ApplyEdit(RotationEdit(key, policy, now), v1) else v1;
      Ok(if o.expiresAt.Some? then ApplyEdit(ExpiryEdit(key, o.expiresAt), v2) else v2)
  }

  function StorePairs(v: Vault, pairs: seq<(string, string)>, o: SetOptions, now: int): Result<Vault, Error> {
    if pairs == [] then Ok(v)
    else
      var n := |pairs| - 1;
      var before := StorePairs(v, pairs[..n], o, now);
      if before.Err? then before else StorePair(before.value, pairs[n].0, pairs[n].1, o, now)
  }

  /** A pair is refused if and only if its tier is not one of 1 to 4: the tier that was asked for, else the one the
      key has, else 3. */
  lemma {:induction false} PairIsRefusedIff(v: Vault, key: string, value: string, o: SetOptions, now: int)
    ensures var tier := if o.tier.Some? then o.tier.value else if key in v.entries then v.entries[key].tier else 3;
            StorePair(v, key, value, o, now).Err? <==> tier == 0 || tier > 4
  {
  }

  /** What one pair does: the value and the tier, the creation time of an old key, the due date by the most
      specific rule that was given, and nothing to any other key or to the wraps. */
  lemma {:induction false} StoredEntry(v: Vault, key: string, value: string, o: SetOptions, now: int)
    requires StorePair(v, key, value, o, now).Ok?
    ensures
      var w := StorePair(v, key, value, o, now).value;
      && w == v.(entries := w.entries) && w.entries.Keys == v.entries.Keys + {key}
      && (forall k :: k in v.entries && k != key ==> w.entries[k] == v.entries[k])
      && Holds(w.entries, key, value)
      && w.entries[key].tier
         == (if o.tier.Some? then o.tier.value else if key in v.entries then v.entries[key].tier else 3)
      && w.entries[key].createdAt == (if key in v.entries then v.entries[key].createdAt else now)
      && w.entries[key].updatedAt == now
      && w.entries[key].rotateDays
         == (if o.rotateDays == Some(0) then None
             else if o.rotateDays.Some? then o.rotateDays
             else if key in v.entries then v.entries[key].rotateDays else None)
      && w.entries[key].expiresAt
         == (if o.expiresAt.Some? then o.expiresAt
             else if w.entries[key].rotateDays.Some? then Some(now + 24 * 60 * 60 * w.entries[key].rotateDays.value)
             else None)
  {
  }

  /** After all pairs each key has the last value given for it, and other keys are untouched. */
  lemma {:induction false} StoredLast(v: Vault, pairs: seq<(string, string)>, o: SetOptions, now: int, key: string)
    requires StorePairs(v, pairs, o, now).Ok?
    ensures
      var w := StorePairs(v, pairs, o, now).value;
      && w == v.(entries := w.entries)
      && match LastValue(pairs, key)
         case Some(value) => Holds(w.entries, key, value)
         case None =>
           (key in w.entries <==> key in v.entries) && (key in v.entries ==> w.entries[key] == v.entries[key])
  {
    if pairs != [] {
      var n := |pairs| - 1;
      StoredLast(v, pairs[..n], o, now, key);
      StoredEntry(StorePairs(v, pairs[..n], o, now).value, pairs[n].0, pairs[n].1, o, now);
      hide StorePair;
    }
  }

  /** Verification after a save of these pairs succeeds exactly when they are consistent: naming a key twice
      with different values is saved, and then reported as not stored. */
  lemma {:induction false} VerifiesIffConsistent(v: Vault, pairs: seq<(string, string)>, o: SetOptions, now: int,
                                                 nonce: nat)
    requires StorePairs(v, pairs, o, now).Ok?
    ensures
      var w := StorePairs(v, pairs, o, now).value;
      VerifyPersisted(v.dataKey, Sealed(SealFile(w, nonce)), pairs).Ok? <==> Consistent(pairs)
  {
    hide StorePairs;
    var w := StorePairs(v, pairs, o, now).value;
    StoredLast(v, pairs, o, now, "");
    forall i | 0 <= i < |pairs|
      ensures HoldsLast(w.entries, pairs, pairs[i].0)
    {
      StoredLast(v, pairs, o, now, pairs[i].0);
    }
    HeldIffConsistent(w.entries, pairs);
  }

  /** Stores one pair in an open store. */
  method StoreOne(store: VaultStore, key: string, value: string, o: SetOptions, now: int)
    returns (r: Result<(), Error>)
    modifies store`entries
    ensures
      var after := StorePair(old(store.View()), key, value, o, now);
      && (r.Ok? <==> after.Ok?)
      && store.View() == (if after.Ok? then after.value else old(store.View()))
      && (r.Err? ==> r.error == after.error)
  {
    r := store.Set(key, value, TierFor(o.tier, key, store.entries), now);
    if r.Err? {
      return;
    }
    if o.rotateDays.Some? {
      r := store.SetRotation(key, if o.rotateDays.value == 0 then None else o.rotateDays, now);
    }
    if o.expiresAt.Some? {
      r := store.SetExpiry(key, o.expiresAt);
    }
  }

  /** Stores all pairs, saves once, and confirms every pair on disk. */
  method CmdSet(dir: VaultDir, env: Env, pending: seq<(string, string)>, o: SetOptions, now: int)
    returns (r: Result<(), Failure>)
    requires dir.holder != Some(env.pid)
    modifies dir
    ensures dir.holder == old(dir.holder)
    ensures r.Ok? && pending != [] ==>
              && env.locking.Sealed? && dir.disk.Sealed?
              && StorePairs(Contents(env.locking.file), pending, o, now) == Ok(Contents(dir.disk.file))
              && Consistent(pending)
    ensures r.Err? ==>
              || dir.disk in {OpenedDisk(old(dir.disk), old(dir.holder), old(dir.counter), env), env.locking}
              || (!Consistent(pending) && env.locking.Sealed? && dir.disk.Sealed?
                  && StorePairs(Contents(env.locking.file), pending, o, now) == Ok(Contents(dir.disk.file)))
    ensures r.Ok? && pending == [] ==> dir.disk == OpenedDisk(old(dir.disk), old(dir.holder), old(dir.counter), env)
  {
    var opening, offer := OpenVault(dir, env);
    if opening.Err? {
      return Err(InVault(opening.error));
    }
    if pending == [] {
      return Ok(());
    }
    var store := opening.value;
    var done := store.LockAndRefresh(env.locking);
    if done.Ok? {
      done := StoreAndSave(store, pending, o, now);
    }
    store.Unlock();
    r := if done.Ok? then Ok(()) else Err(InVault(done.error));
  }

  method StoreAndSave(store: VaultStore, pending: seq<(string, string)>, o: SetOptions, now: int)
    returns (r: Result<(), Error>)
    requires store.Valid() && store.locked && store.loaded.Some? && store.dir.disk == Sealed(store.loaded.value)
    modifies store`entries, store`loaded, store.dir
    ensures store.Valid() && store.dir.holder == old(store.dir.holder)
    ensures
      var after := StorePairs(old(store.View()), pending, o, now);
      && (r.Ok? <==> after.Ok? && Consistent(pending))
      && store.dir.disk == (if after.Ok? then Sealed(SealFile(after.value, old(store.dir.counter)))
                            else old(store.dir.disk))
  {
    ghost var v := store.View();
    for n := 0 to |pending|
      invariant store.Valid() && store.dir.disk == old(store.dir.disk) && store.loaded == old(store.loaded)
      invariant store.dir.counter == old(store.dir.counter) && store.dir.holder == old(store.dir.holder)
      invariant StorePairs(v, pending[..n], o, now) == Ok(store.View())
    {
      assert pending[..n + 1][..n] == pending[..n];
      r := StoreOne(store, pending[n].0, pending[n].1, o, now);
      if r.Err? {
        FailureStays(v, pending, n + 1, o, now);
        return;
      }
    }
    assert pending[..|pending|] == pending;
    VerifiesIffConsistent(v, pending, o, now, store.dir.counter);
    StoredLast(v, pending, o, now, "");
    r := store.Save(store.dir.disk);
    r := store.VerifyPersisted(pending);
  }

  lemma {:induction false} FailureStays(v: Vault, pairs: seq<(string, string)>, n: nat, o: SetOptions, now: int)
    requires n <= |pairs| && StorePairs(v, pairs[..n], o, now).Err?
    ensures StorePairs(v, pairs, o, now).Err?
  {
    if n == |pairs| {
      assert pairs[..n] == pairs;
    } else {
      assert pairs[..|pairs| - 1][..n] == pairs[..n];
      FailureStays(v, pairs[..|pairs| - 1], n, o, now);
    }
  }

  // ---- import --------------------------------------------------------------------------------

  /** Stores the trimmed text of a file and destroys the file.  It is destroyed only once the vault on disk holds
      that text under the key; on every failure it is still there. */
  method CmdImport(dir: VaultDir, env: Env, sources: Files, path: string, key: string, tier: nat, now: int)
    returns (r: Result<(), Failure>)
    requires dir.holder != Some(env.pid)
    modifies dir, sources
    ensures dir.holder == old(dir.holder)
    ensures sources.files == if r.Ok? then old(sources.files) - {path} else old(sources.files)
    ensures r.Ok? ==>
              && path in old(sources.files) && TrimmedText(old(sources.files)[path]) != ""
              && env.locking.Sealed? && dir.disk.Sealed?
              && Contents(dir.disk.file)
                 == ApplyEdit(SetEdit(key, TrimmedText(old(sources.files)[path]), tier, now),
                              Contents(env.locking.file))
              && Holds(dir.disk.file.vault.plain, key, TrimmedText(old(sources.files)[path]))
    ensures var found := OpenedDisk(old(dir.disk), old(dir.holder), old(dir.counter), env);
            r.Err? ==> dir.disk in {old(dir.disk), found, env.locking}
    ensures path !in old(sources.files) ==> r == Err(NoSuchFile) && dir.disk == old(dir.disk)
    ensures path in old(sources.files) && TrimmedText(old(sources.files)[path]) == "" ==>
              r == Err(EmptyFile) && dir.disk == old(dir.disk)
  {
    if path !in sources.files {
      return Err(NoSuchFile);
    }
    var value := TrimmedText(sources.files[path]);
    if value == "" {
      return Err(EmptyFile);
    }
    var opening := OpenForChange(dir, env);
    if opening.Err? {
      return Err(InVault(opening.error));
    }
    var store := opening.value;
    var done := store.Set(key, value, tier, now);
    if done.Ok? {
      done := store.Save(dir.disk);
      assert [(key, value)][1..] == [] && Missing(store.entries, [(key, value)]) == [];
      done := store.VerifyPersisted([(key, value)]);
    }
    store.Unlock();
    if done.Err? {
      return Err(InVault(done.error));
    }
    assert [(key, value)][0] == (key, value);
    sources.files := sources.files - {path};
    return Ok(());
  }

  // ---- adopt ---------------------------------------------------------------------------------

  /** Stores the values found in dotenv files and replaces their lines by pointers.  Files are rewritten only
      once the vault on disk holds the value of every replaced line under the key its pointer names. */
  method CmdAdopt(dir: VaultDir, env: Env, sources: Files, reported: seq<Reported>, req: Request,
                  less: (string, string) -> bool)
    returns (r: Result<(), Failure>, ghost work: seq<FileWork>)
    requires dir.holder != Some(env.pid) && TotalOrder(less)
    requires forall k :: 0 <= k < |reported| ==> reported[k].finding.line > 0
    modifies dir, sources
    ensures dir.holder == old(dir.holder)
    ensures r.Err? ==> sources.files == old(sources.files)
    ensures r.Err? ==>
              || dir.disk in {OpenedDisk(old(dir.disk), old(dir.holder), old(dir.counter), env), env.locking}
              || (env.locking.Sealed? && dir.disk.Sealed?
                  && var before := Contents(env.locking.file);
                     var plan := PlanAdoption(work, old(sources.files), req,
                                              Progress(before.entries, [], [], [], 0, 0)).0;
                     !Consistent(plan.stored) && Contents(dir.disk.file) == before.(entries := plan.entries))
    ensures Selected(reported) == [] ==> r == Ok(()) && dir.disk == old(dir.disk) && sources.files == old(sources.files)
    ensures r.Ok? && Selected(reported) != [] ==>
              && Sorted(less, work) && Groups(Selected(reported), work) && env.locking.Sealed? && dir.disk.Sealed?
              && var before := Contents(env.locking.file);
                 var (plan, rewrites) := PlanAdoption(work, old(sources.files), req,
                                                      Progress(before.entries, [], [], [], 0, 0));
                 && Consistent(plan.stored) && Contents(dir.disk.file) == before.(entries := plan.entries)
                 && sources.files == Rewritten(old(sources.files), rewrites)
    ensures r.Ok? && Selected(reported) != [] ==>
              && env.locking.Sealed? && dir.disk.Sealed?
              && var before, after := Contents(env.locking.file).entries, Contents(dir.disk.file).entries;
                 && FilesShow(sources.files, Places(work, old(sources.files), req.prefix), before, req.force)
                 && (!req.force ==> forall key :: key in before ==> key in after && after[key] == before[key])
    ensures sources.files.Keys == old(sources.files).Keys
    ensures forall path :: path in sources.files && sources.files[path] != old(sources.files)[path] ==>
              dir.disk.Sealed? && Adopted(old(sources.files)[path], sources.files[path], dir.disk.file.vault.plain)
  {
    hide Adopted, PlanJustified, PlanAdoption, Groups, Consistent, DistinctWork, Selected, Rewritten, Sorted,
         TotalOrder, OpenedDisk, FilesShow, Places, Accounts;
    var found, skipped := SelectFindings(reported);
    work := [];
    if found == [] {
      return Ok(()), work;
    }
    var opening := OpenForChange(dir, env);
    if opening.Err? {
      return Err(InVault(opening.error)), work;
    }
    var store := opening.value;
    var byFile := GroupByFile(found, less);
    work := byFile;
    SelectionIsDistinct(reported, work, less);
    var plan, rewrites := PlanByLoop(byFile, sources.files, req, store.entries);
    PlanIsJustified(work, sources.files, req, Progress(store.entries, [], [], [], 0, 0));
    PlanHoldsIff(work, sources.files, req, store.entries);
    PlanAccounts(work, sources.files, req, store.entries);
    if !req.force {
      ExistingAreKept(work, sources.files, req, store.entries);
    }
    store.entries := plan.entries;
    var done := store.Save(dir.disk);
    assert done.Ok?;
    done := store.VerifyPersisted(plan.stored);
    store.Unlock();
    if done.Err? {
      return Err(InVault(done.error)), work;
    }
    RewriteFiles(sources, rewrites);
    RewrittenIsAdopted(old(sources.files), rewrites, plan.stored, dir.disk.file.vault.plain);
    return Ok(()), work;
  }

  /** Every line is as it was, or its value is in the vault under the key named by the pointer in its place. */
  predicate Adopted(before: seq<string>, after: seq<string>, entries: Entries) {
    |before| == |after| &&
    forall i :: 0 <= i < |before| && before[i] != after[i] ==> LineAdopted(before[i], after[i], entries)
  }

  predicate LineAdopted(before: string, after: string, entries: Entries) {
    var parsed := ParseDotenvLine(before);
    parsed.Some? &&
    exists key :: key in entries && entries[key].value == parsed.value.1 && after == Pointer(parsed.value.0, key)
  }

  lemma {:induction false} JustifiedIsAdopted(before: seq<string>, after: seq<string>, stored: seq<(string, string)>,
                                              entries: Entries)
    requires Justified(before, after, stored)
    requires forall i :: 0 <= i < |stored| ==> Holds(entries, stored[i].0, stored[i].1)
    ensures Adopted(before, after, entries)
  {
    hide ParseDotenvLine, Pointer;
    forall i | 0 <= i < |before| && before[i] != after[i]
      ensures LineAdopted(before[i], after[i], entries)
    {
      assert LineJustified(before[i], after[i], stored);
    }
  }

  lemma {:induction false} RewrittenIsAdopted(files: map<string, seq<string>>, rewrites: seq<Rewrite>,
                                              stored: seq<(string, string)>, entries: Entries)
    requires PlanJustified(rewrites, stored, files)
    requires forall i :: 0 <= i < |stored| ==> Holds(entries, stored[i].0, stored[i].1)
    ensures Rewritten(files, rewrites).Keys == files.Keys
    ensures forall path :: path in files && Rewritten(files, rewrites)[path] != files[path] ==>
              Adopted(files[path], Rewritten(files, rewrites)[path], entries)
  {
    hide Adopted, Justified;
    if rewrites != [] {
      var n := |rewrites| - 1;
      RewrittenIsAdopted(files, rewrites[..n], stored, entries);
      JustifiedIsAdopted(rewrites[n].before, rewrites[n].after, stored, entries);
    }
  }

  method RewriteFiles(sources: Files, rewrites: seq<Rewrite>)
    modifies sources
    ensures sources.files == Rewritten(old(sources.files), rewrites)
  {
    for n := 0 to |rewrites|
      invariant sources.files == Rewritten(old(sources.files), rewrites[..n])
    {
      assert rewrites[..n + 1][..n] == rewrites[..n];
      sources.files := sources.files[rewrites[n].path := rewrites[n].after];
    }
    assert rewrites[..|rewrites|] == rewrites;
  }

  // ---- restore -------------------------------------------------------------------------------

  /** Replaces the vault by a snapshot that the given passphrase opens, after keeping a copy of whatever is there.
      A snapshot that does not open changes nothing. */
  method CmdRestore(dir: VaultDir, env: Env, snapshot: VaultFile, backups: set<Disk>)
    returns (r: Result<(), Failure>, kept: set<Disk>)
    requires dir.holder != Some(env.pid)
    modifies dir`disk, dir`holder
    ensures dir.holder == old(dir.holder)
    ensures var opens := LoadV2(Sealed(snapshot), Passphrase(env.text)).Ok?;
            kept == if opens && !old(dir.disk).Absent? then backups + {old(dir.disk)} else backups
    ensures r.Ok? <==> LoadV2(Sealed(snapshot), Passphrase(env.text)).Ok? && old(dir.holder) == None
    ensures dir.disk == if r.Ok? then Sealed(snapshot) else old(dir.disk)
  {
    kept := backups;
    var probe := LoadV2(Sealed(snapshot), Passphrase(env.text));
    if probe.Err? {
      return Err(InVault(probe.error)), kept;
    }
    if !dir.disk.Absent? {
      kept := kept + {dir.disk};
    }
    var ok := dir.Acquire(env.pid, env.locking);
    if !ok {
      return Err(InVault(LockTimeout)), kept;
    }
    dir.disk := Sealed(snapshot);
    dir.Release();
    return Ok(()), kept;
  }
}
