/** The open vault store as an object, and the directory it lives in. Each method is proved
    against the value-level operations of module `VaultFormat`. The methods here run undisturbed; what
    other processes may do between their steps is the subject of module `Protocol`. */
module VaultStores {
  import opened Common
  import opened VaultFormat

  /** The vault path, its lock file, and the source of randomness. */
  class VaultDir {
    var disk: Disk
    /** The backup a migration leaves beside the vault. */
    var v1bak: Option<LegacyFile>
    var holder: Option<nat>
    var counter: nat

    constructor (disk: Disk)
      ensures this.disk == disk && v1bak == None && holder == None
    {
      this.disk := disk;
      v1bak := None;
      holder := None;
      counter := 0;
    }

    /** A number never handed out before: a salt, a nonce, a data key or a recovery phrase. */
    method Random() returns (n: nat)
      modifies this`counter
      ensures n == old(counter) && counter == n + 1
    {
      n := counter;
      counter := counter + 1;
    }

    /** Waits for the lock; fails when someone else keeps it past the deadline. Others may have
        rewritten the file while this process waited: `meanwhile` is what it is by then. */
    method Acquire(pid: nat, meanwhile: Disk) returns (ok: bool)
      modifies this`holder, this`disk
      ensures ok <==> old(holder) == None
      ensures holder == if ok then Some(pid) else old(holder)
      ensures disk == if ok then meanwhile else old(disk)
    {
      ok := holder == None;
      if ok {
        holder := Some(pid);
        disk := meanwhile;
      }
    }

    method Release()
      modifies this`holder
      ensures holder == None
    {
      holder := None;
    }
  }

  /** What opening with a passphrase does to the disk, and what it yields. A missing vault is
      created and a version 1 vault migrated, both under the lock and only if the file is still
      missing or still version 1 once the lock is held. */
  function OpenOutcome(disk: Disk, lockFree: bool, meanwhile: Disk, secret: Secret, counter: nat)
    : (Disk, Result<Vault, Error>)
  {
    if disk.Torn? || disk.Sealed? then (disk, LoadV2(disk, secret))
    else if !lockFree then (disk, Err(LockTimeout))
    else if disk.Absent? && meanwhile.Absent? then
      var v := NewVault(secret, counter, counter + 1, counter + 2);
      (Sealed(SealFile(v, counter + 3)), Ok(v))
    else if disk.Legacy? && meanwhile.Legacy? then
      (match MigrateV1(meanwhile.v1, secret, counter, counter + 1, counter + 2)
       case Err(e) => (meanwhile, Err(e))
       case Ok(v) =>
         var migrated := Sealed(SealFile(v, counter + 3));
         (migrated, LoadV2(migrated, secret)))
    else (meanwhile, LoadV2(meanwhile, secret))
  }

  /** When opening rewrites a version 1 file. */
  predicate Migrates(disk: Disk, lockFree: bool, meanwhile: Disk, secret: Secret) {
    disk.Legacy? && lockFree && meanwhile.Legacy? && OpensLegacy(meanwhile.v1, secret)
  }

  /** Whoever opens successfully holds the data key and the entries of the file that is on disk
      afterwards, opening again gives the same, and a vault that was found in the current format,
      first or under the lock, is left as it was found. */
  lemma {:induction false} OpeningAgreesWithDisk(disk: Disk, lockFree: bool, meanwhile: Disk, secret: Secret,
                                                 counter: nat)
    requires secret.Passphrase?
    ensures var (after, v) := OpenOutcome(disk, lockFree, meanwhile, secret, counter);
            && (v.Ok? ==> after.Sealed? && LoadV2(after, secret) == v)
            && (disk.Sealed? ==> after == disk)
            && (!disk.Sealed? && meanwhile.Sealed? ==> after in {disk, meanwhile})
            && (v.Err? ==> after in {disk, meanwhile})
  {
    if disk.Absent? && meanwhile.Absent? {
      var v := NewVault(secret, counter, counter + 1, counter + 2);
      SealedContents(v, counter + 3);
      WellKeyedFileOpens(SealFile(v, counter + 3), secret, 0);
    } else if disk.Legacy? && meanwhile.Legacy? {
      var r := MigrateV1(meanwhile.v1, secret, counter, counter + 1, counter + 2);
      if r.Ok? {
        MigrationKeepsEntries(meanwhile.v1, secret, counter, counter + 1, counter + 2, "");
        SealedContents(r.value, counter + 3);
        WellKeyedFileOpens(SealFile(r.value, counter + 3), secret, 0);
      }
    }
  }

  class VaultStore {
    const dir: VaultDir
    const pid: nat
    var kdf: KdfParams
    var wrapPassphrase: WrapEntry
    var wrapRecovery: Option<WrapEntry>
    var dataKey: Key
    var entries: Entries
    /** Set from `LockAndRefresh` until the store is closed. */
    var locked: bool
    /** The file as this store last read or wrote it. */
    var loaded: Option<VaultFile>

    function View(): Vault
      reads this
    {
      Vault(kdf, wrapPassphrase, wrapRecovery, dataKey, entries)
    }

    ghost predicate Valid()
      reads this, dir
    {
      locked <==> dir.holder == Some(pid)
    }

    constructor Opened(dir: VaultDir, pid: nat, v: Vault, loaded: Option<VaultFile>, locked: bool)
      ensures this.dir == dir && this.pid == pid && this.loaded == loaded && this.locked == locked
      ensures View() == v
    {
      this.dir, this.pid := dir, pid;
      kdf, wrapPassphrase, wrapRecovery := v.kdf, v.wrapPassphrase, v.wrapRecovery;
      dataKey, entries := v.dataKey, v.entries;
      this.loaded, this.locked := loaded, locked;
    }

    static method LoadFrom(dir: VaultDir, pid: nat, v: Result<Vault, Error>)
      returns (store: Result<VaultStore, Error>)
      requires dir.holder != Some(pid)
      requires v.Ok? ==> ReadFile(dir.disk).Ok?
      ensures store.Err? <==> v.Err?
      ensures store.Err? ==> store.error == v.error
      ensures store.Ok? ==>
                && fresh(store.value) && store.value.dir == dir && store.value.pid == pid
                && store.value.Valid() && !store.value.locked && store.value.View() == v.value
                && store.value.loaded == Some(ReadFile(dir.disk).value)
    {
      if v.Err? {
        return Err(v.error);
      }
      var s := new VaultStore.Opened(dir, pid, v.value, Some(ReadFile(dir.disk).value), false);
      return Ok(s);
    }

    static method OpenAtWithPassphrase(dir: VaultDir, pid: nat, secret: Secret, meanwhile: Disk)
      returns (store: Result<VaultStore, Error>)
      requires dir.holder != Some(pid)
      modifies dir
      ensures dir.holder == old(dir.holder) && dir.counter >= old(dir.counter)
      ensures var (disk, v) := OpenOutcome(old(dir.disk), old(dir.holder) == None, meanwhile,
                                           secret, old(dir.counter));
              && dir.disk == disk
              && (store.Err? <==> v.Err?)
              && (store.Err? ==> store.error == v.error)
              && (store.Ok? ==> store.value.View() == v.value)
      ensures dir.v1bak == if Migrates(old(dir.disk), old(dir.holder) == None, meanwhile, secret)
                           then Some(meanwhile.v1) else old(dir.v1bak)
      ensures store.Ok? ==>
                && fresh(store.value) && store.value.dir == dir && store.value.pid == pid
                && store.value.Valid() && !store.value.locked
                && store.value.loaded.Some? && dir.disk == Sealed(store.value.loaded.value)
    {
      hide OpensLegacy, NewVault, SealFile, WellKeyed;
      if dir.disk.Absent? {
        var ok := dir.Acquire(pid, meanwhile);
        if !ok {
          return Err(LockTimeout);
        }
        if !dir.disk.Absent? {
          dir.Release();
          store := LoadFrom(dir, pid, LoadV2(dir.disk, secret));
          return;
        }
        store := CreateNew(dir, pid, secret);
        return;
      }
      if dir.disk.Legacy? {
        var ok := dir.Acquire(pid, meanwhile);
        if !ok {
          return Err(LockTimeout);
        }
        if dir.disk.Legacy? {
          var r := Migrate(dir, secret);
          if r.Err? {
            dir.Release();
            return Err(r.error);
          }
        }
        dir.Release();
      }
      store := LoadFrom(dir, pid, LoadV2(dir.disk, secret));
    }

    static method CreateNew(dir: VaultDir, pid: nat, secret: Secret)
      returns (store: Result<VaultStore, Error>)
      requires dir.holder == Some(pid)
      modifies dir
      ensures dir.holder == None && dir.counter == old(dir.counter) + 4 && dir.v1bak == old(dir.v1bak)
      ensures var n := old(dir.counter);
              var v := NewVault(secret, n, n + 1, n + 2);
              && dir.disk == Sealed(SealFile(v, n + 3))
              && store.Ok? && store.value.View() == v
              && store.value.loaded == Some(SealFile(v, n + 3))
      ensures store.Ok? ==>
                && fresh(store.value) && store.value.dir == dir && store.value.pid == pid
                && store.value.Valid() && !store.value.locked
    {
      var id := dir.Random();
      var salt := dir.Random();
      var nonce := dir.Random();
      var s := new VaultStore.Opened(dir, pid, NewVault(secret, id, salt, nonce), None, true);
      var saved := s.Save(Absent);
      s.Unlock();
      return Ok(s);
    }

    /** Rewrites a version 1 file as version 2, once its backup is written. The caller holds the lock. */
    static method Migrate(dir: VaultDir, secret: Secret) returns (r: Result<(), Error>)
      requires dir.disk.Legacy?
      modifies dir`disk, dir`counter, dir`v1bak
      ensures dir.counter >= old(dir.counter)
      ensures r.Ok? <==> OpensLegacy(old(dir.disk).v1, secret)
      ensures dir.v1bak == if r.Ok? then Some(old(dir.disk).v1) else old(dir.v1bak)
      ensures var n := old(dir.counter);
              match MigrateV1(old(dir.disk).v1, secret, n, n + 1, n + 2)
              case Err(e) => r == Err(e) && dir.disk == old(dir.disk)
              case Ok(v) => r == Ok(()) && dir.disk == Sealed(SealFile(v, n + 3))
    {
      var id := dir.Random();
      var salt := dir.Random();
      var nonce := dir.Random();
      var migrated := MigrateV1(dir.disk.v1, secret, id, salt, nonce);
      if migrated.Err? {
        return Err(migrated.error);
      }
      dir.v1bak := Some(dir.disk.v1);
      var bodyNonce := dir.Random();
      dir.disk := Sealed(SealFile(migrated.value, bodyNonce));
      return Ok(());
    }

    static method OpenAtWithMnemonic(dir: VaultDir, pid: nat, words: Option<nat>)
      returns (store: Result<VaultStore, Error>)
      requires dir.holder != Some(pid)
      ensures store.Err? <==> OpenWithMnemonic(dir.disk, words).Err?
      ensures store.Err? ==> store.error == OpenWithMnemonic(dir.disk, words).error
      ensures store.Ok? ==>
                && fresh(store.value) && store.value.dir == dir && store.value.pid == pid
                && store.value.Valid() && !store.value.locked
                && store.value.View() == OpenWithMnemonic(dir.disk, words).value
                && dir.disk.Sealed? && store.value.loaded == Some(dir.disk.file)
    {
      store := LoadFrom(dir, pid, OpenWithMnemonic(dir.disk, words));
    }

    static method OpenAtWithWrapKey(dir: VaultDir, pid: nat, wrapKey: Key)
      returns (store: Result<VaultStore, Error>)
      requires dir.holder != Some(pid)
      ensures store.Err? <==> OpenWithWrapKey(dir.disk, wrapKey).Err?
      ensures store.Err? ==> store.error == OpenWithWrapKey(dir.disk, wrapKey).error
      ensures store.Ok? ==>
                && fresh(store.value) && store.value.dir == dir && store.value.pid == pid
                && store.value.Valid() && !store.value.locked
                && store.value.View() == OpenWithWrapKey(dir.disk, wrapKey).value
                && dir.disk.Sealed? && store.value.loaded == Some(dir.disk.file)
    {
      store := LoadFrom(dir, pid, OpenWithWrapKey(dir.disk, wrapKey));
    }

    /** Take the lock and re-read the file, so that what follows is applied to what is on disk
        now. In-memory changes made before are dropped. The lock stays held either way. */
    method LockAndRefresh(meanwhile: Disk) returns (r: Result<(), Error>)
      requires Valid()
      modifies this, dir`holder, dir`disk
      ensures Valid() && dir.holder == (if old(dir.holder) == None then Some(pid) else old(dir.holder))
      ensures old(dir.holder) !in {None, Some(pid)} ==>
                r == Err(LockTimeout) && !locked && dir.disk == old(dir.disk)
      ensures old(dir.holder) in {None, Some(pid)} ==>
                && locked && dir.disk == (if old(locked) then old(dir.disk) else meanwhile)
                && r == (match Refresh(old(View()), dir.disk)
                         case Err(e) => Err(e)
                         case Ok(_) => Ok(()))
      ensures r.Ok? ==> View() == Refresh(old(View()), dir.disk).value
                        && loaded.Some? && dir.disk == Sealed(loaded.value)
      ensures r.Err? ==> View() == old(View()) && loaded == old(loaded)
    {
      if !locked {
        var ok := dir.Acquire(pid, meanwhile);
        if !ok {
          return Err(LockTimeout);
        }
        locked := true;
      }
      match ReadFile(dir.disk) {
        case Err(e) => return Err(e);
        case Ok(file) =>
          match Dec(dataKey, file.vault, VaultAad) {
            case None => return Err(Replaced);
            case Some(body) =>
              entries := body;
              kdf := file.kdf;
              wrapPassphrase := file.passphrase;
              wrapRecovery := file.recovery;
              loaded := Some(file);
              return Ok(());
          }
      }
    }

    /** Re-read the file and confirm every pair. */
    method VerifyPersisted(expected: seq<(string, string)>) returns (r: Result<(), Error>)
      ensures r == VaultFormat.VerifyPersisted(dataKey, dir.disk, expected)
    {
      match ParseFile(dir.disk) {
        case Err(e) => return Err(e);
        case Ok(file) =>
          match Dec(dataKey, file.vault, VaultAad) {
            case None => return Err(Corrupt);
            case Some(body) =>
              var missing: seq<string> := [];
              var i := |expected|;
              while i > 0
                invariant 0 <= i <= |expected|
                invariant missing == Missing(body, expected[i..])
              {
                i := i - 1;
                assert expected[i..][1..] == expected[i + 1..];
                if !VaultFormat.Holds(body, expected[i].0, expected[i].1) {
                  missing := [expected[i].0] + missing;
                }
              }
              return if missing == [] then Ok(()) else Err(NotStored(missing));
          }
      }
    }

    /** Compare-and-swap under the lock. It writes exactly when the lock can be had and the file
        is then still the one this store knows; otherwise it writes nothing. */
    method Save(meanwhile: Disk) returns (r: Result<(), Error>)
      requires Valid()
      modifies dir, this`loaded
      ensures Valid() && dir.holder == old(dir.holder) && dir.v1bak == old(dir.v1bak)
      ensures var found := if old(dir.holder) == None then meanwhile else old(dir.disk);
              && (r.Ok? <==> old(dir.holder) in {None, Some(pid)} && MayOverwrite(old(loaded), found))
              && (r.Ok? ==> loaded == Some(SealFile(View(), old(dir.counter)))
                            && dir.disk == Sealed(loaded.value)
                            && dir.counter == old(dir.counter) + 1)
              && (r.Err? ==> r.error in {LockTimeout, ChangedOnDisk}
                             && dir.disk == found && loaded == old(loaded)
                             && dir.counter == old(dir.counter))
    {
      var transient := !locked;
      if transient {
        var ok := dir.Acquire(pid, meanwhile);
        if !ok {
          return Err(LockTimeout);
        }
      }
      if loaded.Some? && dir.disk != Sealed(loaded.value) {
        if transient {
          dir.Release();
        }
        return Err(ChangedOnDisk);
      }
      var nonce := dir.Random();
      var file := SealFile(View(), nonce);
      dir.disk := Sealed(file);
      loaded := Some(file);
      if transient {
        dir.Release();
      }
      return Ok(());
    }

    /** What dropping the store does. */
    method Unlock()
      requires Valid()
      modifies this`locked, dir`holder
      ensures Valid() && !locked
      ensures dir.holder == if old(locked) then None else old(dir.holder)
    {
      if locked {
        locked := false;
        dir.Release();
      }
    }

    method Set(key: string, value: string, tier: nat, now: int) returns (r: Result<(), Error>)
      modifies this`entries
      ensures r == (match Refusal(SetEdit(key, value, tier, now), old(entries))
                    case None => Ok(())
                    case Some(e) => Err(e))
      ensures View() == ApplyEdit(SetEdit(key, value, tier, now), old(View()))
    {
      if !ValidTier(tier) {
        return Err(InvalidTier);
      }
      var entry;
      if key in entries {
        var existing := entries[key];
        entry := Entry(value, tier, existing.createdAt, now, existing.rotateDays,
                       DueFrom(now, existing.rotateDays));
      } else {
        entry := Entry(value, tier, now, now, None, None);
      }
      entries := entries[key := entry];
      return Ok(());
    }

    method SetRotation(key: string, rotateDays: Option<nat>, now: int)
      returns (r: Result<(), Error>)
      modifies this`entries
      ensures r.Ok? <==> key in old(entries)
      ensures View() == ApplyEdit(RotationEdit(key, rotateDays, now), old(View()))
    {
      if key !in entries {
        return Err(NoSuchKey);
      }
      entries := entries[key := entries[key].(rotateDays := rotateDays,
                                              expiresAt := DueFrom(now, rotateDays))];
      return Ok(());
    }

    method SetExpiry(key: string, expiresAt: Option<int>) returns (r: Result<(), Error>)
      modifies this`entries
      ensures r.Ok? <==> key in old(entries)
      ensures View() == ApplyEdit(ExpiryEdit(key, expiresAt), old(View()))
    {
      if key !in entries {
        return Err(NoSuchKey);
      }
      entries := entries[key := entries[key].(expiresAt := expiresAt)];
      return Ok(());
    }

    method Delete(key: string) returns (existed: bool)
      modifies this`entries
      ensures existed <==> key in old(entries)
      ensures View() == ApplyEdit(DeleteEdit(key), old(View()))
    {
      existed := key in entries;
      entries := entries - {key};
    }

    method Rename(from: string, to: string) returns (r: Result<(), Error>)
      modifies this`entries
      ensures r == (match Refusal(RenameEdit(from, to), old(entries))
                    case None => Ok(())
                    case Some(e) => Err(e))
      ensures View() == ApplyEdit(RenameEdit(from, to), old(View()))
    {
      if from == to {
        return Ok(());
      }
      if from !in entries {
        return Err(NoSuchKey);
      }
      if to in entries {
        return Err(KeyExists);
      }
      var entry := entries[from];
      entries := entries - {from};
      entries := entries[to := entry];
      return Ok(());
    }

    method Retier(key: string, tier: nat, now: int) returns (r: Result<(), Error>)
      modifies this`entries
      ensures r == (match Refusal(RetierEdit(key, tier, now), old(entries))
                    case None => Ok(())
                    case Some(e) => Err(e))
      ensures View() == ApplyEdit(RetierEdit(key, tier, now), old(View()))
    {
      if !ValidTier(tier) {
        return Err(InvalidTier);
      }
      if key !in entries {
        return Err(NoSuchKey);
      }
      entries := entries[key := entries[key].(tier := tier, updatedAt := now)];
      return Ok(());
    }

    /** Wraps the existing data key under a fresh phrase, and returns the phrase. */
    method GenerateRecoveryKey() returns (entropy: nat)
      modifies this`wrapRecovery, dir`counter
      ensures entropy == old(dir.counter) && dir.counter == old(dir.counter) + 3
      ensures View() == ApplyEdit(VaultFormat.GenerateRecoveryKey(old(View()), entropy, entropy + 1, entropy + 2),
                                  old(View()))
    {
      entropy := dir.Random();
      var salt := dir.Random();
      var nonce := dir.Random();
      var recKey := Derived(Phrase(entropy), salt, kdf);
      var blob := Enc(recKey, nonce, dataKey, WrapRecoveryAad);
      wrapRecovery := Some(WrapEntry(salt, blob));
    }

    method ChangePassphrase(secret: Secret)
      modifies this`wrapPassphrase, dir`counter
      ensures dir.counter == old(dir.counter) + 2
      ensures View() == ApplyEdit(VaultFormat.ChangePassphrase(old(View()), secret, old(dir.counter),
                                                         old(dir.counter) + 1),
                                  old(View()))
    {
      var salt := dir.Random();
      var nonce := dir.Random();
      var passKey := Derived(secret, salt, kdf);
      var blob := Enc(passKey, nonce, dataKey, WrapPassphraseAad);
      wrapPassphrase := WrapEntry(salt, blob);
    }
  }
}
