/** The vault file and the operations of an open store, as values. Cryptography is symbolic: a
    ciphertext remembers its key, its nonce, its plaintext and its associated data, and opens only
    under that key and that associated data; a derived key is determined by the secret, the salt
    and the parameters, and by nothing less. */
module VaultFormat {
  import opened Common

  // ---- Symbolic cryptography -------------------------------------------------------------

  datatype KdfParams = KdfParams(m: nat, t: nat, p: nat)

  const DEFAULT_KDF := KdfParams(65536, 3, 4)
  const V1_KDF := KdfParams(65536, 3, 4)

  /** What a person types: a passphrase, or the 24 words that stand for 256 random bits. */
  datatype Secret = Passphrase(text: string) | Phrase(entropy: nat)

  datatype Key =
    | DataKey(id: nat)
    | Derived(secret: Secret, salt: nat, params: KdfParams)
    | Subkey(master: Key)

  datatype Aad = WrapPassphraseAad | WrapRecoveryAad | VaultAad | EmptyAad

  datatype Cipher<P> = Enc(key: Key, nonce: nat, plain: P, aad: Aad)

  function Dec<P>(key: Key, c: Cipher<P>, aad: Aad): Option<P> {
    if c.key == key && c.aad == aad then Some(c.plain) else None
  }

  // ---- The file --------------------------------------------------------------------------

  const TIER_USE_ONLY: nat := 3
  const TIER_SIGN_ONLY: nat := 4
  const TIER_MAX: nat := 4

  datatype Entry = Entry(value: string, tier: nat, createdAt: int, updatedAt: int,
                         rotateDays: Option<nat>, expiresAt: Option<int>)

  type Entries = map<string, Entry>

  datatype WrapEntry = WrapEntry(salt: nat, blob: Cipher<Key>)

  datatype VaultFile = VaultFile(version: nat, kdf: KdfParams, passphrase: WrapEntry,
                                 recovery: Option<WrapEntry>, vault: Cipher<Entries>)

  datatype LegacyEntry = LegacyEntry(ciphertext: Cipher<string>, tier: nat, createdAt: int,
                                     updatedAt: int)

  /** A version 1 file: one ciphertext per entry, names in the clear. */
  datatype LegacyFile = LegacyFile(salt: nat, entries: map<string, LegacyEntry>)

  /** What is at the vault path. `Torn` is a file that does not parse. */
  datatype Disk = Absent | Torn | Legacy(v1: LegacyFile) | Sealed(file: VaultFile)

  datatype Error =
    | NotFound | Corrupt | UnsupportedVersion | WrongPassphrase | InvalidPhrase | NoRecovery
    | StaleWrapKey | Replaced | ChangedOnDisk | LockTimeout | InvalidTier | NoSuchKey | KeyExists
    | NotStored(missing: seq<string>)

  /** The contents of a version 2 file once opened. */
  datatype Vault = Vault(kdf: KdfParams, wrapPassphrase: WrapEntry,
                         wrapRecovery: Option<WrapEntry>, dataKey: Key, entries: Entries)

  // ---- Reading ---------------------------------------------------------------------------

  /** A version 1 file lacks fields that every later version has. */
  function ParseFile(disk: Disk): Result<VaultFile, Error> {
    match disk
    case Absent => Err(NotFound)
    case Torn => Err(Corrupt)
    case Legacy(_) => Err(Corrupt)
    case Sealed(f) => Ok(f)
  }

  function ReadFile(disk: Disk): Result<VaultFile, Error> {
    match ParseFile(disk)
    case Err(e) => Err(e)
    case Ok(f) => if f.version == 2 then Ok(f) else Err(UnsupportedVersion)
  }

  /** The second half of every way of opening: with the data key in hand, decrypt the body. */
  function OpenBody(f: VaultFile, dataKey: Key): Result<Vault, Error> {
    match Dec(dataKey, f.vault, VaultAad)
    case None => Err(Corrupt)
    case Some(entries) => Ok(Vault(f.kdf, f.passphrase, f.recovery, dataKey, entries))
  }

  function LoadV2(disk: Disk, secret: Secret): Result<Vault, Error> {
    match ReadFile(disk)
    case Err(e) => Err(e)
    case Ok(f) =>
      match Dec(Derived(secret, f.passphrase.salt, f.kdf), f.passphrase.blob, WrapPassphraseAad)
      case None => Err(WrongPassphrase)
      case Some(dataKey) => OpenBody(f, dataKey)
  }

  /** The words as typed; `None` when their checksum is wrong. */
  function OpenWithMnemonic(disk: Disk, words: Option<nat>): Result<Vault, Error> {
    if words.None? then Err(InvalidPhrase)
    else
      match ReadFile(disk)
      case Err(e) => Err(e)
      case Ok(f) =>
        match f.recovery
        case None => Err(NoRecovery)
        case Some(w) =>
          match Dec(Derived(Phrase(words.value), w.salt, f.kdf), w.blob, WrapRecoveryAad)
          case None => Err(InvalidPhrase)
          case Some(dataKey) => OpenBody(f, dataKey)
  }

  function DeriveWrapKey(disk: Disk, secret: Secret): Result<Key, Error> {
    match ReadFile(disk)
    case Err(e) => Err(e)
    case Ok(f) => Ok(Derived(secret, f.passphrase.salt, f.kdf))
  }

  function OpenWithWrapKey(disk: Disk, wrapKey: Key): Result<Vault, Error> {
    match ReadFile(disk)
    case Err(e) => Err(e)
    case Ok(f) =>
      match Dec(wrapKey, f.passphrase.blob, WrapPassphraseAad)
      case None => Err(StaleWrapKey)
      case Some(dataKey) => OpenBody(f, dataKey)
  }

  /** Re-read under the lock: everything but the data key comes from the file. */
  function Refresh(v: Vault, disk: Disk): Result<Vault, Error> {
    match ReadFile(disk)
    case Err(e) => Err(e)
    case Ok(f) =>
      match Dec(v.dataKey, f.vault, VaultAad)
      case None => Err(Replaced)
      case Some(entries) => Ok(Vault(f.kdf, f.passphrase, f.recovery, v.dataKey, entries))
  }

  predicate Holds(entries: Entries, key: string, value: string) {
    key in entries && entries[key].value == value
  }

  /** The keys of the pairs that `entries` does not hold, in order. */
  function Missing(entries: Entries, expected: seq<(string, string)>): (r: seq<string>)
    ensures r == [] <==> forall i :: 0 <= i < |expected| ==>
                           Holds(entries, expected[i].0, expected[i].1)
  {
    if expected == [] then []
    else
      var rest := Missing(entries, expected[1..]);
      assert forall i :: 0 < i < |expected| ==> expected[i] == expected[1..][i - 1];
      if Holds(entries, expected[0].0, expected[0].1) then rest else [expected[0].0] + rest
  }

  /** It keeps the keys of exactly those pairs, one after the other: for a pair that is held nothing, for any other its
      key. */
  lemma {:induction false} MissingIsFilter(entries: Entries, xs: seq<(string, string)>, ys: seq<(string, string)>,
                                           key: string, value: string)
    ensures Missing(entries, xs + ys) == Missing(entries, xs) + Missing(entries, ys)
    ensures Missing(entries, [(key, value)]) == if key in entries && entries[key].value == value then [] else [key]
    ensures Missing(entries, []) == []
  {
    assert [(key, value)][1..] == [];
    if xs == [] {
      assert xs + ys == ys;
    } else {
      assert (xs + ys)[1..] == xs[1..] + ys;
      MissingIsFilter(entries, xs[1..], ys, key, value);
    }
  }

  /** The only reader that does not look at the version. */
  function VerifyPersisted(dataKey: Key, disk: Disk, expected: seq<(string, string)>)
    : Result<(), Error>
  {
    match ParseFile(disk)
    case Err(e) => Err(e)
    case Ok(f) =>
      match Dec(dataKey, f.vault, VaultAad)
      case None => Err(Corrupt)
      case Some(entries) =>
        var missing := Missing(entries, expected);
        if missing == [] then Ok(()) else Err(NotStored(missing))
  }

  // ---- Writing ---------------------------------------------------------------------------

  function SealFile(v: Vault, nonce: nat): VaultFile {
    VaultFile(2, v.kdf, v.wrapPassphrase, v.wrapRecovery, Enc(v.dataKey, nonce, v.entries, VaultAad))
  }

  /** The compare of the compare-and-swap: a store that has read or written the file may only
      overwrite the same file. The digest of a file is taken to be injective. */
  predicate MayOverwrite(loaded: Option<VaultFile>, disk: Disk) {
    loaded.None? || disk == Sealed(loaded.value)
  }

  function WrapKey(secret: Secret, salt: nat, kdf: KdfParams, nonce: nat, dataKey: Key, aad: Aad)
    : WrapEntry
  {
    WrapEntry(salt, Enc(Derived(secret, salt, kdf), nonce, dataKey, aad))
  }

  function NewVault(secret: Secret, id: nat, salt: nat, nonce: nat): Vault {
    Vault(DEFAULT_KDF,
          WrapKey(secret, salt, DEFAULT_KDF, nonce, DataKey(id), WrapPassphraseAad),
          None, DataKey(id), map[])
  }

  /** The key of a version 1 file's entries. */
  function LegacyKey(v1: LegacyFile, secret: Secret): Key {
    Subkey(Derived(secret, v1.salt, V1_KDF))
  }

  predicate OpensLegacy(v1: LegacyFile, secret: Secret) {
    forall name :: name in v1.entries ==>
      Dec(LegacyKey(v1, secret), v1.entries[name].ciphertext, EmptyAad).Some?
  }

  /** Migration mints a data key, keeps every entry, and drops the old recovery phrase. */
  function MigrateV1(v1: LegacyFile, secret: Secret, id: nat, salt: nat, nonce: nat)
    : Result<Vault, Error>
  {
    if !OpensLegacy(v1, secret) then Err(WrongPassphrase)
    else
      Ok(NewVault(secret, id, salt, nonce).(entries :=
        map name | name in v1.entries ::
          var e := v1.entries[name];
          Entry(Dec(LegacyKey(v1, secret), e.ciphertext, EmptyAad).value,
                e.tier, e.createdAt, e.updatedAt, None, None)))
  }

  // ---- Mutations of an open store --------------------------------------------------------

  function DueFrom(now: int, rotateDays: Option<nat>): Option<int> {
    match rotateDays
    case None => None
    case Some(days) => Some(now + days * 86400)
  }

  /** A change to the contents, with everything that was random or timed already fixed. */
  datatype Edit =
    | SetEdit(key: string, value: string, tier: nat, now: int)
    | RotationEdit(key: string, rotateDays: Option<nat>, now: int)
    | ExpiryEdit(key: string, expiresAt: Option<int>)
    | RetierEdit(key: string, tier: nat, now: int)
    | DeleteEdit(key: string)
    | RenameEdit(from: string, to: string)
    | RewrapEdit(wrap: WrapEntry)
    | RecoveryEdit(wrap: WrapEntry)

  function SetEntry(entries: Entries, key: string, value: string, tier: nat, now: int): Entries {
    if key in entries then
      var e := entries[key];
      entries[key := Entry(value, tier, e.createdAt, now, e.rotateDays, DueFrom(now, e.rotateDays))]
    else
      entries[key := Entry(value, tier, now, now, None, None)]
  }

  predicate ValidTier(tier: nat) {
    1 <= tier <= TIER_MAX
  }

  /** An explicit tier wins; otherwise an existing key keeps its tier and a new key gets the
      default. */
  function TierFor(tier: Option<nat>, key: string, entries: Entries): nat {
    match tier
    case Some(t) => t
    case None => if key in entries then entries[key].tier else TIER_USE_ONLY
  }

  /** Why an edit is refused, if it is. */
  function Refusal(edit: Edit, entries: Entries): Option<Error> {
    match edit
    case SetEdit(_, _, tier, _) => if ValidTier(tier) then None else Some(InvalidTier)
    case RotationEdit(key, _, _) => if key in entries then None else Some(NoSuchKey)
    case ExpiryEdit(key, _) => if key in entries then None else Some(NoSuchKey)
    case RetierEdit(key, tier, _) =>
      if !ValidTier(tier) then Some(InvalidTier)
      else if key in entries then None else Some(NoSuchKey)
    case DeleteEdit(_) => None
    case RenameEdit(from, to) =>
      if from == to then None
      else if from !in entries then Some(NoSuchKey)
      else if to in entries then Some(KeyExists) else None
    case RewrapEdit(_) => None
    case RecoveryEdit(_) => None
  }

  /** An accepted edit, applied. A refused one changes nothing. */
  function ApplyEdit(edit: Edit, v: Vault): Vault {
    if Refusal(edit, v.entries).Some? then v
    else
      match edit
      case SetEdit(key, value, tier, now) =>
        v.(entries := SetEntry(v.entries, key, value, tier, now))
      case RotationEdit(key, rotateDays, now) =>
        v.(entries := v.entries[key := v.entries[key].(rotateDays := rotateDays,
                                                       expiresAt := DueFrom(now, rotateDays))])
      case ExpiryEdit(key, expiresAt) =>
        v.(entries := v.entries[key := v.entries[key].(expiresAt := expiresAt)])
      case RetierEdit(key, tier, now) =>
        v.(entries := v.entries[key := v.entries[key].(tier := tier, updatedAt := now)])
      case DeleteEdit(key) => v.(entries := v.entries - {key})
      case RenameEdit(from, to) =>
        if from == to then v
        else v.(entries := (v.entries - {from})[to := v.entries[from]])
      case RewrapEdit(wrap) => v.(wrapPassphrase := wrap)
      case RecoveryEdit(wrap) => v.(wrapRecovery := Some(wrap))
  }

  function ApplyEdits(edits: seq<Edit>, v: Vault): Vault {
    if edits == [] then v
    else ApplyEdit(edits[|edits| - 1], ApplyEdits(edits[..|edits| - 1], v))
  }

  function ChangePassphrase(v: Vault, secret: Secret, salt: nat, nonce: nat): Edit {
    RewrapEdit(WrapKey(secret, salt, v.kdf, nonce, v.dataKey, WrapPassphraseAad))
  }

  function GenerateRecoveryKey(v: Vault, entropy: nat, salt: nat, nonce: nat): Edit {
    RecoveryEdit(WrapKey(Phrase(entropy), salt, v.kdf, nonce, v.dataKey, WrapRecoveryAad))
  }

  // ---- The key hierarchy -----------------------------------------------------------------

  /** What a file contains, read off its ciphertexts. */
  function Contents(f: VaultFile): Vault {
    Vault(f.kdf, f.passphrase, f.recovery, f.vault.key, f.vault.plain)
  }

  /** `w` wraps `dataKey` under a key derived with its own salt. */
  predicate Wraps(w: WrapEntry, dataKey: Key, kdf: KdfParams, aad: Aad) {
    && w.blob.key.Derived? && w.blob.key.salt == w.salt && w.blob.key.params == kdf
    && w.blob.plain == dataKey && w.blob.aad == aad
  }

  predicate WellKeyed(v: Vault) {
    && Wraps(v.wrapPassphrase, v.dataKey, v.kdf, WrapPassphraseAad)
    && v.wrapPassphrase.blob.key.secret.Passphrase?
    && (v.wrapRecovery.Some? ==>
          && Wraps(v.wrapRecovery.value, v.dataKey, v.kdf, WrapRecoveryAad)
          && v.wrapRecovery.value.blob.key.secret.Phrase?)
  }

  /** The hierarchy invariant of a file: the body is encrypted under the data key, and each wrap
      that is present unwraps to that same data key. */
  predicate WellKeyedFile(f: VaultFile) {
    f.version == 2 && f.vault.aad == VaultAad && WellKeyed(Contents(f))
  }

  /** The secret that opens a well-keyed vault. */
  function PassphraseOf(v: Vault): Secret
    requires WellKeyed(v)
  {
    v.wrapPassphrase.blob.key.secret
  }

  /** What it means for a user: both the passphrase and, if there is one, the recovery phrase
      open the file, each to the full contents, and no other secret does. */
  lemma {:induction false} WellKeyedFileOpens(f: VaultFile, secret: Secret, words: nat)
    requires WellKeyedFile(f)
    ensures LoadV2(Sealed(f), secret)
         == if secret == PassphraseOf(Contents(f)) then Ok(Contents(f)) else Err(WrongPassphrase)
    ensures OpenWithMnemonic(Sealed(f), Some(words))
         == if f.recovery.None? then Err(NoRecovery)
            else if f.recovery.value.blob.key.secret == Phrase(words) then Ok(Contents(f))
            else Err(InvalidPhrase)
  {
  }

  /** Every way of opening and the re-read under the lock refuse a file of another version, and say what else is in
      the way when there is none to read. */
  lemma {:induction false} OtherFilesAreRefused(disk: Disk, secret: Secret, words: nat, key: Key, v: Vault)
    requires !(disk.Sealed? && disk.file.version == 2)
    ensures var error := if disk.Absent? then NotFound
                         else if disk.Sealed? then UnsupportedVersion
                         else Corrupt;
            && LoadV2(disk, secret) == Err(error) && OpenWithMnemonic(disk, Some(words)) == Err(error)
            && OpenWithWrapKey(disk, key) == Err(error) && DeriveWrapKey(disk, secret) == Err(error)
            && Refresh(v, disk) == Err(error)
  {
  }

  lemma {:induction false} SealedContents(v: Vault, nonce: nat)
    ensures Contents(SealFile(v, nonce)) == v
    ensures WellKeyed(v) ==> WellKeyedFile(SealFile(v, nonce))
  {
  }

  // ---- What the edits do -----------------------------------------------------------------

  /** Renaming moves an entry whole, and renaming back gives the vault back. */
  lemma {:induction false} RenameBack(v: Vault, from: string, to: string)
    requires from in v.entries && Refusal(RenameEdit(from, to), v.entries).None?
    ensures var w := ApplyEdit(RenameEdit(from, to), v);
            && to in w.entries && w.entries[to] == v.entries[from]
            && (from != to ==> from !in w.entries)
            && Refusal(RenameEdit(to, from), w.entries).None?
            && ApplyEdit(RenameEdit(to, from), w) == v
  {
    var w := ApplyEdit(RenameEdit(from, to), v);
    assert ApplyEdit(RenameEdit(to, from), w).entries == v.entries;
  }

  /** A value set and deleted again leaves the vault as if the key had been deleted at once. */
  lemma {:induction false} SetThenDelete(v: Vault, key: string, value: string, tier: nat, now: int)
    requires ValidTier(tier)
    ensures ApplyEdit(DeleteEdit(key), ApplyEdit(SetEdit(key, value, tier, now), v))
         == ApplyEdit(DeleteEdit(key), v)
    ensures key !in ApplyEdit(DeleteEdit(key), v).entries
  {
    assert SetEntry(v.entries, key, value, tier, now) - {key} == v.entries - {key};
  }

  /** No edit but its own kind reaches a wrap, and no edit reaches the data key. */
  lemma {:induction false} EditsKeepKeys(edit: Edit, v: Vault)
    ensures var w := ApplyEdit(edit, v);
            && w.dataKey == v.dataKey && w.kdf == v.kdf
            && (!edit.RewrapEdit? ==> w.wrapPassphrase == v.wrapPassphrase)
            && (!edit.RecoveryEdit? ==> w.wrapRecovery == v.wrapRecovery)
            && (edit.RewrapEdit? ==> w == v.(wrapPassphrase := edit.wrap))
            && (edit.RecoveryEdit? ==> w == v.(wrapRecovery := Some(edit.wrap)))
  {
  }

  /** A migration keeps every entry: its name, its decrypted value, its tier and its times. No entry gets a policy or
      a due date. The old key is derived with the parameters version 1 had, the new one with the defaults. */
  lemma {:induction false} MigrationKeepsEntries(v1: LegacyFile, secret: Secret, id: nat, salt: nat, nonce: nat,
                                                 name: string)
    requires secret.Passphrase? && MigrateV1(v1, secret, id, salt, nonce).Ok?
    ensures var v := MigrateV1(v1, secret, id, salt, nonce).value;
            && WellKeyed(v) && PassphraseOf(v) == secret && v.wrapRecovery.None? && v.dataKey == DataKey(id)
            && v.kdf == KdfParams(65536, 3, 4) && v.entries.Keys == v1.entries.Keys
            && (name in v1.entries ==>
                  var was, key := v1.entries[name], Subkey(Derived(secret, v1.salt, KdfParams(65536, 3, 4)));
                  && was.ciphertext.key == key && was.ciphertext.aad == EmptyAad
                  && v.entries[name]
                     == Entry(was.ciphertext.plain, was.tier, was.createdAt, was.updatedAt, None, None))
  {
    assert MigrateV1(v1, secret, id, salt, nonce).value.entries.Keys == v1.entries.Keys;
  }

  /** It fails, with a wrong passphrase, if and only if some entry does not open under the key of that passphrase. */
  lemma {:induction false} MigrationFailsIff(v1: LegacyFile, secret: Secret, id: nat, salt: nat, nonce: nat)
    ensures var r := MigrateV1(v1, secret, id, salt, nonce);
            var key := Subkey(Derived(secret, v1.salt, KdfParams(65536, 3, 4)));
            && (r.Err? ==> r.error == WrongPassphrase)
            && (r.Ok? <==> forall name :: name in v1.entries ==>
                             v1.entries[name].ciphertext.key == key && v1.entries[name].ciphertext.aad == EmptyAad)
  {
  }

  // ---- Pairs that are stored together ----------------------------------------------------

  function Lookup(entries: Entries, key: string): Option<Entry> {
    if key in entries then Some(entries[key]) else None
  }

  /** The value the pairs give a key last, if they mention it. */
  function LastValue(pairs: seq<(string, string)>, key: string): Option<string> {
    if pairs == [] then None
    else if pairs[|pairs| - 1].0 == key then Some(pairs[|pairs| - 1].1)
    else LastValue(pairs[..|pairs| - 1], key)
  }

  /** No key is given two different values. */
  predicate Consistent(pairs: seq<(string, string)>) {
    forall i, j :: 0 <= i < |pairs| && 0 <= j < |pairs| && pairs[i].0 == pairs[j].0 ==> pairs[i].1 == pairs[j].1
  }

  lemma {:induction false} LastIsMentioned(pairs: seq<(string, string)>, key: string)
    ensures LastValue(pairs, key).None? ==> forall i :: 0 <= i < |pairs| ==> pairs[i].0 != key
    ensures LastValue(pairs, key).Some? ==>
              exists i :: 0 <= i < |pairs| && pairs[i] == (key, LastValue(pairs, key).value)
  {
    if pairs != [] {
      LastIsMentioned(pairs[..|pairs| - 1], key);
    }
  }

  predicate HoldsLast(entries: Entries, pairs: seq<(string, string)>, key: string) {
    var last := LastValue(pairs, key);
    last.Some? ==> Holds(entries, key, last.value)
  }

  /** Entries that hold the last value of every key hold all pairs exactly when these are consistent. */
  lemma {:induction false} HeldIffConsistent(entries: Entries, pairs: seq<(string, string)>)
    requires forall i :: 0 <= i < |pairs| ==> HoldsLast(entries, pairs, pairs[i].0)
    ensures Missing(entries, pairs) == [] <==> Consistent(pairs)
  {
    forall i | 0 <= i < |pairs|
      ensures LastValue(pairs, pairs[i].0).Some?
    {
      LastIsMentioned(pairs, pairs[i].0);
    }
    if Consistent(pairs) {
      forall i | 0 <= i < |pairs| ensures Holds(entries, pairs[i].0, pairs[i].1) {
        LastIsMentioned(pairs, pairs[i].0);
      }
    }
    if Missing(entries, pairs) == [] {
      assert Consistent(pairs);
    }
  }
}
