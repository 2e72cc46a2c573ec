# hearth-vault: a verified model

hearth-vault keeps credentials in one encrypted file, hands them to commands, and removes them from
what those commands print. This project models the parts of it that are hard to get right and proves
what they promise, for every input, every run and every crash.

- **The streaming redactor** (`Redaction`, `RedactionCoverage`, `RedactionSpelling`, `RedactionOutput`,
  `LeftmostLongest`, `PercentEncoding`).
  Secrets are replaced in a byte stream that arrives in arbitrary pieces. The output does not depend
  on the pieces, what is already out is final, and every occurrence of a secret or of its
  percent-encoded form is hit by a replacement; a finite check says exactly when
  no output can contain a secret.
- **The vault file and its processes** (`VaultFormat`, `VaultStores`, `Commands`, `Adopt`,
  `AdoptSelection`, `AdoptOutcome`, `DotenvLines`, `Protocol`, `ProtocolInvariant`, `ProtocolSteps`,
  `ProtocolActions`, `ProtocolRuns`, `ProtocolTheorems`, `ProtocolHistory`, `ProtocolSources`,
  `ProtocolCommits`, `ProtocolRefreshed`, `ProtocolMigration`, `ProtocolProgress`, `ProtocolCommands`,
  `ProtocolChanges`, `ProtocolLoss`, `ProtocolEmptied`, `LineEndings`). The store is a class whose methods are proved against
  operations on values; the commands are methods over it. The same operations are then cut into
  single accesses to shared state and interleaved: any number of processes, one lock, one vault file,
  source files, an agent, and a crash at any point. One invariant holds of every reachable state, and
  the promises about lost updates, destroyed sources, key hierarchy and re-keying follow from it. For
  every command there is a theorem that says what its program leaves when nobody disturbs it.
- **Replacing a file so that a crash cannot tear it** (`PrivateWrite`, `PrivateWriteSafety`). A volume
  with a visible and a durable directory, unsynced files, and a crash between any two calls.
- **Smaller cores**: which matches of a scanned line become findings (`ScanClaims`), which files a scan
  reads (`ScanWalk`), the agent's cache against its history (`Agent`), the framing of TPM blobs
  (`SealedBlob`) and the quoting of exported values (`ShellQuote`).

Cryptography is symbolic: a ciphertext opens under its own key and associated data and under nothing
else, a derived key is determined by the secret, the salt and the parameters, random values never
repeat, and the digest of a file is injective.

Automatic induction is switched off in every lemma: each inductive proof is written out.

## What the proofs found

- *An import can destroy text it never read.* `import` reads its source before it takes the lock. When
  an adoption rewrites the file in between, the vault holds the text that was read, and the newer text is
  destroyed (`ImportMayDestroyNewerText`). That is the only way (`ImportLosesOnlyToAdoption`), and for any
  set of commands `ImportSafeIff` gives the condition to check before starting them: importing a file is
  safe in every interleaving if and only if none of them adopts a line of that file.
- *A migration that crashes between truncating and writing* leaves a torn vault file. Some run leaves one
  if and only if the vault was a version 1 file that some passphrase opens (`LeftTornIff`), and it stays
  torn until a snapshot is restored (`TornUntilRestored`).
- *Covering every occurrence completely depends on the secrets.* An earlier match that overlaps an
  occurrence can leave its tail in the output (`OverlapLeavesTail`). `WipesEveryOccurrenceIff` gives the
  finite condition on the set of patterns under which no byte of any occurrence is ever copied.
- *A placeholder can spell a secret* (`PlaceholderSpellsSecret`). `NoSecretInOutput` gives the exact
  condition: no form of any redactable secret occurs in the redaction of any text if and only if the
  redactor passes a check of finitely many short texts (`SpellsNothing`), each made from one way to spell a
  pattern out of copied bytes and placeholders. A redactor whose placeholders can share no byte with a
  pattern passes it (`ApartSpellsNothing`).
- *An adoption that crashes inside `fs::write` leaves an empty source.* Emptying comes before writing, so the
  lines that were not adopted are lost, and nothing brings them back (`EmptiedIsTraced`, `LostForGood`). For
  any set of commands this can happen to a file if and only if one of them adopts a line of it (`EmptiedIff`).
- *Rewriting a source changes the endings of lines it leaves alone*, unless the file ends in a newline and has
  no return before one (`RewritingKeepsTextIff`).
- *Ok from `write_private` means durable if and only if the directory could be opened*, or nothing else
  could have come back anyway (`OkIsDurableIff`). For a path without a directory part the source opens the
  empty path: without any other fault the call is durable if and only if the path has a directory part
  (`FaultlessIsDurableIff`), and a bare name can roll back after Ok (`BareNameMayRollBack`).
- *`set` with one key and two values* saves the last one and then reports a failed verification
  (`VerifiesIffConsistent`). An adoption that stores two values under one key does the same, and rewrites
  no source (`AdoptCompletes`).
- *A double-quoted dotenv value with a backslash before an n is misread.* The parser unescapes newlines
  before backslashes, so reading gives back what was escaped if and only if the value has no backslash right
  before an n (`UnquoteUndoesEscapeIff`, `BackslashNIsMisread`). Adopting such a line stores another value
  than the one it removes from the file.
- *The reply to DROP* counts keys that had already expired; STATUS does not. `DropCounts` says what it
  counts, `DropCountsLiveIff` when that is the number of live keys, `DropCountsExpired` is a history in
  which it is not.
- *`export-env` prints the name as it was given.* The line assigns the value to it if and only if every
  character of it means itself to the shell (`ExportAssignsIff`); with a blank in the name, the value ends up
  outside its variable (`BlankEndsTheName`).

## Model

| member | source | states |
|---|---|---|
| `PercentEncoding.PercentEncode` | src/redact.rs:58-70 | The pushing loop computes the one text that reads as the value, escapes with upper-case digits, and escapes exactly what is not unreserved. |
| `PercentEncoding.EncodeIff` | src/redact.rs:51-70 | A text is the encoding of a value if and only if it reads as the value by section 2.1 of RFC 3986, every triplet in it has upper-case digits and stands for a reserved byte, and every other byte is unreserved (section 2.3). |
| `PercentEncoding.DecodeEncode` | src/redact.rs:53-70 | The decoder of section 2.1 of RFC 3986 gives every byte string back from its encoding. |
| `PercentEncoding.EncodeInjective` | src/redact.rs:53-70 | Different values have different encodings. |
| `PercentEncoding.EncodedForm` | src/redact.rs:53-70 | The encoding is the value itself if and only if every byte is unreserved (section 2.3), is never shorter, and never contains a newline. |
| `LeftmostLongest.WinnerIsUnique` | src/redact.rs:122-129 | At a position at most one pattern wins: the longest, and of equal ones the first. |
| `LeftmostLongest.MatchesAreUnique` | src/redact.rs:196-198 | A text has exactly one list of leftmost-longest matches. |
| `LeftmostLongest.FindFrom` | src/redact.rs:198 | The scanner returns the next match of that list. |
| `Redaction.NewRedactor` | src/redact.rs:93-137 | The patterns are the redactable values and their different encodings, the held length is the longest pattern less one, and lines are safe if and only if no redactable value contains a newline. |
| `Redaction.LineSafeFromValues` | src/redact.rs:97-120 | No pattern has a newline if and only if no redactable raw value has one. |
| `Redaction.FormsAreInPatterns` | src/redact.rs:97-111 | Every redactable value and its encoding is a pattern. |
| `Redaction.OwnerOf` | src/redact.rs:97-111 | Every pattern is a form of a redactable secret, and its replacement names that secret. |
| `Redaction.DecidedBeforeSafeLen` | src/redact.rs:181-192 | Before the cut no continuation of the buffer, however long, adds or changes a match: neither the length rule nor the newline rule lets one through. |
| `Redaction.CrossingMatch` | src/redact.rs:199-205 | A match across the cut starts within the held length of it and after the last newline. |
| `Redaction.RedactDependsOnSuffix` | src/redact.rs:198-217 | What is redacted from a position on does not depend on the text before it. |
| `Redaction.RedactStream.constructor` | src/redact.rs:149-157 | A fresh stream holds nothing. |
| `Redaction.RedactStream.Process` | src/redact.rs:177-218 | For every continuation, what the call emits followed by the redaction of what it keeps and what is to come is the redaction of the whole; it keeps a suffix of at most twice the held length, without a newline when lines are safe, and nothing at end of file. |
| `Redaction.EmittedIsFinal` | src/redact.rs:183-212 | Bytes already out are a prefix of the one-shot redaction of every continuation. |
| `Redaction.ChunkingDoesNotMatter` | src/redact.rs:177-218 | However a stream is cut, the outputs closed by an end-of-file call are the one-shot redaction. |
| `Redaction.PumpRedacted` | src/main.rs:2415-2437 | It succeeds if and only if the source ends cleanly and every write and the flush are taken, and then the destination got the one-shot redaction of everything received; whatever fails, it got only bytes every complete run would have started with. |
| `RedactionCoverage.RedactionIsSplice` | src/redact.rs:198-217 | Redaction replaces exactly the leftmost-longest matches and copies the rest. |
| `RedactionCoverage.MatchesOf` | src/redact.rs:196-198 | Every text has such a list of matches. |
| `RedactionCoverage.EveryOccurrenceIsHit` | src/redact.rs:126-129 | Every occurrence of a pattern starts inside a replaced span, and is covered whole when the span starts with it. |
| `RedactionCoverage.EverySecretIsHit` | src/redact.rs:45-217 | Wherever a value of at least 8 bytes or its percent-encoding by the rules of RFC 3986 occurs in a stream, a replaced span covers its first byte; the span is such a form of a secret, and its replacement is `<vault:NAME>` of that secret. |
| `RedactionCoverage.WipesEveryOccurrenceIff` | src/redact.rs:122-217 | No byte of any occurrence in any text is copied if and only if every overlap of two patterns is itself matched without a gap. |
| `RedactionCoverage.OverlapLeavesTail` | src/redact.rs:122-217 | Two values and a text for which the tail of an occurrence stays. |
| `RedactionSpelling.CleanIff` | src/redact.rs:198-217 | For every redactor: no pattern ever occurs in an output if and only if no way to spell one out of copied bytes and placeholders is read as it is spelled. |
| `RedactionSpelling.SpellingsSpell` | src/redact.rs:198-217 | The listed spellings of a pattern are all there are. |
| `RedactionSpelling.SpellingsAreShort` | src/redact.rs:198-217 | A spelling has at most as many tokens as the pattern has bytes. |
| `RedactionSpelling.CheckIff` | src/redact.rs:198-217 | The check over the listed spellings decides whether any output of the redactor can contain a pattern. |
| `RedactionOutput.OutputIsClean` | src/redact.rs:177-218 | When no pattern, laid over a placeholder in any way, agrees with it on the bytes they share, no pattern occurs in any output; the simple sufficient case. |
| `RedactionOutput.ApartSpellsNothing` | src/redact.rs:97-137 | Such a redactor passes the exact check. |
| `RedactionOutput.NoSecretInOutput` | src/redact.rs:93-217 | Neither a redactable value nor its encoding occurs in the redaction of any text if and only if the redactor built from the secrets passes the check. |
| `RedactionOutput.PlaceholderSpellsSecret` | src/redact.rs:97-111 | Two secrets for which the placeholder of one is the value of the other, which is then printed; they fail the check. |
| `VaultFormat.WellKeyedFileOpens` | src/store.rs:307-383 | In a well-keyed file exactly one passphrase and, if there is a recovery wrap, exactly one phrase opens the full contents. |
| `VaultFormat.SealedContents` | src/store.rs:483-497 | Saving and reading off gives the store back, and keeps the key hierarchy. |
| `VaultFormat.RenameBack` | src/store.rs:602-620 | Renaming moves an entry whole, and renaming back gives the vault back. |
| `VaultFormat.SetThenDelete` | src/store.rs:512-600 | Setting and deleting a key leaves what deleting it leaves. |
| `VaultFormat.EditsKeepKeys` | src/store.rs:512-704 | No edit changes the data key, and only re-keying changes a wrap, and then nothing else. |
| `VaultFormat.MigrationKeepsEntries` | src/store.rs:999-1090 | A migration keeps every entry's name, value, tier and times, without a policy or a due date, under a new data key that the passphrase opens, and drops the recovery wrap. |
| `VaultFormat.MigrationFailsIff` | src/store.rs:1004-1026 | It fails if and only if some entry does not open, without associated data, under the subkey of the passphrase with the version 1 parameters. |
| `VaultFormat.Missing` | src/store.rs:429-446 | The list of missing keys is empty if and only if every pair is held. |
| `VaultFormat.MissingIsFilter` | src/store.rs:429-446 | The list has the key of each pair that is not held, in order, and no other. |
| `VaultFormat.OtherFilesAreRefused` | src/store.rs:307-416 | Every way of opening, and the re-read, refuses a file of another version, a missing file and one that does not parse, each with its error. |
| `VaultFormat.HeldIffConsistent` | src/store.rs:422-447 | When every key has the last of its values, nothing is missing if and only if no key was given two values. |
| `VaultStores.VaultDir.Random` | src/store.rs:279-281 | Random values are never repeated. |
| `VaultStores.VaultDir.Acquire` | src/store.rs:830-867 | The lock is had exactly when nobody holds it; the file may have changed while waiting. |
| `VaultStores.OpeningAgreesWithDisk` | src/store.rs:247-305 | Whoever opens holds the data key and entries of the file that is on disk afterwards; a current vault found first or under the lock is left as it was. |
| `VaultStores.VaultStore.Opened` | src/store.rs:288-300 | A store shows the vault it was opened with. |
| `VaultStores.VaultStore.OpenAtWithPassphrase` | src/store.rs:247-276 | A missing vault is created and a version 1 vault migrated, with its backup, only if it still is one under the lock; otherwise what is there is loaded. |
| `VaultStores.VaultStore.CreateNew` | src/store.rs:278-305 | Mints a data key, wraps it, saves, and gives the lock back. |
| `VaultStores.VaultStore.Migrate` | src/store.rs:999-1090 | Backs up the version 1 file and writes every entry under a new data key, or changes nothing on a wrong passphrase. |
| `VaultStores.VaultStore.OpenAtWithMnemonic` | src/store.rs:344-383 | Opens exactly as the value-level reading says, with its errors, and remembers the file it read. |
| `VaultStores.VaultStore.OpenAtWithWrapKey` | src/store.rs:748-773 | Opens exactly as the value-level reading says, with its errors, and remembers the file it read. |
| `VaultStores.VaultStore.LockAndRefresh` | src/store.rs:394-416 | On success the store is the file that is on disk under the lock; on failure it is unchanged, and the lock is kept if it was obtained. |
| `VaultStores.VaultStore.VerifyPersisted` | src/store.rs:422-447 | Fails with exactly the keys whose value is not on disk. |
| `VaultStores.VaultStore.Save` | src/store.rs:454-508 | Writes if and only if the lock can be had and the file is still the one this store knows; otherwise nothing is written. |
| `VaultStores.VaultStore.Unlock` | src/store.rs:810-812 | Dropping the store gives the lock back. |
| `VaultStores.VaultStore.Set` | src/store.rs:512-541 | Refuses a bad tier; otherwise the entry is replaced, keeping its creation time and moving its due date. |
| `VaultStores.VaultStore.SetRotation` | src/store.rs:545-555 | Sets the policy and the due date of an existing key, and nothing else. |
| `VaultStores.VaultStore.SetExpiry` | src/store.rs:560-568 | Pins the due date of an existing key, and nothing else. |
| `VaultStores.VaultStore.Delete` | src/store.rs:592-600 | Removes the entry and tells whether there was one. |
| `VaultStores.VaultStore.Rename` | src/store.rs:602-620 | Moves the entry; refuses a missing source and an existing target. |
| `VaultStores.VaultStore.Retier` | src/store.rs:622-636 | Changes the tier and the time of change of an existing key. |
| `VaultStores.VaultStore.GenerateRecoveryKey` | src/store.rs:666-686 | Replaces the recovery wrap by one of the same data key under a new phrase. |
| `VaultStores.VaultStore.ChangePassphrase` | src/store.rs:691-704 | Replaces the passphrase wrap by one of the same data key under a new salt. |
| `Commands.OpenVault` | src/main.rs:882-921 | The agent's key opens the vault when it still can; otherwise opening goes on to the passphrase as if there were no agent, and then a listening agent is offered a key that opens that very vault. |
| `Commands.DerivedOpens` | src/store.rs:722-773 | The key derived for the agent opens what the passphrase opens. |
| `Commands.OpenForChange` | src/main.rs:1328-1331 | After opening and refreshing, the store is the file on disk and the lock is held; on failure the lock is free. |
| `Commands.StoredEntry` | src/main.rs:1259-1284 | One pair sets the value; the tier is the one asked for, else the one the key has, else 3; the creation time stays; the due date is the one given, else the policy's number of days from now, else none. |
| `Commands.PairIsRefusedIff` | src/store.rs:55-69 | A pair is refused if and only if that tier is not one of 1 to 4. |
| `Commands.StoredLast` | src/main.rs:1259-1284 | After all pairs each key has its last value and no other key has changed. |
| `Commands.VerifiesIffConsistent` | src/main.rs:1286-1289 | The check after the save succeeds if and only if no key was given two values. |
| `Commands.CmdSet` | src/main.rs:1206-1312 | On success the file is the refreshed one with the pairs stored; an error leaves it alone unless the pairs contradict each other. |
| `Commands.CmdImport` | src/main.rs:1314-1350 | The source is destroyed if and only if the command succeeds, and then the file on disk holds its trimmed text under the key. |
| `Commands.CmdAdopt` | src/main.rs:3113-3235 | On success the file holds the planned entries and the sources are the planned rewrites; every changed line is in the vault under the key its pointer names, every finding's line shows whether it was adopted, and without force no existing entry changes; on failure no source has changed. |
| `Commands.RewrittenIsAdopted` | src/main.rs:3222-3226 | Rewriting touches only lines whose values are stored. |
| `Commands.CmdRestore` | src/main.rs:3878-3913 | A snapshot that does not open changes nothing; otherwise whatever file was there is kept as a backup and replaced. |
| `Adopt.PlanByLoop` | src/main.rs:3164-3220 | The loops over files and findings compute the plan the lemmas speak about. |
| `Adopt.PlanIsJustified` | src/main.rs:3154-3220 | Every line a plan replaces is stored under the key its pointer names, even when two lines go to one key; each file is rewritten once. |
| `Adopt.AdoptLinesJustified` | src/main.rs:3171-3213 | Only lines with a finding change, and a file without a stored pair is left alone. |
| `Adopt.PlanEdits` | src/main.rs:3200-3202 | The recorded edits are exactly what leads from the old entries to the planned ones. |
| `Adopt.PlanIsNamed` | src/main.rs:3164-3220 | Every rewrite is of a file the work names and changes only lines with a finding in it. |
| `Adopt.PlanHoldsIff` | src/main.rs:3196-3226 | What was planned verifies if and only if no key gets two values. |
| `AdoptOutcome.PlanAccounts` | src/main.rs:3164-3220 | For every finding, file, prefix and setting of force: exactly the findings whose line exists and assigns a value that is not empty, and whose key is free or may be overwritten, are stored and replaced, in order; the others count as errors or as skipped. A key is free if no entry has it and no earlier finding with a value does. |
| `AdoptOutcome.ExistingAreKept` | src/main.rs:3196-3203 | Without force no existing entry changes, and no stored pair names one. |
| `AdoptOutcome.LineChangesIff` | src/main.rs:3171-3213 | The line of a finding changes if and only if the finding is adopted, and then it is the pointer to its key. |
| `AdoptOutcome.PointerTells` | src/main.rs:3215 | The pointer tells which name was assigned and which key has the value, as long as names have no angle bracket. |
| `DotenvLines.TrimIff` | src/main.rs:1376-1405 | Trimming takes white space, as Unicode has it, from both ends and nothing else. |
| `DotenvLines.AssignmentMeans` | src/main.rs:1369-1412 | An assignment gives its name and its unquoted value, with or without the keyword, and whatever blanks stand around the line. |
| `DotenvLines.OtherLinesMeanNothing` | src/main.rs:1378-1386 | Blank lines, comments and lines without an equals sign give nothing. |
| `DotenvLines.UnquotedMeans` | src/main.rs:1391-1408 | A value without matching quotes is taken as it is, a single-quoted one without its quotes. |
| `DotenvLines.UnquoteUndoesEscapeIff` | src/main.rs:1371-1403 | Reading a double-quoted value gives back what was escaped if and only if it has no backslash right before an n. |
| `DotenvLines.BackslashNIsMisread` | src/main.rs:1398-1403 | The value for which it does not: it is read with a newline in it. |
| `AdoptSelection.SelectFindings` | src/main.rs:3120-3138 | The pass with its set of seen places selects the first finding of each line and sets the others aside. |
| `AdoptSelection.SelectedIsFirst` | src/main.rs:3130-3137 | A selected finding is the first one reported for its line. |
| `AdoptSelection.OneMoreSelected` | src/main.rs:3125-3138 | A further finding is selected, behind the others, if and only if it is in a dotenv file and none before it in such a file has its line; it is set aside if and only if it is in no dotenv file. |
| `AdoptSelection.OnPathIsFilter` | src/main.rs:3158-3162 | A file's findings are exactly those on its path, in the order of the report. |
| `AdoptSelection.GroupByFile` | src/main.rs:3158-3162 | Each file appears once, in order, with exactly its findings. |
| `AdoptSelection.SelectionIsDistinct` | src/main.rs:3120-3162 | No file and no line is worked on twice, whatever the scan reports. |
| `AdoptSelection.NoFindingLost` | src/main.rs:3120-3162 | Every dotenv finding has its file and its line in the work. |
| `Protocol.SetIsDisciplined` | src/main.rs:1206-1312 | What `set` runs is one of the programs the invariant covers. |
| `Protocol.ImportIsDisciplined` | src/main.rs:1314-1350 | The same for `import`. |
| `Protocol.AdoptIsDisciplined` | src/main.rs:3113-3235 | The same for `scan --adopt`. |
| `Protocol.MutateIsDisciplined` | src/main.rs:1685-1760 | The same for commands that check, change entries or keys, and save. |
| `Protocol.OthersAreDisciplined` | src/main.rs:1076-1118 | The same for `init`, `recover` and `restore`. |
| `ProtocolRuns.NextInv` | src/store.rs:247-508 | Every step of every process, and every crash, keeps the invariant. |
| `ProtocolRuns.RunInv` | src/store.rs:247-508 | The invariant holds in every reachable state, from any initial vault. |
| `ProtocolTheorems.NoLostUpdate` | src/store.rs:394-508 | The file on disk is the edits of the successful saves, replayed in commit order, with a restore overwriting. |
| `ProtocolTheorems.OnlyTheOwnerCommits` | src/store.rs:454-508 | Only the owner of the lock extends the history, by a write that leads from the file on disk to the new one. |
| `ProtocolCommits.StaleNeverCommits` | src/store.rs:394-468 | A process that opened a file and has not refreshed commits and writes nothing, in any continuation in which that file does not come back. |
| `ProtocolCommits.SavedIsCommitted` | src/store.rs:454-508 | A process that has passed its save has exactly its edits in the history, for good. |
| `ProtocolTheorems.RefreshedSaveSucceeds` | src/store.rs:385-416 | A save after a successful refresh is never refused as changed on disk, and is recorded. |
| `ProtocolRefreshed.CommandsRefresh` | src/main.rs:1206-1916 | Every command that changes an existing vault re-reads it under the lock before it saves. |
| `ProtocolRefreshed.CommandsAreNeverStale` | src/store.rs:385-468 | In every run and whatever the others do, such a command is never told that the file changed: when it compares it goes on to write, and the write is recorded. |
| `ProtocolTheorems.CommitsSurvive` | src/store.rs:405-414 | Entries that later edits do not touch keep their value, and nobody reverts a re-keying they did not make. |
| `ProtocolTheorems.ValuesSurvive` | src/store.rs:394-508 | The same over runs. |
| `ProtocolTheorems.LogOnlyGrows` | src/store.rs:454-508 | Commits are never undone. |
| `ProtocolTheorems.DestroyOnlyAfterPersist` | src/main.rs:1334-1345 | When `import` is about to destroy its source, it holds the lock and the vault on disk maps the key to the text in its memory. |
| `ProtocolSources.ImportStoresWhatItRead` | src/main.rs:1325-1345 | That text is what the file held at a certain earlier step of the run, the import's read; the vault has the present text if and only if the file reads the same now as then. |
| `ProtocolSources.ImportLosesOnlyToAdoption` | src/main.rs:1325-1345 | If the vault does not have the present text, then after that read a rewriting step of another process, started as an adoption with a finding in this file, overwrote it. |
| `ProtocolSources.ImportIsSafe` | src/main.rs:1325-1345 | If no program started in the run adopts a line of the file, an import destroys only text that the vault on disk holds. |
| `ProtocolLoss.AdoptionCanCostAnImport` | src/main.rs:1325-1345 | From any unlocked vault, an adoption that completes and changes the text can run between the read and the lock of an import, which then destroys text the vault does not hold. |
| `ProtocolLoss.ImportSafeIff` | src/main.rs:1325-1345 | For any set of commands with an import of the file: it is safe in every run of them, from every start, if and only if none adopts a line of the file. |
| `ProtocolLoss.ImportMayDestroyNewerText` | src/main.rs:1325-1345 | A reachable state in which an import destroys text that is not in the vault. |
| `ProtocolTheorems.AdoptReplacesOnlyStored` | src/main.rs:3151-3232 | When `adopt` is about to overwrite a file, the vault on disk holds the value of every line it changes under the key its pointer names. |
| `ProtocolTheorems.AdoptKeepsTheRest` | src/main.rs:3208-3226 | A rewriting that is not interrupted keeps the number of lines of its file, and every other file. |
| `ProtocolSources.AdoptTouchesOnlyFindings` | src/main.rs:3164-3226 | When `adopt` is about to overwrite a file, its work names that file, and every line without a finding has the same text afterwards, if the rewriting is not interrupted. |
| `ProtocolEmptied.EmptiedIsTraced` | src/main.rs:3222-3226 | A source with lines that is found empty was emptied by an adoption with a finding in it; at that moment the vault on disk held the value of every line to be replaced, and the other lines are the lost ones. |
| `ProtocolEmptied.LostForGood` | src/main.rs:3164-3226 | A source that is empty and that nobody is writing is never written again. |
| `ProtocolEmptied.AdoptionCanEmpty` | src/main.rs:3222-3226 | For every plan and every file in it there is a crash that leaves this file empty, the ones before it rewritten and the ones after it untouched. |
| `ProtocolEmptied.EmptiedIff` | src/main.rs:3222-3226 | For any set of commands: some run leaves the source empty with the lock free if and only if one of them adopts a line of it. |
| `LineEndings.RewritingKeepsTextIff` | src/main.rs:3171-3217 | Splitting a text into lines and writing them gives the same text if and only if it ends in a newline and no line ends in a return and a newline. |
| `LineEndings.WrittenReadsBackIff` | src/main.rs:3171-3217 | Written lines read back as the same lines if and only if there are some, none contains a newline and none ends in a return. |
| `LineEndings.TrimmedLines` | src/main.rs:1314-1327 | For a file without returns, the text an import stores is the trimmed text of the whole file. |
| `ProtocolTheorems.VaultAlwaysOpens` | src/store.rs:278-383 | In every reachable state both wraps of the file open the same data key, which opens the body. |
| `ProtocolTheorems.ChangePassphraseRewrapsOnly` | src/store.rs:688-704 | The body and the recovery phrase's access stay; exactly the new passphrase opens the file. |
| `ProtocolTheorems.NewRecoveryKeyReplacesOldOne` | src/store.rs:666-686 | The new phrase opens the vault, every other one is void, and the passphrase is not affected. |
| `ProtocolTheorems.CachedOpenAgrees` | src/store.rs:742-773 | When a key that a process put in the agent opens the vault, the passphrase it came from opens the same data key and entries. |
| `ProtocolTheorems.RekeyingMakesKeysStale` | src/store.rs:722-725 | Committing a new passphrase makes every wrap key derived so far stale. |
| `ProtocolTheorems.StaleStaysStale` | src/store.rs:722-725 | It stays stale in every later state until a snapshot is restored. |
| `ProtocolTheorems.StaleKeyFallsBack` | src/main.rs:882-896 | With a stale key, opening goes on to the passphrase. |
| `ProtocolTheorems.FoundedOnce` | src/store.rs:247-305 | Among any number of first openers at most one creates or migrates the vault, first of all writes, and everyone who opened it holds that data key. |
| `ProtocolTheorems.ExistingVaultIsKept` | src/store.rs:264-272 | A vault that exists is never founded again. |
| `ProtocolMigration.TornByMigration` | src/store.rs:1052-1085 | The vault file is torn only if it was a version 1 file that some passphrase opens. |
| `ProtocolMigration.MigrationCanTear` | src/store.rs:1052-1085 | For every such file and passphrase there is a run that leaves it torn with the lock free. |
| `ProtocolMigration.LeftTornIff` | src/store.rs:1052-1085 | Some run leaves a torn file with the lock free if and only if the vault was such a file. |
| `ProtocolMigration.TornUntilRestored` | src/store.rs:1052-1085 | A torn file that nobody is writing stays torn until a snapshot is restored. |
| `ProtocolProgress.ImportCompletes` | src/main.rs:1314-1350 | An import that nobody disturbs comes to its end if and only if the file is there, its trimmed text is not empty and the tier is one of 1 to 4; then the text is under the key, the source is destroyed and nothing else has changed. Otherwise nothing has. |
| `ProtocolProgress.AdoptCompletes` | src/main.rs:3113-3235 | An adoption of any work that nobody disturbs comes to its end with the planned entries on disk; the sources are the planned rewrites if and only if no key gets two values. |
| `ProtocolCommands.SetCompletes` | src/main.rs:1206-1312 | A `set` that nobody disturbs leaves the vault its method computes, and comes to its end if and only if no tier is refused and no key is given two values. |
| `ProtocolChanges.MutateCompletes` | src/main.rs:1685-1760 | A command that opens, locks, checks, changes and saves, undisturbed: it comes to its end if and only if what it needs is there and no change is refused, and then the vault on disk is the changes applied in order; otherwise the file is as it was. The snapshot is taken after the checks. |
| `ProtocolChanges.DeleteCompletes` | src/main.rs:1685-1711 | `delete` removes an existing key, after a snapshot if wanted, and nothing else; for a missing key nothing is written. |
| `ProtocolChanges.RenameCompletes` | src/main.rs:1713-1725 | `rename` moves the entry whole if it exists and the new name is free; otherwise nothing is written. |
| `ProtocolChanges.RetierCompletes` | src/main.rs:1727-1758 | `retier` sets a tier from 1 to 4 and the time of change and keeps value, policy and other times; a key of the sign-only tier never leaves it. |
| `ProtocolChanges.ChangePassphraseCompletes` | src/main.rs:1876-1916 | Afterwards exactly the new passphrase opens the vault, to the same entries under the same data key, and the recovery phrase as before. |
| `ProtocolChanges.NewRecoveryKeyCompletes` | src/main.rs:1853-1874 | Afterwards exactly the phrase that was drawn opens the vault, and the passphrase as before. |
| `ProtocolChanges.RecoverCompletes` | src/main.rs:1817-1846 | With the right phrase `recover` replaces it by the one that was drawn; otherwise nothing is written. |
| `ProtocolChanges.ResetPassphraseCompletes` | src/main.rs:1876-1916 | With the right phrase the new passphrase and no other opens the vault; otherwise nothing is written. |
| `ProtocolChanges.InitCompletes` | src/main.rs:1076-1118 | Where there is no vault `init` leaves an empty one, which exactly the chosen passphrase and the drawn phrase open. |
| `ProtocolChanges.RestoreCompletes` | src/main.rs:3878-3913 | A snapshot that opens replaces the file, after the old one was kept, and the agent is told to drop its keys; one that does not open changes nothing. |
| `ProtocolChanges.CachedKeyOpens` | src/main.rs:882-921 | After a command told the agent, the agent has a key that opens the vault, and the next command opens it without the passphrase. |
| `PrivateWrite.CrashOutcomes` | src/hsm/platform.rs:66-75 | What a crash can leave under a name, exactly: the durable entry or the effect of one pending change, with any bytes if they were not synced. |
| `PrivateWrite.TempNamesOfProcesses` | src/hsm/platform.rs:78-83 | Two processes share a temporary name for one destination if and only if they are the same process. |
| `PrivateWrite.TempIsNotDest` | src/hsm/platform.rs:78-83 | The temporary name is never the destination. |
| `PrivateWrite.FileSystem.WritePrivate` | src/hsm/platform.rs:75-134 | The calls, with every early exit, take the volume through exactly the states the lemmas below speak about. |
| `PrivateWrite.FileSystem.FillTemp` | src/hsm/platform.rs:84-107 | The same up to the synced temporary file. |
| `PrivateWriteSafety.CrashLeavesOldOrNew` | src/hsm/platform.rs:57-134 | Power loss at any instant leaves what it could have left before, or exactly the new bytes. |
| `PrivateWriteSafety.NeverTorn` | src/hsm/platform.rs:57-134 | With a safe old file: exactly the old bytes or exactly the new ones, in every state and after every crash. |
| `PrivateWriteSafety.NeverReadableByOthers` | src/hsm/platform.rs:57-96 | No file the call creates is readable by others, in any state and after any crash. |
| `PrivateWriteSafety.CallResult` | src/hsm/platform.rs:84-134 | When the call returns Ok, and what a reader sees afterwards on success and on each failure; a leftover temporary file does not stand in the way. |
| `PrivateWriteSafety.LeavesOthers` | src/hsm/platform.rs:84-134 | No other name of the directory changes, and no temporary file is left on success. |
| `PrivateWriteSafety.TempIsLeftIff` | src/hsm/platform.rs:84-127 | When a temporary file is left: never after Ok; after a failure at or before its creation if and only if an old one could not be removed; after a later failure if and only if it could not be removed again. |
| `PrivateWriteSafety.UnsyncedMayTear` | src/hsm/platform.rs:97-102 | Without the sync before the rename a crash could leave anything at all under the destination. |
| `PrivateWriteSafety.OutcomesAfterOk` | src/hsm/platform.rs:129-133 | Exactly what power loss can do after Ok. |
| `PrivateWriteSafety.OkIsDurableIff` | src/hsm/platform.rs:129-133 | After Ok the new bytes survive every crash if and only if the path has a directory part that opens, or no crash could have given anything else before. |
| `PrivateWriteSafety.FaultlessIsDurableIff` | src/hsm/platform.rs:78-133 | When nothing fails the call returns Ok, and it is durable if and only if the path has a directory part, or no crash could have given anything else before. |
| `PrivateWriteSafety.BareNameMayRollBack` | src/hsm/platform.rs:78-133 | With a bare file name and no fault the call returns Ok, and a crash can still bring back whatever was there. |
| `PrivateWriteSafety.OnlyCompleteFiles` | src/hsm/platform.rs:57-134 | Over any number of calls, faults and crashes the destination holds what was there first or the complete bytes of one call. |
| `PrivateWriteSafety.NeverRollsBack` | src/hsm/platform.rs:129-133 | After an Ok with the directory synced nothing older ever comes back. |
| `ScanClaims.ClaimLine` | src/scan.rs:608-653 | The loop over the byte map reports what the list of claimed spans reports; it sets at most as many bytes as the line has, and looks at no more than that for each rule. |
| `ScanClaims.ClaimMatches` | src/scan.rs:614-652 | The same for one rule. |
| `ScanClaims.AnyTaken` | src/scan.rs:617-622 | The test finds a claimed byte if and only if there is one in the span. |
| `ScanClaims.TestAgrees` | src/scan.rs:602-622 | For a candidate with bytes, the map has a claimed byte if and only if the list has an overlapping span. |
| `ScanClaims.ReportedSpansAreDisjoint` | src/scan.rs:595-601 | Reported spans are pairwise disjoint. |
| `ScanClaims.NothingLostSilently` | src/scan.rs:595-653 | A candidate is reported, or a filter rejects it (a rule for other files, no bytes, a placeholder, too little entropy, no digit), or it shares a byte with a finding of an earlier rule or its own. |
| `ScanClaims.FindingsAreReal` | src/scan.rs:623-652 | Every finding is a match of the rule it names that passed that rule's filters. |
| `ScanClaims.HasLongRepeatRun` | src/scan.rs:302-317 | True if and only if that many equal characters stand in a row. |
| `ScanWalk.CollectFiles` | src/scan.rs:423-472 | The stack walk ends and returns exactly the eligible files under no skipped directory, each once when names are distinct. |
| `ScanWalk.ListDirectory` | src/scan.rs:431-468 | One directory's entries are turned into files and pending directories without loss. |
| `ScanWalk.EligibleIff` | src/scan.rs:367-420 | A file is read if and only if it is not larger than 1 MiB, can be opened, has no NUL byte at its start, and is neither a lock file nor the list of allowed findings. |
| `ScanWalk.EntersIff` | src/scan.rs:356-403 | A directory is entered if and only if it is no build output or package directory, and no dot-directory but the four for continuous integration. |
| `ScanWalk.ListedIff` | src/scan.rs:420-472 | The recursive definition lists a path if and only if following it passes only directories to enter and ends at a file to read. |
| `ScanWalk.FilesOnce` | src/scan.rs:423-472 | No file is listed twice. |
| `Agent.ClientLinesAreUnderstood` | src/agent.rs:118-145 | The lines clients write are read as they mean them. |
| `Agent.OtherVerbsAreUnknown` | src/agent.rs:346 | Every other verb is unknown. |
| `Agent.Cache.Reap` | src/agent.rs:105-108 | Keeps exactly the keys that expire later than now. |
| `Agent.Cache.Handle` | src/agent.rs:290-349 | Every reply is the one the whole history calls for, although expired keys are forgotten lazily; a bad request changes nothing. |
| `Agent.GetIff` | src/agent.rs:299-328 | GET gives a key if and only if it was the last one of 32 bytes put under that id, no DROP or STOP came since, and less than the configured time has passed since it was put. |
| `Agent.PutIff` | src/agent.rs:308-328 | PUT is accepted if and only if it puts 32 bytes under an id. |
| `Agent.StatusCounts` | src/agent.rs:335-339 | STATUS counts exactly the ids GET would find. |
| `Agent.KeptIff` | src/agent.rs:104-109 | The cache holds a key if and only if it was stored last under its id, nothing cleared it since, and no reaping request since found it expired. |
| `Agent.UnnoticedIff` | src/agent.rs:299-339 | In terms of the lines alone: the newest put under its id, and no GET, STATUS or accepted PUT came since when the configured time had passed. |
| `Agent.DropCounts` | src/agent.rs:329-334 | DROP answers the number of ids with such a key. |
| `Agent.DropCountsLiveIff` | src/agent.rs:329-334 | That is the number of ids GET would find if and only if none of these keys has passed the configured time. |
| `Agent.DropCountsExpired` | src/agent.rs:329-334 | A history after which DROP counts one key and none is live. |
| `Agent.LiveIff` | src/agent.rs:104-109 | The reference map is exactly the keys stored last and not expired. |
| `Agent.LiveIsYoung` | src/agent.rs:104-109 | That is the newest key under an id, put less than the configured time ago. |
| `SealedBlob.SerialiseBlob` | src/hsm/tpm2.rs:154-169 | Extending the vector piece by piece gives the frame. |
| `SealedBlob.DeserialisesIff` | src/hsm/tpm2.rs:172-194 | Reading gives a pair if and only if the data starts with the frame of that pair and its lengths fit 32 bits. |
| `SealedBlob.RoundTripIff` | src/hsm/tpm2.rs:154-194 | The round trip holds if and only if both lengths fit 32 bits. |
| `SealedBlob.ErrorsMean` | src/hsm/tpm2.rs:181-192 | Which data gives which error. |
| `SealedBlob.LooksLikeIff` | src/hsm/mod.rs:101-111 | The recogniser accepts exactly the frames of two non-empty strings. |
| `SealedBlob.FramesAreUnique` | src/hsm/mod.rs:93-111 | A blob is the frame of at most one pair. |
| `SealedBlob.RecognisedIsReadable` | src/hsm/mod.rs:101-111 | What is recognised is read back whole. |
| `SealedBlob.TextIsRejected` | src/hsm/mod.rs:97-100 | A blob shorter than 2^29 bytes whose fourth byte is at least 0x20 is never recognised. |
| `ShellQuote.QuotingIsUndone` | src/main.rs:1811-1815 | The quoted form of any string reads back as one word equal to it. |
| `ShellQuote.ExportAssignsIff` | src/main.rs:1800-1815 | The printed line assigns exactly the stored value to the given name, and ends where it was meant to end, if and only if every character of the name means itself to the shell and none is an equals sign. |
| `ShellQuote.BlankEndsTheName` | src/main.rs:1800-1815 | With a blank in the name the shell reads a word that ends before the value, and assigns nothing to the name. |
| `ShellQuote.QuotingIsInjective` | src/main.rs:1811-1815 | Different values are quoted differently. |

## Left out

- VaultStores.VaultDir.Acquire: a lock that another process gives back within the wait of 60 seconds is not obtained here; the source polls for it.
- VaultStores.VaultStore.CreateNew: an error of writing the new file is not modelled here; `PrivateWrite` has every fault of the write.
- VaultStores.VaultStore.Save: an error of writing the file is not modelled here; `PrivateWrite` has every fault of the write.
- VaultStores.VaultStore.Migrate: the truncation and the write are one step here; `Protocol` has them apart, with a crash between.
- Commands.CmdImport: a secure delete that fails or stops half-way is not modelled.
- Commands.CmdAdopt: an error of writing a source part-way through the rewrites is not modelled here; in `Protocol` it is a crash between two rewrites or inside one.
- Commands.CmdRestore: version 1 snapshots are not modelled; opening one would migrate the snapshot file.
- ProtocolLoss.ImportSafeIff: the adoptions in the set are commands of users who know the passphrase, on work in which no place is named twice.
- ProtocolEmptied.EmptiedIff: the same.
- Real cryptography (AES-GCM, Argon2id, HKDF, BIP39, BLAKE3, X25519, RSA): symbolic here; the phrase of 24 words is one random number, kept apart from passphrases.
- The Aho-Corasick automaton and the regex engine: their documented results are modelled (leftmost-longest matches; an ordered list of candidate spans for each rule).
- TPM commands, the OS keyring, systemd-creds, Windows paths and ACLs, sockets, peer checks, terminals: outside the model. Auto-unseal is an opening with a passphrase.
- JSON, base64 and UTF-8 decoding: a file either parses or is torn, and the agent's decoder is a parameter.
- `migrate` as a command: it runs the migration without taking the lock. Only the migration inside opening is an actor.
- The backup that a migration writes is one step: a crash that tears the backup itself is not modelled. The version 1 to 2 rewrite is a truncation and a write.
- Snapshots: `restore` takes the ones this program wrote, in the current format. Opening a version 1 snapshot would migrate the snapshot file.
- A save whose directory sync fails reports an error although the file is replaced: in the interleaving model this is a process that stops right after its write.
- Lock timeouts in the interleaving model: a process that waits simply does not move. The classes do model the timeout.
- The lock is released in the same step as the write before it when a save took it only for itself.
- Destroying a source is one step; overwriting it with zeros first is not modelled.
- Source files are sequences of lines: a statement about lines is about their text, not about their endings, and `LineEndings` says what becomes of those. Only the modelled commands change sources; editors are not actors.
- A rewriting that is cut off part-way leaves an empty file; a beginning of the new text is not modelled.
- `import-env`: pairs that already exist are skipped although the file is deleted, so it promises less than `import`.
- `init` on a machine, share bundles, export files, rotation listings, signing, GitHub requests: each is settled by one branch or one comparison.
- Shannon entropy, placeholder words and rule patterns: a candidate carries the outcome of each filter's measurement.
- The agent's trimming of a line and the text of its replies; a reply that cannot be written is an event like any other.
- Several processes changing the volume at once, and symbolic links; a full disk is a failing write.
- Expansions of the shell: the reader knows plain characters, backslashes and single quotes, and gives up on anything that would start an expansion.
