# A model of agy-swap's state keeping

agy-swap keeps Google accounts in `accounts.json`, settings in `config.json`, tokens in a
vault, and the live session in three token files and the credential store of the operating
system. Several processes change these at once, and any of them can die at any moment. This
project models the code that copes with that, and proves what it keeps.

`dafny verify dfyconfig.toml` checks everything.

How the parts are modelled:

- **Durable state.** `Durable.Machine` holds the durable cells and records, as `trail`, every
  image its writes leave. A crash may come after any write, so the crash states of a command
  are the images of its trail. A method that promises something of every new image promises it
  for every crash point. `log` records what a command ran into: every write, removal, vault
  write and vault deletion with what it reported, and every failed read. So a contract can say
  which failure excuses what, and that with `AllWorked`, nothing failing, a command does what it
  is for.
- **Import** (`RestoreProtocol`, `Import`, `Merge`). `RestoreProtocol` is the undo-log protocol as
  a relation between images, with its theorems over all runs; the methods of `Import` follow the
  code statement by statement and their trails are runs of it.
- **Store** (`Store`, `StoreProtocol`). The optimistic save, then any number of processes loading,
  editing, saving, importing, crashing and recovering.
- **Secrets** (`Secrets`, `HybridVault`). Moving tokens into the vault, and the two-store vault
  as a refinement of one map.
- **Session** (`Harvest`, `Session`, `Reconcile`). Harvesting refreshed tokens, switching as a
  transaction over two resources, and reconciliation.
- **Quota refresh** (`QuotaPool`, `QuotaMerge`, `TuiRefresh`). The worker pool as a transition
  system, the collector, and the dashboard's revision protocol together with the store's
  conflict check, dying imports and their recovery.
- **Selection and arithmetic** (`Rotation`, `Version`, `RowWidth`, `Scroll`, `Schedule`).

Loops and objects that the code updates in place are methods and classes with the same fields;
each is proved equal to a specification function or relation, and the theorems are about those.

What turned out not to hold, with the condition under which it does:

- A commit write that lands but reports an error is rolled back with a committed journal on disk.
  Cut off, that rollback can leave files of two imports, or accounts without their tokens
  (`RestoreProtocol.LateCommitIsAtomicIff`, `Import.LateCommitLosesToken`).
- A save looks for an import journal before it waits for the lock, so it can be undone by the
  recovery of an import that died in between (`StoreProtocol.AnUntimelySaveIsUndone`,
  `StoreProtocol.SaveLastsIff`).
- Without a date on either side the conflict check passes whatever the contents: a file dated at
  the epoch, or a copy loaded while its date could not be read and a file missing by now
  (`Store.SaveReplacesWhatWasLoaded`, `StoreProtocol.AnUndatedSaveSlipsThrough`).
- A migration and a quota refresh write the vault before the conflict check of their save, so one
  that is out of date can bring old tokens back (`Secrets.StaleWritesAreHarmlessIff`,
  `Secrets.StaleMigrationLosesToken`, `QuotaMerge.StaleRefreshLosesToken`).
- A refresh in flight that had loaded an account writes its token to the vault even if the account
  has been removed since (`TuiRefresh.SecretStaysGoneIff`, `TuiRefresh.RemovedSecretReturns`).
- A removal can be saved past a dead import; the recovery brings the account back without its
  secret (`TuiRefresh.SavedChangeStaysIff`, `TuiRefresh.RemovalPastDeadImport`).
- A switch that cannot read the credential store takes it for empty: it then reports success with
  the old session still there, or deletes that session when it fails; and an unreported write into
  an empty store that cannot be read back stays after the switch has failed
  (`Session.SwitchIsTransactionIff`, `Session.UnreadSessionStays`,
  `Session.UnreadSessionIsDeleted`, `Session.UnnoticedWriteStays`).
- The reconciler overwrites a session of no saved account on a surface it could not read
  (`Reconcile.UnsavedIff`, `Reconcile.UnreadSessionIsOverwritten`).
- A staged plaintext token wins over a reference the merged account also has
  (`Import.StagingPrefersPlaintext`; exactly when, in `Import.ImportedAccountsResolve`).
- A delete in the two-store vault can report success and leave, or bring back, a token
  (`HybridVault.DeleteRemovesIff`, `HybridVault.ReplacedTokenComesBack`,
  `HybridVault.LatePromotion`).
- The reconciler can write again after a run that wrote (`Reconcile.NextRunWritesIff`,
  `Reconcile.SavedRunIsFixpointIff`, `Reconcile.SecondRunWrites`).
- The quota collector copies four of the five token fields back
  (`QuotaMerge.RefreshHashFollowsIff`, `QuotaMerge.RefreshHashStaysBehind`), and never forgets a
  replaced vault entry, since a fetch drops the reference first (`QuotaMerge.CollectResults`).
- A switch reloads the dashboard without invalidating a refresh in flight
  (`TuiRefresh.ReloadIsRepaintedIff`, `TuiRefresh.ReloadIsRepainted`).
- Used-up accounts are due at the earliest reset of any pool, not, as the comment at
  `internal/app/quota_schedule.go:35` says, when the shared pools reset
  (`Schedule.WaitsItOutIff`, `Schedule.ReadTooEarly`).
- An escape sequence left dangling in a row can be completed by what is drawn over it
  (`RowWidth.DanglingEscapeBreaksOverlay`); rows without one keep their width
  (`RowWidth.OverlayKeepsRow`), and truncation and padding are exact on any row.

## Model

| member | source | states |
|---|---|---|
| `Durable.Machine.AtomicWrite` | internal/store/atomic.go:25-66 | the file is replaced whole or stays as it was; an error after the rename (POSIX chmod) is the one failure that leaves the new data; the write and its report are logged |
| `Durable.Machine.Remove` | internal/store/atomic.go:101-105 | the file is gone exactly when success is reported; a missing file is no failure |
| `Durable.Machine.SetSecret` | internal/app/vault.go:133-152 | one vault entry is replaced or nothing changes, whatever the result says on failure |
| `Durable.Machine.DropSecret` | internal/app/vault.go:203-210 | only the named entry may change, and without an older copy in the fallback it is gone if both stores carried the deletion out |
| `Model.Put` | internal/app/model.go:36-41 | an existing account keeps its place, a new one goes last, no key is lost |
| `Model.Without` | internal/app/model.go:48-53 | exactly the one address leaves the order |
| `Model.Dropped` | internal/app/model.go:43-54 | the account is gone and the document stays well formed |
| `Store.Accounts.Set` | internal/app/model.go:36-41 | the ordered map becomes `Put` of the old one |
| `Store.Accounts.Delete` | internal/app/model.go:43-54 | the ordered map becomes `Dropped` of the old one |
| `Store.WithoutAt` | internal/app/model.go:48-53 | cutting at the first occurrence is dropping the address |
| `Store.SaveReplacesWhatWasLoaded` | internal/app/store.go:112-122 | for any loaded revision, exactly when the conflict check passes: both revisions 0, or equal ones and the content that was loaded |
| `Store.SaveUnlocked` | internal/app/store.go:98-137 | saved: the file is the payload, the backup the former file, revision and hash follow, and every token claims no address or its account's; conflict: nothing changed; at every write the images are nothing, backup, or all; it fails only for unacceptable accounts, the conflict check, or something that failed |
| `Store.CheckRevision` | internal/app/store.go:104-122 | lets the save through only if the conflict check holds, calls it a conflict only if it does not, and returns the file to keep as the backup; any other end needs a failed read |
| `Store.ReadAccountsUnlocked` | internal/app/store.go:24-41 | what the file decodes to, with its hash and its revision; nothing, or no revision, only if a read failed or the file does not decode |
| `Store.ReadSettingsUnlocked` | internal/app/settings.go:225-241 | what config.json decodes to, defaults when it is missing, with its hash |
| `Store.SaveSettingsUnlocked` | internal/app/settings.go:255-269 | refused for loaded settings whose file changed; otherwise the file is the settings with a new time, unless something failed |
| `Store.UpdateSettings` | internal/app/settings.go:271-291 | success means exactly the edit of what the file held is in the file; an edit that fails writes nothing; nothing else but a failure keeps it from success |
| `RestoreProtocol.StepKeepsRecovered` | internal/app/backup_service.go:120-286 | no single write but the commit changes what a completed recovery would leave |
| `RestoreProtocol.EpisodeSoFar` | internal/app/backup_service.go:185-188 | until an import's journal is gone it records the files the import began with |
| `RestoreProtocol.JournalStarts` | internal/app/backup_service.go:181-188 | the journal is written with the three files as they are |
| `RestoreProtocol.JournalStays` | internal/app/backup_service.go:278-281 | a later write keeps what the journal recorded; only the commit flag may change, once |
| `RestoreProtocol.CommitIsFinal` | internal/app/backup_service.go:278-285 | after a durable commit neither files nor vault change until the journal is gone |
| `RestoreProtocol.RestoreIsAtomic` | internal/app/backup_service.go:120-286 | over every run of imports, rollbacks and recoveries cut off anywhere any number of times: the triple ends as before without a durable commit and as committed with one, and every recovery on the way is bound for the same end |
| `RestoreProtocol.SecretsSurvive` | internal/app/backup_service.go:189-232 | at every point of such a run each account of the starting accounts.json and backup resolves to the token it had |
| `RestoreProtocol.ProtectedResolves` | internal/app/backup_service.go:189-201 | staging and dropping fresh references leaves journalled accounts their tokens |
| `RestoreProtocol.ResolveReadsNamed` | internal/app/vault.go:288-309 | an account's token depends only on its own reference and the deterministic one |
| `RestoreProtocol.CrashesMakeRuns` | internal/app/backup_service.go:101-136 | commands cut off at any write and started on what was left compose to one run |
| `RestoreProtocol.LateCommitIsAtomicIff` | internal/app/backup_service.go:278-281 | when the commit write lands but reports an error, every image the rollback can leave has files and tokens together all old or all new exactly when at most one file changed and every staged token is also under the account's own reference |
| `RestoreProtocol.HalfUndoneIsWhole` | internal/app/backup_service.go:190-201 | under that condition every half undone image is whole |
| `RestoreProtocol.OneFileBack` | internal/app/backup_service.go:194-196 | with two changed files, an image with one of them back is neither |
| `RestoreProtocol.OneEntryGone` | internal/app/backup_service.go:191-193 | without a double, dropping a staged entry loses an account its token while all files are as committed |
| `RestoreProtocol.KeptAccountResolves` | internal/app/backup_service.go:189-193 | dropping staged entries leaves the accounts before the import their tokens |
| `Import.StripBackup` | internal/app/backup_service.go:53-65 | every reference is dropped and nothing else; refused exactly when some token is plaintext, shapeless or has no access token |
| `Import.ReadBackup` | internal/app/backup_service.go:23-82 | the accounts of the document without references and its settings; exactly which documents are refused |
| `Import.SnapshotFiles` | internal/store/atomic.go:81-95 | the content of each file, none for a missing one |
| `Import.RestoreFile` | internal/store/atomic.go:100-110 | one file written back or removed; a failure leaves it or has restored it |
| `Import.RestoreFiles` | internal/store/atomic.go:98-112 | in any order, past failures, one file at a time: each is as before or restored at every write, and restored at the end unless its own write failed; success unless one did |
| `Import.RestoreSnapshot` | internal/app/backup_service.go:96-98 | the three files of the journal, each write a step of the protocol under the journal |
| `Import.UndoImport` | internal/app/backup_service.go:132-134 | every image on the way still recovers to the journalled files; vault and session untouched |
| `Import.ClearJournal` | internal/app/backup_service.go:135-135 | removing a journal no longer needed changes nothing a recovery would restore |
| `Import.RecoverFrom` | internal/app/backup_service.go:132-135 | recovery itself may stop anywhere: every image recovers to the same files; when done the journal is gone and the files are those |
| `Import.RecoverRestoreUnlocked` | internal/app/backup_service.go:120-136 | the same for whatever is on disk, nothing written when there is no journal, an unreadable journal kept; it fails only on such a journal or where something failed |
| `Import.StageToken` | internal/app/backup_service.go:221-224 | one vault write under a fresh reference is a step of the protocol |
| `Import.StageAccount` | internal/app/backup_service.go:203-228 | the account moves to its fresh reference exactly when the vault took the token; staged entries hold their tokens |
| `Import.StageSecrets` | internal/app/backup_service.go:202-229 | each account with a token is staged unless the vault write under its fresh reference reported a failure; all staged entries hold the tokens of their accounts, no other vault entry changed, the accounts are those with staged tokens moved; it ends early only if cancelled or without a suffix |
| `Import.StagedNext` | internal/app/backup_service.go:202-229 | one turn of that loop, seen in the log |
| `Import.DropStaged` | internal/app/backup_service.go:191-193 | at every write only staged entries are gone, under an uncommitted journal as steps of the protocol; at the end each is gone unless its own deletion was not carried out |
| `Import.Rollback` | internal/app/backup_service.go:190-201 | staged entries, then the files, then the journal; with the journal uncommitted every image recovers to the files before, and in any case every image is half undone; each staged entry is gone unless its own deletion was not carried out, and only a failure keeps it from completing |
| `Import.MergeAccount` | internal/app/backup_service.go:163-173 | one backup account, inheriting the saved credential if it brings none |
| `Import.MergeAccounts` | internal/app/backup_service.go:162-174 | the loop computes the merge of all of them |
| `Import.InheritFromMerged` | internal/app/backup_service.go:165-171 | earlier merges do not change what a later account inherits |
| `Import.Incoming` | internal/app/backup_service.go:161-177 | merged or replaced accounts, with the revision of the file they will replace |
| `Import.ImportSettings` | internal/app/backup_service.go:233-277 | settings replaced or merged with those on disk, one write under the journal |
| `Import.SaveImported` | internal/app/backup_service.go:230-277 | the files after saving are exactly the imported accounts, their backup, and the imported or merged settings |
| `Import.StageAndSave` | internal/app/backup_service.go:189-277 | staging then saving stays under the uncommitted journal, fresh references unprotected |
| `Import.BeginImport` | internal/app/backup_service.go:181-188 | after it the journal holds the files, or every image recovers to them |
| `Import.CommitImport` | internal/app/backup_service.go:278-285 | committed files are final; a commit write that fails and did not land rolls everything back; one that fails and landed is the only exception, and from there every image is half undone |
| `Import.RollBackCommit` | internal/app/backup_service.go:279-281 | the two kinds of failed commit write told apart by what is on disk |
| `Import.FinishImport` | internal/app/backup_service.go:282-285 | after a reported commit the journal goes or stays committed |
| `Import.LateCommitLater` | internal/app/backup_service.go:138-286 | the exception stays one however much of the run came before it |
| `Import.PrepareImport` | internal/app/backup_service.go:157-180 | the accounts to be saved are computed before anything is written |
| `Import.ImportUnderJournal` | internal/app/backup_service.go:189-286 | from the journal on: every image recovers to the files before or, on success, to the imported ones, with that one exception |
| `Import.ImportRecovered` | internal/app/backup_service.go:157-286 | importBackup once no journal is left over, with the end of `Import.ImportBackup` |
| `Import.ImportPrepared` | internal/app/backup_service.go:181-286 | the same from the snapshot on, for accounts that are acceptable |
| `Import.ImportBackup` | internal/app/backup_service.go:138-286 | all or nothing at every write, unless a committed journal is on disk whose write reported an error; success and that case alike committed exactly the imported files, with each token in the vault under its fresh reference unless that vault write reported a failure; after a failure no staged entry is left unless its deletion was not carried out; with nothing failing it succeeds exactly if the files can be read, the accounts are acceptable and a suffix can be drawn for each token |
| `Import.StagedIsVaulted` | internal/app/backup_service.go:202-229 | what the staged accounts and the vault are, account by account |
| `Import.StagedAcceptable` | internal/app/backup_service.go:178-232 | moving tokens out of acceptable accounts leaves them acceptable |
| `Import.StagedResolves` | internal/app/backup_service.go:215-225 | a staged account resolves to its plaintext token, any other as before |
| `Import.SavedAccountResolves` | internal/app/backup_service.go:215-232 | accounts of the old metadata resolve as before the import |
| `Import.ImportedAccountsResolve` | internal/app/backup_service.go:161-229 | after success: a backup token wins; a merged account without one keeps its credential exactly unless its plaintext token replaced a reference to another; replacing all, an account without a token has none |
| `Import.StagingPrefersPlaintext` | internal/app/backup_service.go:166-170 | a merged account with both a reference and a plaintext token ends with the plaintext one |
| `Import.LateCommitLosesToken` | internal/app/backup_service.go:190-201 | a run with one changed file in which a late commit and a cut-off rollback lose an account its token |
| `Merge.MergedAt` | internal/app/backup_service.go:162-174 | what every account is after a merge: the backup's with inherited credential, or unchanged |
| `Merge.MergeKeepsOrder` | internal/app/backup_service.go:162-174 | existing order first, new ones appended in backup order |
| `Merge.MergedWellFormed` | internal/app/backup_service.go:162-174 | the merge is a well-formed document |
| `Merge.NothingIsDropped` | internal/app/backup_service.go:162-174 | every existing and every backup account is there; without a backup token the credential resolves as before |
| `Merge.FillMissing` | internal/app/backup_service.go:241-260 | union of two maps, imported entries winning |
| `Merge.MergeBindings` | internal/app/backup_service.go:261-272 | bindings of paths not imported are appended |
| `Merge.MergeSettings` | internal/app/backup_service.go:234-273 | the method computes the settings merge |
| `Merge.BindingsConserve` | internal/app/backup_service.go:261-272 | per path: the first imported binding, else the first current one; none lost |
| `Merge.SettingsMergeIsUnion` | internal/app/backup_service.go:240-272 | aliases, tags, profiles, targets and bindings are the union with imported entries winning, preferences the imported ones |
| `StoreProtocol.NextKeepsInv` | internal/app/store.go:79-137 | every timely step of any process keeps the invariant |
| `StoreProtocol.RunKeepsInv` | internal/app/store.go:43-137 | the invariant holds after every run of timely steps |
| `StoreProtocol.NoLostUpdate` | internal/app/store.go:43-137 | in every interleaving a save that writes, whatever it reports, replaced exactly what its caller loaded, committed versions form a chain, refused saves change no file, the backup is the current or the preceding version; the same for config.json |
| `StoreProtocol.CheckIsSoundIff` | internal/app/store.go:112-122 | of the copies the conflict check lets through, exactly the undated ones of a missing file are not current |
| `StoreProtocol.AnUndatedSaveSlipsThrough` | internal/app/store.go:33-40 | a run in which a copy loaded without its date passes the check of a missing file |
| `StoreProtocol.SaveStepsAreStages` | internal/app/store.go:112-137 | the protocol's two writes are the images a save may leave, in that order |
| `StoreProtocol.RecoveryIs` | internal/app/backup_service.go:120-136 | a recovery leaves the files it promises and no journal |
| `StoreProtocol.SaveLastsIff` | internal/app/store.go:79-89 | a save past a dead import lasts exactly when nothing is pending or the import would restore just that |
| `StoreProtocol.AnUntimelySaveIsUndone` | internal/app/backup_service.go:101-118 | the journal is looked for before the lock: from every start there is a run in which a reported save is undone |
| `StoreProtocol.SettingsSaveLastsIff` | internal/app/settings.go:243-253 | a settings save lasts exactly when nothing is pending or the import would restore just that |
| `StoreProtocol.AnUntimelySettingsSaveIsUndone` | internal/app/backup_service.go:101-118 | from every start there is a run in which a reported settings save is undone |
| `HybridVault.HybridRefinesOneMap` | internal/app/vault.go:177-210 | for every sequence of operations with failing halves the two stores present what one map would, given deletes whose halves both work |
| `HybridVault.DeleteRemovesIff` | internal/app/vault.go:203-210 | exactly when a delete removes its entry; other entries never change |
| `HybridVault.ReplacedTokenComesBack` | internal/app/vault.go:195-210 | a replaced token reappears after a Set whose fallback delete failed and a half-failed Delete |
| `HybridVault.LatePromotion` | internal/app/vault.go:182-193 | a promotion that comes after another process's Set undoes it unless the tokens agree |
| `HybridVault.FileVault.ReadMap` | internal/app/vault.go:80-99 | missing is empty, corrupt is an error |
| `HybridVault.FileVault.WriteMap` | internal/app/vault.go:101-111 | replaced or unchanged |
| `HybridVault.FileVault.Get` | internal/app/vault.go:113-131 | the entry, none on errors |
| `HybridVault.FileVault.Set` | internal/app/vault.go:133-152 | exactly one entry changes or none; a corrupt file is never replaced |
| `HybridVault.FileVault.Delete` | internal/app/vault.go:154-175 | the entry goes or nothing changes, by one write exactly if there was an entry; success exactly if the file can be parsed and that write worked |
| `HybridVault.HybridAccountVault.Get` | internal/app/vault.go:182-193 | the presented entry; an entry found in the fallback is written to vault.json, and that changes no presented entry |
| `HybridVault.HybridAccountVault.Set` | internal/app/vault.go:195-201 | the state is one `Set` step, made by one write of vault.json whose result is reported; after a success the fallback's deletion is tried |
| `HybridVault.HybridAccountVault.Delete` | internal/app/vault.go:203-210 | both halves are tried: afterwards vault.json holds no such entry unless writing it without the entry failed, and the fallback none unless its own deletion was refused; success exactly if one half reported it |
| `Secrets.SaveAccountSecret` | internal/app/vault.go:319-348 | vault entry and each account field in each outcome, which is that of the one vault write it makes, and the replaced reference to delete later |
| `Secrets.SavedSecretResolves` | internal/app/vault.go:319-348 | in each outcome the account in memory resolves to the new token |
| `Secrets.DeleteReplacedSecrets` | internal/app/vault.go:350-361 | only the given entries can change, at every write, and each is gone unless its own deletion was not carried out |
| `Secrets.SaveThenForget` | internal/app/vault.go:443-450 | every image is a stage of the save or the saved image with some replaced entries gone; a failed save forgets nothing, a successful one all of them but for failed deletions |
| `Secrets.SavedOrForgotResolves` | internal/app/vault.go:443-450 | at each of them every account resolves as before or as the saved accounts say |
| `Secrets.ReplaceSecret` | internal/app/vault.go:315-361 | write secret, save metadata, delete old: at every write each account on disk resolves to its old token, the one account to the new; if memory carried other edits, or the save was let through over another file, to what memory held; a refused save leaves the files alone; in memory the account has the new token in the vault if the vault write worked, else in the file; the replaced entry goes |
| `Secrets.StoreSecret` | internal/app/vault.go:319-348 | the vault image and the accounts in memory agree on the new token, as the result of the one vault write says; the replaced entry is one no account uses any more |
| `Secrets.SaveWritten` | internal/app/vault.go:443-450 | for any vault writes under the accounts' own references followed by the save and the deletions, at every write each account on disk has its old token, the one written for it, or what memory held |
| `Secrets.OwnEntry` | internal/app/vault.go:331-333 | an entry under an account's own reference changes the token of no other account |
| `Secrets.PlanDecides` | internal/app/vault.go:331-333 | vault writes under own references leave an account the token it had or the one written for it |
| `Secrets.PlanImageResolves` | internal/app/vault.go:396-432 | so on disk, for accounts up to date or not, at every point of such writes |
| `Secrets.RestoreUndoesMigration` | internal/app/vault.go:363-381 | restoring captured fields undoes a migration exactly |
| `Secrets.MigrateAccount` | internal/app/vault.go:390-432 | an account that needs it is given one vault write, and moves to its own reference with the same token exactly if that worked; no token resolves differently |
| `Secrets.MoveAccounts` | internal/app/vault.go:389-433 | the loop over all accounts: each that needs it is moved unless its vault write failed; every image differs from the start in entries written for accounts it moves, with the tokens loaded for them |
| `Secrets.RestoreAccounts` | internal/app/vault.go:437-448 | a failed save restores the accounts in memory exactly |
| `Secrets.CommitMigration` | internal/app/vault.go:434-450 | the end of a migration as in `Secrets.MigrateVaultAccounts` |
| `Secrets.MigrateVaultAccounts` | internal/app/vault.go:383-451 | at every write each account on disk resolves to its old token or to the one loaded for it, and to its old one if nobody saved since the load; reporting a change, each account that resolves is under its own reference with its hash and without its former entry, except for what failed; otherwise memory is as it was, and with nothing failing there was nothing to move or no save to be had |
| `Secrets.MigrationSettles` | internal/app/vault.go:396-449 | what becomes of each account in a migration that is saved |
| `Secrets.AllAttempted` | internal/app/vault.go:390-433 | with nothing failing every account that needs it is moved |
| `Secrets.MovedResolve` | internal/app/vault.go:396-431 | moved accounts resolve to the token they had |
| `Secrets.StaleWritesAreHarmlessIff` | internal/app/vault.go:396-404 | for the vault writes of a migration, a refresh or a harvest, with accounts saved by others since the load: every point of them leaves every token exactly when each account written for is plaintext by now, has a live reference elsewhere, or has that token under its own reference |
| `Secrets.StaleMigrationLosesToken` | internal/app/vault.go:396-404 | a stale load whose migration brings an old token back while its save is refused |
| `Harvest.First` | internal/app/session_guard.go:68-100 | the first account in order with a property, if any |
| `Harvest.Only` | internal/app/cli.go:1069-1090 | the account with a property if exactly one has it |
| `Harvest.OwnerByRefresh` | internal/app/session_guard.go:64-104 | a token nothing points elsewhere from belongs to the account that stores its session, and to nobody else; other accounts may be in any state |
| `Harvest.OwnerInTurn` | internal/app/session_guard.go:64-104 | for any token, the recognitions in their order: text or hash, the address its id_token names, the only recorded refresh token, the stored token, the only stored refresh token |
| `Harvest.SightShows` | internal/app/cli.go:1046-1092 | what of an account on disk the recognition goes by |
| `Harvest.FirstIsFirst` | internal/app/session_guard.go:75-84 | the account found is the first with the property |
| `Harvest.OneTokenHarvested` | internal/app/session_guard.go:106-185 | what one token does: to its owner's stored token, to the owners and to the note of an unsaved session |
| `Harvest.FirstOwnerNoted` | internal/app/session_guard.go:164-195 | the first owner noted is that of the first token that has one |
| `Harvest.SessionsAfterAll` | internal/app/session_guard.go:164-185 | harvesting changes neither whose sessions the accounts store nor which tokens can be told apart |
| `Harvest.OwnerAtIs` | internal/app/session_guard.go:164-185 | so a token's owner at its turn is the one it had at the start |
| `Harvest.HarvestKeepsFreshest` | internal/app/session_guard.go:164-185 | per account, if the expiries that matter for it are known: it ends with the freshest of its stored token and its usable copies, whatever the other accounts store |
| `Harvest.UnsavedIsNoticed` | internal/app/session_guard.go:164-191 | exactly when some surface token is a session with no owner at its turn |
| `Harvest.FreshnessIgnoresOrder` | internal/app/session_guard.go:164-185 | neither the expiry kept for an account nor whether something is unsaved depends on the order of the surfaces |
| `Harvest.CopiesSettle` | internal/app/session_guard.go:164-185 | surfaces that hold copies of one token: who harvests it, once |
| `Harvest.ReconcileFixpointIff` | internal/app/session_guard.go:193-223 | with one token on all surfaces, exactly when a run writes them, for any stored token |
| `Session.ReadSurfaces` | internal/app/credentials.go:282-320 | the tokens of exactly the files that could be read, in surface order; the others are those the log names |
| `Session.SeenAreOnDisk` | internal/app/credentials.go:282-320 | whatever could not be read, the tokens read are on disk |
| `Session.ReadToken` | internal/app/credentials.go:307-320 | the token, or none with the failed read logged |
| `Session.ReadOAuthToken` | internal/app/credentials.go:339-357 | the freshest copy of the first surface's session |
| `Session.FirstSessionIn` | internal/app/credentials.go:342-351 | the first session is the first of the tokens that holds one, and there is none only without sessions |
| `Session.IdentitiesKept` | internal/app/credentials.go:386-405 | switching loses no former address and never lists the active one as old |
| `Session.WriteOAuthFiles` | internal/app/credentials.go:359-414 | success: all files hold the session, with the access and refresh token, expiry and address of the one asked for; failure, which takes an unusable token or something that failed: each file as before unless its own roll-back write failed; nothing else changes |
| `Session.WriteSession` | internal/app/credentials.go:375-412 | the writes in order, all of them reported as done but the last if it fails |
| `Session.SetKeyring` | internal/app/credentials.go:277-279 | written, or unchanged with failure |
| `Session.ApplySecure` | internal/app/credentials.go:425-497 | files: all hold the session, or each is put back unless its own roll-back write failed; store and result: as `Session.Switched` decides from what the reads and writes ran into, which can miss a session only where the log shows a failed read |
| `Session.SwitchIsTransactionIff` | internal/app/credentials.go:451-497 | whatever becomes of the writes, success means the store holds the session (or was empty and may stay so) and failure that it is as before, exactly if the first read works or the store was empty, and the re-read works or it was not |
| `Session.UnreadSessionStays` | internal/app/credentials.go:457-485 | a store neither read nor written: success with the old session still there |
| `Session.UnreadSessionIsDeleted` | internal/app/credentials.go:457-496 | an unread old session is deleted when the files cannot be written |
| `Session.UnnoticedWriteStays` | internal/app/credentials.go:462-481 | a write into an empty store that lands, reports failure and cannot be read back stays after the switch has failed |
| `Session.SwitchBoth` | internal/app/credentials.go:465-496 | store first, then files, then the roll-back of both; result and store as decided |
| `Session.AfterFailedSet` | internal/app/credentials.go:467-485 | after a failed write of the store: goes on exactly if it holds the session after all or is empty and may be; otherwise it ends as decided |
| `Session.WriteOrRestore` | internal/app/credentials.go:486-496 | the store is put back exactly when the files could not be written and it had been updated |
| `Session.RestoreKeyring` | internal/app/credentials.go:489-495 | the store holds the previous session unless this very write failed |
| `Session.ApplyFiles` | internal/app/credentials.go:436-450 | the same with the files as the only store and the mirror best effort: written on success unless that very write failed |
| `Session.ClearSecure` | internal/app/credentials.go:523-535 | each session cell is gone unless its own removal failed, and nothing else goes; true exactly when neither the store nor a token file that could be read holds a session afterwards |
| `Session.NoneLeft` | internal/app/credentials.go:530-535 | the two reads behind that answer, and what each could not see |
| `Reconcile.ViewOfPut` | internal/app/session_guard.go:178-179 | what saving a harvested token does to every account's stored token |
| `Reconcile.HarvestToken` | internal/app/session_guard.go:175-184 | surfaces untouched, only that account's token changes; a reported save is on disk, and with a vault only a failure or the conflict check keeps it from being saved; at every write each account on disk has its old token, what memory held, or this one if it is its own |
| `Reconcile.HarvestSurfaces` | internal/app/session_guard.go:164-185 | the loop does to accounts and vault what the harvest of their view says, and reports whether that is on disk; at every write each account on disk has the token it had or one recognised as its own |
| `Reconcile.HarvestedIsOwn` | internal/app/session_guard.go:164-185 | after any number of tokens an account stores what it did or a token it owned at that token's turn |
| `Reconcile.Load` | internal/app/store.go:43-77 | accounts of the recovered file, vault and surfaces unchanged; nothing only if they cannot be read or something failed |
| `Reconcile.Spread` | internal/app/session_guard.go:217-223 | success leaves every surface with the token and the identity file with the account; failure, which takes an unusable token or something that failed, each file as before unless its own roll-back failed; the OS entry is written exactly if it is mirrored, unless that write failed |
| `Reconcile.Align` | internal/app/session_guard.go:193-223 | exactly when there is nothing to aim at, when in sync, and what the surfaces hold after a write that worked or failed; the aim is the account the identity file names, or without one the first owner |
| `Reconcile.HarvestAndAlign` | internal/app/session_guard.go:164-223 | an unowned session ends the run with the surfaces unchanged; otherwise the aim is the harvested token |
| `Reconcile.ReconcileActiveSession` | internal/app/session_guard.go:135-224 | without the session lock, and signed out, it writes nothing; with an unowned session among those read the surfaces stay; otherwise they end equal to the intended account's token after the harvest of what was read, whatever could not be read; with nothing failing the harvest is saved and the surfaces written |
| `Reconcile.UnsavedIff` | internal/app/session_guard.go:164-192 | the surfaces are left alone for an unowned session exactly when one was among those read |
| `Reconcile.UnreadSessionIsOverwritten` | internal/app/session_guard.go:143-149 | a state in which a run that cannot read one surface overwrites nobody's session there, and a run that can read all leaves it |
| `Reconcile.ReconcileTokens` | internal/app/session_guard.go:159-224 | the run from the tokens it read |
| `Reconcile.SyncKeepsFreshest` | internal/app/session_guard.go:164-223 | what a run writes is no older than any usable copy of that account's session it read, nor than what the account stored |
| `Reconcile.NextRunWritesIff` | internal/app/session_guard.go:135-224 | two runs: after one that wrote, whatever became of its saves, the next writes exactly if e stores another token on disk than the one written, and that one is an account's but does not replace it |
| `Reconcile.SavedRunIsFixpointIff` | internal/app/session_guard.go:135-224 | if the first run's harvest is on disk, exactly when the written copy differs in form and is recognised as another account's |
| `Reconcile.SecondRunWrites` | internal/app/session_guard.go:135-224 | two accounts and a run, with its harvest on disk, after which every next run writes again |
| `QuotaPool.StartIsGood` | internal/app/quota.go:664-671 | eight workers, or one for each item if there are fewer |
| `QuotaPool.MoveKeepsPool` | internal/app/quota.go:671-690 | every step of workers, feeder and collector keeps each item in exactly one place |
| `QuotaPool.ResultsFit` | internal/app/quota.go:671-671 | the buffered channel never blocks a worker |
| `QuotaPool.MoveGetsCloser` | internal/app/quota.go:673-693 | every step brings the refresh closer to its end |
| `QuotaPool.SomeMoveIsPossible` | internal/app/quota.go:673-693 | no deadlock before the collector is done |
| `QuotaPool.FinishedSawEverything` | internal/app/quota.go:683-693 | the collector ends having seen every picked item exactly once |
| `QuotaPool.PlayKeepsPool` | internal/app/quota.go:664-693 | the same after every schedule, whose length is bounded |
| `QuotaMerge.MergeResult` | internal/app/quota.go:696-737 | one result merged into its account, field by field: snapshot, eligibility record and token fields by outcome, tier and other notes as they were, and whether that changed anything |
| `QuotaMerge.StoreRefreshed` | internal/app/quota.go:697-709 | the vault gets a refreshed token under the account's own reference, or the failure is reported; the reference it replaces |
| `QuotaMerge.CollectResults` | internal/app/quota.go:691-741 | accounts, vault, errors and flags after the loop are functions of each account's own result; every image differs in planned vault entries alone; no replaced entry is ever listed, since a fetch drops the reference first |
| `QuotaMerge.CollectAndSave` | internal/app/quota.go:691-748 | the loop, one save, then the deletions: each result is applied to its own account and vault entry and to nothing else, field by field; an account has an error exactly when its result is no good read; at every write each account on disk has its old token or its refreshed one, or what memory held; saved, each has its refreshed token or what memory held; only the conflict check or a failure keeps it from being saved |
| `QuotaMerge.AgreeingIsApplied` | internal/app/quota.go:691-741 | the books of the loop, read result by result |
| `QuotaMerge.RefreshRecorded` | internal/app/quota.go:697-716 | after the loop each account in memory resolves to its refreshed token, or as before |
| `QuotaMerge.ArrivalOrderIsForgotten` | internal/app/quota.go:683-693 | whatever the arrival order, an account's result is the one fetched for it |
| `QuotaMerge.RefreshIsScheduleIndependent` | internal/app/quota.go:631-750 | any two finished schedules leave the same accounts, vault, errors, storage failure and change flag |
| `QuotaMerge.RefreshHashFollowsIff` | internal/app/quota.go:710-716 | four of five token fields are copied back: the refresh hash is right exactly when the refresh token did not change |
| `QuotaMerge.RefreshHashStaysBehind` | internal/app/quota.go:710-716 | a fetch with a new refresh token after which the account keeps the old hash |
| `QuotaMerge.StaleRefreshLosesToken` | internal/app/quota.go:697-748 | a refresh that overwrites a newer session another process saved meanwhile, while its own save is refused |
| `TuiRefresh.NextKeepsInv` | internal/app/tui.go:195-236 | a refresh started as the current revision is in flight exactly while refreshing is set, and no revision is from the future |
| `TuiRefresh.StaleSaveIsRefused` | internal/app/store.go:112-122 | accounts loaded before a change that is in effect cannot be saved |
| `TuiRefresh.StepKeepsChange` | internal/app/tui.go:455-518 | no step of the loop, a refresh or another process undoes a saved change but one that loaded it and takes it back |
| `TuiRefresh.SavingPutsInEffect` | internal/app/tui.go:455-518 | saving a change makes every refresh in flight stale |
| `TuiRefresh.SavedChangeStaysIff` | internal/app/tui.go:195-236 | over every run of the loop, refreshes, other processes, dying imports and recoveries: a removed account never returns and a tier set by hand stays, in the file and on the screen, exactly if no journal pending at the save would undo it or remove the file under a holder of undated accounts |
| `TuiRefresh.SecretStaysGoneIff` | internal/app/quota.go:697-709 | after a removal the secret stays gone in every run exactly if no refresh in flight had loaded the account |
| `TuiRefresh.RemovalForgetsIff` | internal/app/tui.go:455-475 | the same, seen before the removal is saved |
| `TuiRefresh.RemovedSecretReturns` | internal/app/quota.go:697-709 | with such a refresh in flight the removal succeeds and the secret can be back |
| `TuiRefresh.RemovalPastDeadImport` | internal/app/tui.go:455-475 | a removal saved past a dead import: the recovery brings the account back without its secret |
| `TuiRefresh.StaleEventIsDropped` | internal/app/tui.go:830-834 | an event from before the last invalidation changes nothing |
| `TuiRefresh.ReloadIsRepaintedIff` | internal/app/tui.go:573-576 | a switch reloads without invalidating: exactly when a refresh in flight paints over it |
| `TuiRefresh.ReloadIsRepainted` | internal/app/tui.go:573-576 | a state in which it does |
| `TuiRefresh.CollectorOnlyEditsQuota` | internal/app/quota.go:710-737 | a refresh neither adds, removes, reorders nor re-tiers accounts |
| `TuiRefresh.Tui.StartRefreshFor` | internal/app/tui.go:195-201 | nothing while one runs; else the next revision, refreshing, and what is shown stays |
| `TuiRefresh.Tui.InvalidateRefresh` | internal/app/tui.go:230-236 | a new revision that no refresh carries |
| `TuiRefresh.Tui.AccountsEvent` | internal/app/tui.go:830-838 | dropped unless its revision is current; a failed load keeps what is shown |
| `TuiRefresh.Tui.PerformDelete` | internal/app/tui.go:455-475 | saved: the account is off disk and screen and every other one as it was; its secret goes only after that, unless its deletion was not carried out, so every other account resolves as before at every write; not saved: screen and vault as before; with nothing failing it is saved if the other accounts are acceptable |
| `TuiRefresh.SaveRemoval` | internal/app/tui.go:462-470 | the part that saves and then forgets |
| `TuiRefresh.Tui.ToggleTier` | internal/app/tui.go:478-518 | Pro, Free, none in turn, only without a snapshot from Google, and nothing else changes; shown exactly when saved; with nothing failing it is saved if the accounts are acceptable |
| `TuiRefresh.RemovedResolves` | internal/app/tui.go:462-470 | during a removal the account resolves as before or not at all, the others as before |
| `Rotation.Limiting` | internal/app/extended.go:993-1004 | the first of the lowest pools of a family |
| `Rotation.AccountRemaining` | internal/app/extended.go:993-1009 | its percentage and id, or unknown |
| `Rotation.ScoresAreOneToN` | internal/app/extended.go:1089-1091 | the rotation scores of n accounts are a bijection onto 1..n |
| `Rotation.ScoreIsDistance` | internal/app/extended.go:1089-1091 | the score counts how soon an account comes up after the active one |
| `Rotation.RankingIsStableSort` | internal/app/extended.go:1098-1111 | the ranking is a permutation, ready first, reserves last, by score, with ties in account order |
| `Rotation.RankAccounts` | internal/app/extended.go:1021-1111 | the items of exactly the admitted accounts: ready exactly if no verification is needed, the snapshot is at most two minutes old, no cooldown runs and every pool of the family holds something and the minimum; limiting pool and score by policy; ready first, then no reserves, then by score |
| `Rotation.ReadyIsFit` | internal/app/extended.go:1056-1056 | readiness in those terms |
| `Rotation.RankingDescribed` | internal/app/extended.go:1021-1111 | the ranking as a sort has just those items in that order |
| `Rotation.NextEligible` | internal/app/cli.go:1193-1203 | the loop finds the choice |
| `Rotation.ChosenFromIsFirst` | internal/app/cli.go:1193-1203 | the choice is the first ready account that is not active, else the first if ready |
| `Rotation.NextMovesAwayIff` | internal/app/cli.go:1190-1203 | something is chosen exactly if an account is ready, and the active one exactly if no other is |
| `Rotation.CmdNext` | internal/app/cli.go:1205-1234 | the account next switches to, a sticky policy advancing like round-robin: it can be used, there is none only if no account can be, and it is the active one only if no other can |
| `Rotation.NextIsFit` | internal/app/cli.go:1193-1234 | the same of the specification |
| `Rotation.NextIsFullest` | internal/app/cli.go:1190-1203 | under a policy that does not rotate, no other usable account has more whole percents left |
| `Rotation.NextExistsIff` | internal/app/cli.go:1225-1234 | next fails exactly when no account is ready |
| `Rotation.NextIsCyclic` | internal/app/cli.go:1225-1230 | under a round-robin or sticky policy next picks the first ready account cyclically after the active one |
| `Rotation.NextStepsThroughRing` | internal/app/cli.go:1225-1230 | from the i-th ready account to the next, wrapping round |
| `Rotation.NextInRing` | internal/app/extended.go:1089-1091 | from the i-th ready place the nearest ready one is the next in the ring, the first after the last |
| `Rotation.RotationIsFair` | internal/app/cli.go:1225-1230 | under such a policy, with a fixed ready set of m and a ready start, m calls return to the start and reach every ready account at exactly one call |
| `Rotation.RingCountsReady` | internal/app/extended.go:1043-1056 | m is the number of ready accounts |
| `Version.MatchIffRendered` | internal/config/version.go:9-33 | the pattern accepts exactly the texts of valid versions and captures their parts |
| `Version.ValidIff` | internal/config/version.go:9-33 | the valid versions: numbers without leading zeros, pre-release and build parts as section 9 and 10 of Semantic Versioning 2.0.0 admit them |
| `Version.CompareIsTextOrder` | internal/config/version.go:77-77 | byte comparison is ASCII order |
| `Version.NumbersCompareAsIntegers` | internal/config/version.go:42-50 | length then lexicographic order of unpadded digits is integer order |
| `Version.IdsCompareAsMeant` | internal/config/version.go:67-78 | one pre-release identifier against another, as section 11.4 of Semantic Versioning 2.0.0 |
| `Version.CompareCore` | internal/config/version.go:51-55 | major, minor, patch |
| `Version.ComparePre` | internal/config/version.go:56-89 | pre-release precedence, a release after its pre-releases |
| `Version.CompareVersions` | internal/config/version.go:21-90 | an error exactly when one text is no version; otherwise the sign of section 11's precedence |
| `Version.ParseIff` | internal/config/version.go:23-23 | exactly the text of a version, with white space around it and at most one leading v, is read as that version |
| `Version.SpaceIff` | internal/config/version.go:23-23 | what counts as white space around a version |
| `Version.PrecedenceIsTotalOrder` | internal/config/version.go:21-90 | antisymmetric in sign, transitive, 0 only between equal releases |
| `Version.SameReleaseIff` | internal/config/version.go:56-58 | equal in precedence exactly when equal apart from build metadata |
| `RowWidth.AnsiPrefixLen` | internal/app/display.go:554-576 | the scan equals the specification function |
| `RowWidth.EscapeLenIff` | internal/app/display.go:554-576 | a prefix is an escape sequence of the grammar (section 5.4 of ECMA-48) exactly when the scan stops there |
| `RowWidth.EscapeIsSelfDelimiting` | internal/app/display.go:554-576 | an escape sequence ends in the same place whatever follows |
| `RowWidth.RuneWidthIff` | internal/app/display.go:578-613 | a nonspacing mark takes no column, a character of the wide ranges two, any other one |
| `RowWidth.VisibleWidth` | internal/app/display.go:591-610 | the sum of the widths of the characters outside escape sequences |
| `RowWidth.WidthOfJoined` | internal/app/display.go:591-610 | widths add up after a row with no dangling escape |
| `RowWidth.TruncateVisible` | internal/app/display.go:614-645 | the loop keeps the longest fitting prefix and adds ellipsis and reset |
| `RowWidth.FirstCut` | internal/app/display.go:636-639 | the first character dropped is one that does not fit |
| `RowWidth.TruncatedWidth` | internal/app/display.go:614-645 | exactly the width asked for, or one less exactly before a two-column character, on any row |
| `RowWidth.PaddedWidth` | internal/app/tui_render.go:1207-1207 | padding adds exactly its spaces, on any row |
| `RowWidth.FitWidth` | internal/app/tui_render.go:1198-1208 | exactly the width, or one less exactly when it cuts before a two-column character |
| `RowWidth.NeverNegative` | internal/app/tui_render.go:1242-1243 | the count of spaces for a cut character is never negative |
| `RowWidth.VisibleSpan` | internal/app/tui_render.go:1227-1249 | the loop computes the span |
| `RowWidth.SpanIsWindow` | internal/app/tui_render.go:1224-1249 | the span draws exactly the columns asked for, a cut wide character as spaces, and leaves no escape dangling |
| `RowWidth.SpanWidth` | internal/app/tui_render.go:1224-1249 | its width is the overlap of the columns with the row, to - from inside it |
| `RowWidth.SpanKeepsEscapes` | internal/app/tui_render.go:1231-1237 | every escape sequence is kept in order |
| `RowWidth.OverlayKeepsRow` | internal/app/tui_render.go:1210-1222 | an overlay keeps the row's width and its columns are base, overlay, base |
| `RowWidth.DrawnOverAt` | internal/app/tui_render.go:1210-1222 | cell by cell: the overlay's inside, the base's outside or a space for a wide character cut in two |
| `RowWidth.DanglingEscapeBreaksOverlay` | internal/app/tui_render.go:1213-1222 | with a dangling escape in the base the width is not kept |
| `Scroll.ThumbFits` | internal/app/tui_scroll.go:89-93 | the thumb is the rounded visible share, at least one row and never the whole track |
| `Scroll.ThumbTracksOffset` | internal/app/tui_scroll.go:89-96 | inside the track, at both ends, monotone in the offset |
| `Scroll.DraggedThumbStays` | internal/app/tui_scroll.go:99-108 | scrollThumb after scrollToThumb(at) is at, for every row of the track |
| `Scroll.NearestAgain` | internal/app/tui_scroll.go:94-106 | rounding to the coarser scale undoes rounding to the finer one |
| `Scroll.FollowedShowsRange` | internal/app/tui_scroll.go:37-55 | the offset is in range; a followed range that fits is in sight, with the least movement; one that does not is shown from its top or to its end; otherwise the view moves no more than it must |
| `Scroll.WheelSticks` | internal/app/tui_scroll.go:40-66 | what the wheel scrolled to survives the next frame with the same account |
| `Scroll.TuiScroll.ScrollTo` | internal/app/tui_scroll.go:37-55 | result and state, stored only on commit, which forgets that the wheel was used exactly if the account changed |
| `Scroll.TuiScroll.ScrollBy` | internal/app/tui_scroll.go:59-67 | false and unchanged when nothing is out of sight, else moved by delta where there is room, and to the end where there is not |
| `Scroll.TuiScroll.ScrollToThumb` | internal/app/tui_scroll.go:99-108 | the offset is in range and puts the thumb where it was dragged, or at the end it was dragged past |
| `Scroll.DraggedPastTheTrack` | internal/app/tui_scroll.go:99-108 | past either end of the track the view scrolls to that end |
| `Scroll.ThumbFillsTrack` | internal/app/tui_scroll.go:89-92 | with nothing out of sight the thumb fills the track |
| `Schedule.WaitDoubles` | internal/app/quota_schedule.go:75-81 | the n-th refusal in a row waits min(20 s * 2^(n-1), 600 s) |
| `Schedule.QuotaBackoff.Fail` | internal/app/quota_schedule.go:75-88 | twenty seconds first, then doubled up to ten minutes; the delay is within a quarter below that, and exact at ten minutes |
| `Schedule.QuotaService.NoteRead` | internal/app/quota.go:102-119 | good clears, refused extends, other failures keep; no other account's back-off changes |
| `Schedule.WaitCountsRefusals` | internal/app/quota.go:102-119 | the wait depends on the refusals since the last good read alone |
| `Schedule.NoteReads` | internal/app/quota.go:102-119 | the service keeps that wait for every history of reads |
| `Schedule.BucketsOf` | internal/app/display.go:203-219 | the buckets looked at are those of the groups |
| `Schedule.QuotaWait` | internal/app/display.go:196-222 | the longest wait of a used-up bucket of a shared pool |
| `Schedule.NextQuotaReset` | internal/app/quota_schedule.go:52-66 | the earliest reset after the snapshot, if any |
| `Schedule.WaitHasReset` | internal/app/quota_schedule.go:34-40 | a used-up pool's reset is one of the resets |
| `Schedule.QuotaDueAt` | internal/app/quota_schedule.go:25-49 | the one due time there is: the latest of what the snapshot asks for, the last failed try plus 20 s or 120 s, and the back-off; the snapshot asks for 20 s or 120 s, or three seconds after the earliest reset if that is sooner or shared pools are used up; at once without a snapshot or failure |
| `Schedule.DueAsks` | internal/app/quota_schedule.go:25-49 | what the snapshot asks for, in nanoseconds |
| `Schedule.DueIsBounded` | internal/app/quota_schedule.go:25-49 | never before the back-off or the retry interval; without them never after a reset plus 3 s, with shared pools used up exactly 3 s after the earliest reset of any pool, and otherwise no later than the interval |
| `Schedule.WaitsItOutIff` | internal/app/quota_schedule.go:25-49 | with shared pools used up, the account is left alone until they are back exactly when no bucket of any pool resets before that, or the retry interval or the back-off holds it |
| `Schedule.ReadTooEarly` | internal/app/quota_schedule.go:34-40 | a shared pool used up for two hours and another pool's reset in one: due before the shared pool is back |

## Left out

Assumptions:

- JSON, base64 and the backup encryption are injective encodings, and hashes are injective; a token is a record of what its JSON holds, trimmed, with `form` for the rest of its text.
- Reads may fail but never return wrong data; every failed read is logged. A file write is atomic; directory syncs are not modelled.
- Locks are held where the code takes them: the methods that need one run alone, and contention is modelled in `StoreProtocol`, which also models the one check made before a lock is taken (`internal/app/backup_service.go:102`). Elsewhere "recover, then lock" is one step.
- In `StoreProtocol` a recovery is one step; that a recovery cut short anywhere may be repeated is proved in `RestoreProtocol` and `Import`.
- Random vault suffixes are fresh: no reference an import may draw is named by the accounts on disk. References of different accounts are disjoint (`OwnRefs`).
- Modification times of written files are not the epoch in `StoreProtocol` and `TuiRefresh`; `Store` has them arbitrary.
- A failed write to the credential store leaves it unchanged or fully written.

Stated weaker than the code:

- Store.SaveUnlocked: the text checks of account validation are reduced to the token's claimed address.
- Store.SaveSettingsUnlocked: settings are saved as given; normalising their text is not modelled.
- Store.UpdateSettings: without the recovery before the lock, and without normalising.
- StoreProtocol.NoLostUpdate: runs in which the commit write of an import lands, is reported as failed and is rolled back under a committed journal are no runs of that model; they are in `Import.ImportUnderJournal` and `RestoreProtocol.LateCommitIsAtomicIff`.
- Reconcile.Align: the second look at the surfaces and the identity file, before they are written, is taken to work.
- Reconcile.ReconcileActiveSession: that every account on disk keeps a token of its own at every write is stated for the harvest (`Reconcile.HarvestSurfaces`), not for the recovery before it.
- Reconcile.HarvestSurfaces: whether a save goes through is the store's word; a save may always fail.
- TuiRefresh.Tui.ToggleTier: the load and the save see one file, without the recovery before the load; what other processes do in between is in the state machine beside it.
- Reconcile.Load: without the log scan and the expiry clean-up that a full load adds.
- TuiRefresh.Tui.PerformDelete: the load and the save see one file, without the recovery before the load; what other processes do in between is in the state machine beside it.
- Session.ApplySecure: the identity file is read without failure; its cell keeps active and former addresses; scope, id_token and expiry of the credentials file are not modelled, nor the onboarding state of IDEs and the keyring bypass marker.
- Rotation.RankAccounts: the library's stable sort is an insertion sort; families a pool counts in are given with the pool.
- RowWidth.VisibleSpan: rows are valid UTF-8, as sequences of runes; whether a rune is a nonspacing mark comes with the rune.
- Schedule.QuotaBackoff.Fail: the jitter is the floor of an exact product rather than of a rounded one.

Not modelled:

- HTTP, OAuth refresh, DNS over HTTPS, TLS, the updater, the demo server: a fetch is an arbitrary result per account.
- Keychain, Credential Manager, secret-tool, sqlite, signals, terminal control: foreign calls.
- Launcher wrapper scripts and binary sidecars: shell text and file modes.
- Which accounts a refresh picks and its progress calls.
- Drawing, colours, layout, key dispatch, forms and the command palette of the dashboard.
- The log scanner: its evidence depends on the clock at the time of the scan.
- Command-line parsing, completion, doctor, metrics, status line, release tool: branches without state.
- `selectNext`: only tests call it.
