# Verified models of the server's update, settings and startup logic

This project models parts of a desktop and server application for coding agents and
proves what those parts are for. It covers:

- **The service launcher** (`LauncherWorld`, `LauncherSteps`, `LauncherInvariant`,
  `LauncherPreservation`, `LauncherOperations`, `LauncherRuns`, `LauncherCauses`,
  `RecordHistory`, `ServiceProtocol`, `ServiceLauncher`). A launcher supervises one child process, records a
  pending update, snapshots a three-file SQLite database, boots a trial version and commits
  it or rolls back. The protocol is a transition system in which every durable operation is
  a step of its own: every copy, first half and second half; every deletion of one entry;
  the creation of the restore marker; every rename. Any operation may throw before or after
  it took effect, children may write, talk and exit at any moment, timers may fire at any
  moment, and the launcher may crash after any step and be started again. One inductive
  invariant over durable disk, fields, queue and the position of the running transition
  carries all theorems about runs. The class `Launcher` is the source's object with its
  fields and private transitions; each method extends a ghost run of that protocol, so the
  theorems are about this code. What its operations meet with is drawn from an
  `Environment` that counts what went wrong, so that the methods can promise success when
  nothing did and a cause for every failure.
- **Update manifests** (`UpdateManifest`, `ManifestText`, `ManifestEvaluation`,
  `ManifestReading`, `ManifestMeaning`, `ManifestRoundTrip`, `ManifestLoops`,
  `ManifestMerge`): the line parser, with what any text means to it, the printer and the
  partial merge.
- **Favicon store** (`FaviconStore`, `FaviconMigration`, `ShadowStorage`): a cache of forty
  entries fed one capture at a time, its persisted form read back, and browser storage that
  may fail, shadowed by memory.
- **Server settings** (`SettingsStrip`, `SecretNames`, `ProviderSecrets`,
  `ServerSettings`): sparse persistence and the split between settings and secrets.
- **Keybindings** (`WhenExpressions`, `WhenGrammar`, `Shortcuts`, `KeybindingsConfig`,
  `Keybindings`): the lexer and parser against a grammar, the printers against them,
  startup backfill, upsert, remove and the cache.
- **Command gate and activation** (`CommandGate`, `ServerStartup`): callers, one worker, the
  readiness signal, the order of startup and parked roots, in every interleaving. The
  methods of `Server` are whole fibres; between any two of their operations the others may
  take any of theirs, and a ghost record of all operations ties the object to the theorems.
  How effects and phases end is an input, so that a fibre may wait only where one of them
  does.
- **ICO encoder** (`IcoEncoder`) and **base64 data URLs** (`Base64DataUrl`).

`Text`, `Outcomes` and `Collections` hold what they share.

## What the code does that one would not expect

Where a property one would state turned out false of the code, the model keeps the code,
lemmas give a failing input and the exact condition.

- Merging manifests looks an extra key up with `merged[key]`, which also finds the members
  of `Object.prototype`. A key such as `constructor` in the second manifest alone is refused
  as a conflict, so merging is not commutative or associative on such keys
  (`ManifestMerge.OrderMatters`, `GroupingMatters`, `Commutes`, `Associates`).
- An upserted keybinding rule that does not load is written and cached without an issue,
  while a fresh load reports one (`KeybindingsConfig.UpsertedUnloadable`, `UpsertAgrees`).
  Removing fails exactly when more than 256 loadable rules remain, because the shorter list
  is still too long to be encoded (`RemoveFromTooMany`,
  `Keybindings.KeybindingsService.RemoveKeybindingRule`).
- If startup fails after the ready signal, commands queued before it still run although
  later callers get the startup error (`CommandGate.LateFailure`).
- A secret that begins with a byte order mark is read back without it
  (`ProviderSecrets.MarkIsLost`, `ReadsBackAsSupplied`).
- A manifest whose url or hash is blank cannot be read back, in addition to the cases of
  wrapping and surrounding white space; nor can one with a size of 10^21 or more, or a
  numeric extra that prints with an exponent, even when it was itself read from a text
  (`ManifestRoundTrip.LargeSizeIsLost`, `ParsedRoundTrip`).
- An error event of a replaced child is not checked for identity and ends the launcher,
  unlike every other event of a replaced child (`LauncherRuns.StaleEvents`). A message that a
  child is prepared, sent by an active child, ends it too.

## Assumptions

- Launcher: renaming a directory or file is atomic; a fresh update identifier is new;
  children die with the launcher; the database lies outside the runtime directory, so
  children write to live files only; a launcher starts only when none runs. A crash is one
  of the process, not of the machine: what an operation has written stays written, and
  `fsync` is a no-op. Whether a runtime is installed may change between any two steps.
- Manifests: sizes and numeric extras are exact decimals or infinite. Strings everywhere are sequences
  of Unicode scalar values.
- Storage: only the wrapper changes the primary storage during a session; a primary write
  or removal that throws may leave anything under that one name.
- Settings: applying a patch may yield any next settings; encoding and decoding settings
  changes no provider environment; secret operations and the file write succeed.
- Keybindings: parsing a key text to a shortcut is a parameter; a rule that is written is
  read back as itself.
- Secret names: instance ids and variable names are those the contract receives, variable
  names being made of ASCII letters, digits and underscores. The restriction is needed: the
  `-` between the parts of a secret name is also a base64url digit (`SecretNames.Collision`).
- Gate: each read or write of the Ref, the Deferred and the queue is atomic; an effect ends
  with an exit of its own, never with the startup error; with an activation effect every
  `forkParked` called outside startup is called, and has returned, before startup asks for
  the trial, which is what `awaitAuxiliaryParked` waits for.

## Model

| member | source | states |
|---|---|---|
| `Text.TextOrder` | apps/server/src/cloud/serviceProtocol.ts:140 | the order of strings by code unit is total, with ties only between equal strings |
| `Text.CompareTextMeans` | apps/server/src/cloud/serviceProtocol.ts:140 | the order of strings is decided at the first difference by the smaller code unit, a proper prefix coming first |
| `ServiceProtocol.CompareOrder` | apps/server/src/cloud/serviceProtocol.ts:107-143 | version precedence is a strict weak order; two versions tie exactly when they differ in build metadata only |
| `ServiceProtocol.CompareMeans` | apps/server/src/cloud/serviceProtocol.ts:107-143 | a version compares less exactly when it precedes by section 11 of Semantic Versioning: numbers first, a prerelease before its release, and identifiers in their order |
| `RecordHistory.SettledOnce` | apps/server/src/serviceLauncher.ts:216-228 | in a lawful sequence of records an update gets at most one terminal status: once it is settled, the record is unchanged for as long as it carries that update |
| `RecordHistory.PendingOnce` | apps/server/src/serviceLauncher.ts:486-495 | while an update id is on record it stands for the same two versions, pending or settled |
| `RecordHistory.SettledStays` | apps/server/src/serviceLauncher.ts:589-596 | a settled update never becomes pending again |
| `RecordHistory.NotCommittedKeepsActive` | apps/server/src/serviceLauncher.ts:589-596 | settling an update without committing it leaves the version it started from active |
| `RecordHistory.ActiveNeverDecreases` | apps/server/src/serviceLauncher.ts:526-533 | the active version never decreases in precedence |
| `LauncherRuns.InvAt` | apps/server/src/serviceLauncher.ts:96-600 | the inductive invariant of durable state, fields and position holds at every world of every run, with crashes between any two durable steps |
| `LauncherRuns.RecordAlwaysDecodes` | apps/server/src/cloud/serviceProtocol.ts:145-167 | whatever the launcher has written, and wherever it crashed, a later launcher can read the record |
| `LauncherRuns.RunRecords` | apps/server/src/serviceLauncher.ts:486-495 | the records of every run are lawful: changes only record a fresh update from the active version or settle the pending one |
| `LauncherRuns.UpdateIsRequested` | apps/server/src/serviceLauncher.ts:457-495 | an update becomes pending only while nothing is pending and the active child that asked is attached; its target is newer and its database path absolute |
| `LauncherRuns.CommitIsOfAttachedTrial` | apps/server/src/serviceLauncher.ts:511-533 | the active version changes, and an update is committed, only while the trial child of the pending update is attached; the record then selects its target, which is newer |
| `LauncherRuns.LeftAtMeaning` | apps/server/src/serviceLauncher.ts:500-509 | what a version left is the live files at the last step in which a process of it died |
| `LauncherRuns.StartStepAt` | apps/server/src/serviceLauncher.ts:390-418 | a process is started only when none is alive: the pending target if its backup is complete and no restore is marked, the active version if nothing is pending |
| `LauncherRuns.NeverStartsOlder` | apps/server/src/serviceLauncher.ts:351-373 | no step starts a version older than one that was ever active, so none older than a committed one |
| `LauncherRuns.RolledBackDatabase` | apps/server/src/serviceLauncher.ts:578-599 | after an update is rolled back or failed, and while nothing has been started since, all three database files are what the previous version left when it last died, a sidecar absent then being absent now |
| `LauncherRuns.RestartsOnItsOwnDatabase` | apps/server/src/serviceLauncher.ts:578-599 | the previous version starts again on exactly the database it left: none of its writes is lost and none of a trial survives |
| `LauncherRuns.RestartsAsBeforeTheTrial` | apps/server/src/serviceLauncher.ts:500-509 | on its first start after the rollback it finds what it had left before the trial, whichever attempt, was started; nothing of it has died in between |
| `LauncherRuns.TrialHasBackup` | apps/server/src/serviceLauncher.ts:375-388 | a trial starts only when its completed backup holds what the previous version left |
| `LauncherRuns.TrialNeverBootsPartialRestore` | apps/server/src/serviceLauncher.ts:125-137 | a trial starts on what the previous version left, or on what the latest process of its own version left, never on a half-restored database |
| `LauncherRuns.BackupIsFinal` | apps/server/src/serviceLauncher.ts:91-98 | a completed backup is neither overwritten nor removed while its update is pending |
| `LauncherRuns.SettledForGood` | apps/server/src/serviceLauncher.ts:532-536 | once a terminal record is durable no later step, in any later launcher, restores that update's backup or makes it pending |
| `LauncherRuns.OneChild` | apps/server/src/serviceLauncher.ts:390-440 | at most one child process is alive |
| `LauncherRuns.DatabaseIsQuiescent` | apps/server/src/serviceLauncher.ts:375-388 | staging, backups and live files are written by the launcher only when no child is alive |
| `LauncherRuns.MarkerPrecedesRestore` | apps/server/src/serviceLauncher.ts:125-159 | a step other than a child's write changes a live file only while the update is recorded as pending and its backup, of what the previous version left, carries the restore marker |
| `LauncherRuns.TrialIsPending` | apps/server/src/serviceLauncher.ts:553-567 | an attached trial always has the pending record of its own version, so its exit never finds the state without one |
| `LauncherRuns.StaleEvents` | apps/server/src/serviceLauncher.ts:442-443 | exits, messages and timeouts of a replaced child change neither fields nor disk; its error event, which the code does not check, ends the launcher |
| `LauncherRuns.ReplacedForGood` | apps/server/src/serviceLauncher.ts:420-439 | a child once detached is never attached again, by this launcher or a later one, so its events stay those of a replaced child |
| `LauncherRuns.StoppedForGood` | apps/server/src/serviceLauncher.ts:332-342 | after the queued stop, or a fatal error, has finished no child is alive and none is started |
| `LauncherCauses.OutcomeHasCause` | apps/server/src/serviceLauncher.ts:351-599 | every recorded failure and rollback has its cause: since the update became pending, and while it was, a step of that attempt failed, found the runtime missing, the main file absent or the restore marker, or lost, timed out or mistrusted the trial, each reason only from its own step |
| `LauncherOperations.KeepStep` | apps/server/src/serviceLauncher.ts:351-600 | every step of the protocol keeps the invariant |
| `ServiceLauncher.Launcher.constructor` | apps/server/src/serviceLauncher.ts:277-281 | a launcher with the recorded state, no child and nothing queued but recovery; the worlds recorded so far stay a run of the protocol |
| `ServiceLauncher.Launcher.ClearTimer` | apps/server/src/serviceLauncher.ts:346-349 | the timer is disarmed and no other |
| `ServiceLauncher.Launcher.Fatal` | apps/server/src/serviceLauncher.ts:305-314 | afterwards the launcher is stopping and no child is attached or alive; the worlds recorded so far stay a run of the protocol |
| `ServiceLauncher.Launcher.BackupDatabaseOnce` | apps/server/src/serviceLauncher.ts:96-117 | leaves a complete copy of what the previous version left, never touching a backup that exists, or, only when an operation failed or the main file was absent, the launcher on its way back to that version; the worlds recorded so far stay a run of the protocol |
| `ServiceLauncher.Launcher.MarkRestorePending` | apps/server/src/serviceLauncher.ts:126-137 | unless an operation fails, and then it throws, the backup carries the marker; the worlds recorded so far stay a run of the protocol |
| `ServiceLauncher.Launcher.RestoreDatabaseBackup` | apps/server/src/serviceLauncher.ts:140-159 | unless an operation fails, and then it throws, the three database files are what the previous version left; the worlds recorded so far stay a run of the protocol |
| `ServiceLauncher.Launcher.DiscardDatabaseBackup` | apps/server/src/serviceLauncher.ts:161-166 | the backup is gone unless an operation failed, and it goes on in either case; the worlds recorded so far stay a run of the protocol |
| `ServiceLauncher.Launcher.WriteServiceState` | apps/server/src/serviceLauncher.ts:176-201 | replaces the record atomically, or throws before or after the replacement; the worlds recorded so far stay a run of the protocol |
| `ServiceLauncher.Launcher.TerminateChild` | apps/server/src/serviceLauncher.ts:248-260 | the child is dead afterwards and its exit is queued; the worlds recorded so far stay a run of the protocol |
| `ServiceLauncher.Launcher.Recover` | apps/server/src/serviceLauncher.ts:351-373 | unless it throws or a stop is under way, the active version runs if nothing was pending, and otherwise the trial with its record, or the previous version with the failure and its cause on record; the trial, if nothing failed, no file was absent and no restore was marked; the worlds recorded so far stay a run of the protocol |
| `ServiceLauncher.Launcher.StartTrial` | apps/server/src/serviceLauncher.ts:375-388 | unless it throws or a stop is under way, the trial is attached and the record still pending, or the failure and its cause are on record and the previous version runs; the trial, if nothing failed and the main file was there; the worlds recorded so far stay a run of the protocol |
| `ServiceLauncher.Launcher.StartActive` | apps/server/src/serviceLauncher.ts:390-418 | unless an operation fails or the runtime is missing, and then it throws, or a stop is under way, the active version is attached as the active child; the worlds recorded so far stay a run of the protocol |
| `ServiceLauncher.Launcher.StartTrialChild` | apps/server/src/serviceLauncher.ts:390-418 | unless an operation fails, the runtime is missing or a stop is under way, the target is attached as the trial; the caller is told of the failure; the worlds recorded so far stay a run of the protocol |
| `ServiceLauncher.Launcher.Attach` | apps/server/src/serviceLauncher.ts:415-439 | the child is attached, a trial with the timer for its report armed, and the launcher is at rest; the worlds recorded so far stay a run of the protocol |
| `ServiceLauncher.Launcher.HandleUpdateRequest` | apps/server/src/serviceLauncher.ts:451-498 | unless an operation fails, and then it throws, an acceptable request is on record as pending with its hand-over scheduled, and any other leaves the record and the child unchanged; the worlds recorded so far stay a run of the protocol |
| `ServiceLauncher.Launcher.BeginTrial` | apps/server/src/serviceLauncher.ts:500-509 | changes neither record, child nor disk unless the child is the active one it was set for with an update pending; then the trial is attached and the record still pending, or the failure is on record with a cause among the steps since, and if nothing failed, the main file was there and no stop is under way, it is the trial; the worlds recorded so far stay a run of the protocol |
| `ServiceLauncher.Launcher.HandlePrepared` | apps/server/src/serviceLauncher.ts:511-537 | unless an operation throws, the matching trial is the active child of a committed record and a mismatched one is rolled back to the previous version; throws for any other child; the worlds recorded so far stay a run of the protocol |
| `ServiceLauncher.Launcher.HandlePreparedTimeout` | apps/server/src/serviceLauncher.ts:539-546 | changes neither record, child nor disk unless the child is the trial it was set for with an update pending, and otherwise rolls back to the previous version; the worlds recorded so far stay a run of the protocol |
| `ServiceLauncher.Launcher.HandleExit` | apps/server/src/serviceLauncher.ts:548-576 | throws when no update is pending, and otherwise rolls back for a trial and starts the trial for an active child, as the hand-over does; the worlds recorded so far stay a run of the protocol |
| `ServiceLauncher.Launcher.ReturnToPrevious` | apps/server/src/serviceLauncher.ts:578-599 | unless it throws, the outcome is on record and the previous version runs, or a stop is under way; the worlds recorded so far stay a run of the protocol |
| `ServiceLauncher.Launcher.Stop` | apps/server/src/serviceLauncher.ts:316-344 | the marker and the flag are set at once, the timer is cleared and the stop queued once; the record and the child stay; the worlds recorded so far stay a run of the protocol |
| `ServiceLauncher.Launcher.RunNext` | apps/server/src/serviceLauncher.ts:297-303 | the next queued transition, and no other, is taken and runs to its end as steps of the protocol, and ends the launcher if it throws; the worlds recorded so far stay a run of the protocol |
| `UpdateManifest.UndoubleDouble` | scripts/lib/update-manifest.ts:22-27 | halving doubled single quotes gives the string back |
| `ManifestReading.UndoubleMeans` | scripts/lib/update-manifest.ts:22-27 | the leftmost pair of single quotes becomes one, what precedes it stays, and so on from behind it |
| `UpdateManifest.ScalarReadsBack` | scripts/lib/update-manifest.ts:54-65 | parsing a serialised string, boolean or plainly printed number gives it back |
| `UpdateManifest.OtherIsNoNumber` | scripts/lib/update-manifest.ts:239-244 | a number printed with an exponent, or infinite, is not read back as a number |
| `ManifestReading.DigitsValue` | scripts/lib/update-manifest.ts:61-63 | a row of digits is read as a number in base ten, so leading zeros do not matter |
| `ManifestReading.ScalarIsRead` | scripts/lib/update-manifest.ts:54-65 | a trimmed text is read as a value exactly when it says it: quoted, the text between the quotes; `true` or `false`; of the form of a number, the number spelled; and otherwise that very text |
| `ManifestReading.UnquotedIsItself` | scripts/lib/update-manifest.ts:54-65 | an unquoted text that is no number and neither `true` nor `false` is read as it stands |
| `ManifestReading.ReadsAsSaid` | scripts/lib/update-manifest.ts:79-136 | a line is read as one of the kinds of line, with its value, exactly when it has that form, whatever white space is around its text |
| `ManifestMeaning.LinesMean` | scripts/lib/update-manifest.ts:75-160 | the lines are accepted exactly when each fits where it stands, and the state after them is what they say |
| `ManifestMeaning.ParseMeans` | scripts/lib/update-manifest.ts:67-186 | any text is read as a manifest exactly when its lines are well formed and describe it: version and date by their last entries, one file for each url line, in order, with the last hash and size before the next file or entry, and every other entry but `path` and `sha512` by its last line |
| `ManifestMeaning.WrittenIsRead` | scripts/lib/update-manifest.ts:67-186 | so a manifest whoever wrote it, its lines ended in either way and each saying one thing, is read as the manifest they describe |
| `ManifestEvaluation.SplitJoin` | scripts/lib/update-manifest.ts:72 | splitting undoes joining for lines without terminators |
| `ManifestEvaluation.ReadEntry` | scripts/lib/update-manifest.ts:128-136 | a top-level line is read as its key and parsed value |
| `ManifestEvaluation.FilesFold` | scripts/lib/update-manifest.ts:86-97 | the lines of complete files add exactly those files, in order |
| `ManifestEvaluation.BlankFails` | scripts/lib/update-manifest.ts:39-47 | a blank url or hash anywhere makes parsing fail |
| `ManifestEvaluation.Evaluate` | scripts/lib/update-manifest.ts:67-186 | parsing a printed manifest that is in range gives it with its urls and hashes trimmed and unquoted |
| `ManifestRoundTrip.ParsedWasRead` | scripts/lib/update-manifest.ts:162-185 | every parsed manifest has a version, a date and a file, single-line strings, whole sizes, and legal unreserved extra keys |
| `ManifestRoundTrip.RoundTrip` | scripts/lib/update-manifest.ts:239-277 | parsing a serialised manifest gives it back exactly when version, date and files are non-empty, strings are on one line, urls and hashes are not blank, trimmed and not wrapped in single quotes, sizes are whole, extra keys are legal and unreserved and numbers plainly printed |
| `ManifestRoundTrip.ParsedRoundTrip` | scripts/lib/update-manifest.ts:22-27 | a parsed manifest comes back exactly when its urls and hashes are plain and its sizes and numeric extras are plainly printed |
| `ManifestRoundTrip.LargeSizeIsLost` | scripts/lib/update-manifest.ts:115-123 | a size of 10^21 or more is read, but printed with an exponent and not read back |
| `ManifestRoundTrip.ErrorsNameTheirLine` | scripts/lib/update-manifest.ts:86-154 | an error with a line number names a line of the kind it complains of, or the end of a text whose last file is incomplete |
| `ManifestLoops.ParseUpdateManifest` | scripts/lib/update-manifest.ts:67-186 | the loop over the lines computes the specified manifest or the first error: a manifest exactly when the lines are well formed and give one, and then the one they describe |
| `ManifestLoops.SerializeUpdateManifest` | scripts/lib/update-manifest.ts:250-277 | the text printed is read back as the manifest exactly when the manifest is printable |
| `ManifestLoops.EveryManifestPrints` | scripts/lib/update-manifest.ts:264 | the keys of every manifest can be sorted, so every manifest has a printed form |
| `ManifestMerge.MergeFiles` | scripts/lib/update-manifest.ts:217-226 | fails exactly when a url has two different entries, and otherwise keeps the first entry of each url in order |
| `ManifestMerge.MergeExtras` | scripts/lib/update-manifest.ts:188-205 | fails exactly when a shared key has different values or a key of the second record alone is an inherited name; otherwise the union |
| `ManifestMerge.MergeUpdateManifests` | scripts/lib/update-manifest.ts:207-237 | succeeds exactly when versions match, nothing conflicts, and no inherited name is an extra key of the second manifest alone; then it has their version, the date of the two that neither comes after, of the files of both in order the first of each url, and the extras of both |
| `ManifestMerge.OrderMatters` | scripts/lib/update-manifest.ts:195-197 | a concrete pair without conflicting values that merges in one order and is refused in the other |
| `ManifestMerge.GroupingMatters` | scripts/lib/update-manifest.ts:195-197 | three manifests without conflicting values that merge in one grouping and are refused in the other |
| `ManifestMerge.EveryUrlOnce` | scripts/lib/update-manifest.ts:217-234 | a merge holds exactly the files of both sides, each url once |
| `ManifestMerge.Commutes` | scripts/lib/update-manifest.ts:207-237 | commutative up to file order exactly when values conflict or both or neither order meets an inherited name |
| `ManifestMerge.Associates` | scripts/lib/update-manifest.ts:207-237 | associative, in definedness and in file order, exactly when two of the manifests conflict, the second or the third alone carries an inherited name, or no inherited name of both outer manifests is missing from the middle one |
| `ManifestMerge.Idempotent` | scripts/lib/update-manifest.ts:207-237 | merging a manifest with itself gives it back exactly when its urls are distinct |
| `FaviconStore.BrowserFaviconStore.constructor` | apps/web/src/browserFaviconStore.ts:122-127 | an empty store |
| `FaviconStore.BrowserFaviconStore.RecordFavicon` | apps/web/src/browserFaviconStore.ts:128-155 | the store after the call is that of the history with the call added |
| `FaviconStore.BrowserFaviconStore.Holds` | apps/web/src/browserFaviconStore.ts:128-155 | the batch characterisation of what the object holds |
| `FaviconStore.AcceptedMeans` | apps/web/src/browserFaviconLogic.ts:34-150 | a capture is accepted exactly when its image is a PNG data URL of base64 of at most 8192 characters and its time lies between the epoch and the last date and at most five minutes ahead |
| `FaviconStore.OneCapture` | apps/web/src/browserFaviconStore.ts:128-155 | a call that is not accepted changes nothing; an accepted one leaves other keys alone or evicts them and gives its own key the newer image and the merged aliases |
| `FaviconStore.BestMeaning` | apps/web/src/browserFaviconStore.ts:144-150 | the newest capture of a key is an accepted capture that none of the key exceeds and none before it equals |
| `FaviconStore.NextAliasesMean` | apps/web/src/browserFaviconStore.ts:133-140 | the aliases kept are distinct, at most four, those of the newer capture first, and complete when four are enough |
| `FaviconStore.EvictKeepsNewest` | apps/web/src/browserFaviconLogic.ts:152-163 | evicting keeps forty records, or all, none of them older than one that is dropped |
| `FaviconStore.EvictsOldest` | apps/web/src/browserFaviconLogic.ts:152-163 | evicting from one record too many drops one record no newer than any kept |
| `FaviconStore.AlwaysTracks` | apps/web/src/browserFaviconStore.ts:128-155 | after any calls with capture times distinct across keys, each record is its key's newest capture and a captured key is missing only if forty newer records are held |
| `FaviconStore.StreamingIsBatch` | apps/web/src/browserFaviconStore.ts:128-155 | the store holds exactly the captured keys with fewer than forty newer ones, each with its newest image and time |
| `FaviconMigration.MigratePersistedState` | apps/web/src/browserFaviconLogic.ts:165-201 | the loop over the persisted properties merges the accepted ones and evicts |
| `FaviconMigration.CaptureRead` | apps/web/src/browserFaviconLogic.ts:172-192 | a persisted property is read exactly when it has the shape of an entry, its key has a normal form and image and time are acceptable; it is filed under the normal form with at most four of its recognised aliases |
| `FaviconMigration.ReadsOnlyPersisted` | apps/web/src/browserFaviconLogic.ts:165-201 | every record read back is that of a persisted property, under the property's normal key |
| `FaviconMigration.MergeHoldsBest` | apps/web/src/browserFaviconLogic.ts:172-199 | before eviction the merged state holds exactly the newest accepted capture of each key |
| `FaviconMigration.Rehydrates` | apps/web/src/browserFaviconStore.ts:157-176 | persisting the store and reading it back later gives the store, for keys and aliases in their normal form |
| `ShadowStorage.RefinesPlainMap` | apps/web/src/browserFaviconStore.ts:92-119 | whichever primary calls fail, a name touched in the session reads as in a map that never fails |
| `ShadowStorage.LastCallWins` | apps/web/src/browserFaviconStore.ts:101-118 | that map holds what the last call on the name set, or nothing if it removed it |
| `ShadowStorage.BrowserFaviconStorage.constructor` | apps/web/src/browserFaviconStore.ts:82-92 | nothing shadowed and nothing in the fallback |
| `ShadowStorage.BrowserFaviconStorage.GetItem` | apps/web/src/browserFaviconStore.ts:93-100 | the primary storage is asked unless the name is shadowed; the answer is the plain map's, and nothing only for an untouched name whose very read throws |
| `ShadowStorage.BrowserFaviconStorage.SetItem` | apps/web/src/browserFaviconStore.ts:101-109 | the state is that of the calls so far with this one, thrown or not as the primary storage threw, added |
| `ShadowStorage.BrowserFaviconStorage.RemoveItem` | apps/web/src/browserFaviconStore.ts:110-118 | the state is that of the calls so far with this one, thrown or not as the primary storage threw, added |
| `SettingsStrip.OverlayStrip` | apps/server/src/serverSettings.ts:221-253 | overlaying the stripped tree on the defaults gives the tree back exactly when it carries all keys of the defaults |
| `SettingsStrip.StripIsSparse` | apps/server/src/serverSettings.ts:221-253 | the stripped tree keeps no leaf, array or atomic value equal to its default, and no empty object whose default is an object |
| `SettingsStrip.StripIsLeast` | apps/server/src/serverSettings.ts:221-253 | every tree that overlays to the same settings has all fields of the stripped one |
| `SettingsStrip.AtomicIsWhole` | apps/server/src/serverSettings.ts:212-243 | what is under an atomic key is kept whole, or dropped when it equals its default; what is under another key is itself stripped |
| `SettingsStrip.StripDefaultServerSettings` | apps/server/src/serverSettings.ts:221-253 | the recursion with its loop over keys computes the stripped tree |
| `SecretNames.Injective` | apps/server/src/serverSettings.ts:81-86 | secret names of variables whose encoded names hold no `-` determine the instance and the variable |
| `SecretNames.WordsDashless` | apps/server/src/serverSettings.ts:81-86 | names of ASCII letters, digits and underscores are such names |
| `SecretNames.ReceivedNeverCollide` | apps/server/src/serverSettings.ts:81-86 | for the variable names the contract receives, secret names are equal exactly when instance and variable are |
| `SecretNames.Collision` | packages/contracts/src/providerInstance.ts:50-51 | why the contract restricts names: two variables it refuses would share a secret name |
| `SecretNames.DecodeEncode` | apps/server/src/serverSettings.ts:81-86 | base64url is invertible |
| `SecretNames.CharMeans` | apps/server/src/serverSettings.ts:81-86 | the characters are those of base64url |
| `SecretNames.Named` | apps/server/src/serverSettings.ts:81-86 | a test vector of RFC 4648 and the two characters of base64url in a secret name |
| `ProviderSecrets.UpdateAt` | apps/server/src/serverSettings.ts:380-479 | what one update does to the secret of any one variable: supplied, kept, removed or dropped as stale |
| `ProviderSecrets.LastSuppliedMeaning` | apps/server/src/serverSettings.ts:412-447 | the value last supplied is that of an update since which the variable has only been repeated as a redacted copy |
| `ProviderSecrets.StoreHoldsLastSupplied` | apps/server/src/serverSettings.ts:593-612 | after any updates the store holds for each variable the value last supplied, and no secret that the settings do not name as sensitive |
| `ProviderSecrets.FileHoldsNoSecret` | apps/server/src/serverSettings.ts:412-447 | no sensitive value is in the persisted settings |
| `ProviderSecrets.MaterializesLastSupplied` | apps/server/src/serverSettings.ts:318-361 | reading back gives each sensitive variable the value last supplied, less a leading byte order mark, and every other variable its own value |
| `ProviderSecrets.ReadsBackAsSupplied` | apps/server/src/serverSettings.ts:318-361 | a secret is read back as it was supplied exactly when it does not begin with a byte order mark |
| `ProviderSecrets.MarkIsLost` | apps/server/src/serverSettings.ts:64 | an update whose token begins with a byte order mark, which is read back without it |
| `ProviderSecrets.ClientSeesNoSecret` | apps/server/src/serverSettings.ts:88-115 | a client is shown no sensitive value, only whether there is one, and every other value as it was given |
| `ProviderSecrets.EchoKeeps` | apps/server/src/serverSettings.ts:88-100 | sending back the redacted copy a client is shown changes neither the secret nor what is persisted |
| `ProviderSecrets.OthersKept` | apps/server/src/serverSettings.ts:395-473 | names that are no variable's secret name are left alone |
| `ServerSettings.ServerSettingsService.constructor` | apps/server/src/serverSettings.ts:311-316 | a service on a store and its loaded settings |
| `ServerSettings.ServerSettingsService.PersistVariable` | apps/server/src/serverSettings.ts:393-448 | the branches for one variable change the store and the persisted copy as specified |
| `ServerSettings.ServerSettingsService.PersistProviderEnvironmentSecrets` | apps/server/src/serverSettings.ts:380-479 | the loops change the store as specified and return the persisted form of every variable |
| `ServerSettings.ServerSettingsService.RemoveStale` | apps/server/src/serverSettings.ts:455-473 | removes exactly the secrets of sensitive variables of the current settings that are not kept |
| `ServerSettings.ServerSettingsService.MaterializeProviderEnvironmentSecrets` | apps/server/src/serverSettings.ts:318-361 | fills in the secrets of redacted sensitive variables and nothing else |
| `ServerSettings.ServerSettingsService.UpdateSettings` | apps/server/src/serverSettings.ts:593-612 | one update of the settings and the store, and its materialised result |
| `WhenExpressions.LexPrinted` | packages/shared/src/keybindings.ts:130-177 | the lexer reads a printed tree as its tokens |
| `WhenExpressions.ParsePrinted` | packages/shared/src/keybindings.ts:184-229 | a printed tree is read as one operand exactly when its nesting is within the limit |
| `WhenExpressions.WhenRoundTrip` | apps/server/src/keybindings.ts:158-169 | printing and parsing gives the tree back exactly when its identifiers are legal and it is nested no deeper than the limit |
| `WhenExpressions.ConfigRoundTrip` | packages/shared/src/keybindings.ts:179-262 | the same for the identifiers and the limit of the source |
| `WhenExpressions.PrintAlike` | apps/server/src/keybindings.ts:158-169 | trees over identifiers without white space and operator characters print alike only if they are the same |
| `WhenExpressions.NoNul` | packages/shared/src/keybindings.ts:130-177 | no text that is read as a when-expression holds a NUL |
| `WhenGrammar.LexesWritten` | packages/shared/src/keybindings.ts:130-177 | the lexer reads a text as tokens exactly when it is these tokens with any white space between them, identifiers being as long as they can be |
| `WhenGrammar.ParsesGrammar` | packages/shared/src/keybindings.ts:179-248 | the parser accepts exactly the grammatical token sequences, each with its meaning: negation binds tighter than `&&`, that tighter than `||`, and both associate to the left |
| `WhenGrammar.WhenMeans` | packages/shared/src/keybindings.ts:179-262 | a when text is read as a tree exactly when it is a grammatical way to write that tree within the limit of 64 |
| `Shortcuts.ShortcutsPrintAlike` | apps/server/src/keybindings.ts:145-156 | shortcuts print alike exactly when they are the same up to the name of the space key |
| `Shortcuts.SameContextMeans` | apps/server/src/keybindings.ts:111-124 | whatever the keys, with when texts free of NUL, contexts are the same exactly when both exist, the shortcuts are the same up to the space key and the when texts equal |
| `KeybindingsConfig.CacheAgrees` | apps/server/src/keybindings.ts:448-464 | the state an operation caches is what a fresh load computes exactly when every written rule loads |
| `KeybindingsConfig.CompileMeans` | packages/shared/src/keybindings.ts:264-282 | a rule compiles to its command, the shortcut of its key and the tree its when text is a way to write, and not at all if it has none |
| `KeybindingsConfig.GoodRulesMean` | apps/server/src/keybindings.ts:391-421 | reading the file keeps exactly the rules that compile with a key of 1 to 64 characters, in order |
| `KeybindingsConfig.IssuesMean` | apps/server/src/keybindings.ts:391-421 | and reports the place of every other entry, in order |
| `KeybindingsConfig.RemainingMeans` | apps/server/src/keybindings.ts:648-662 | what is left of the list after taking rules out keeps its order |
| `KeybindingsConfig.CompileEachMeans` | packages/shared/src/keybindings.ts:284-295 | compiling keeps exactly the rules that compile, in order, each with its own command |
| `KeybindingsConfig.MergeMeans` | apps/server/src/keybindings.ts:208-225 | the merged list is the defaults whose command no rule of the user has, in order, and then the user's rules, cut to the latest 256; all the defaults when the user has no rules |
| `KeybindingsConfig.UpsertPlaces` | apps/server/src/keybindings.ts:648-662 | an upserted rule is last, occurs once and survives the cap, and the list never exceeds the maximum |
| `KeybindingsConfig.UpsertAgrees` | apps/server/src/keybindings.ts:669-676 | after an upsert the cache agrees with the file exactly when the new rule loads |
| `KeybindingsConfig.UpsertedUnloadable` | apps/server/src/keybindings.ts:669-676 | a rule that is accepted and does not load: the cache shows no issue and a fresh load shows one |
| `KeybindingsConfig.RemoveFromTooMany` | apps/server/src/keybindings.ts:687-691 | a file of loadable rules from which removing one leaves a list too long to be written |
| `KeybindingsConfig.RemoveAgrees` | apps/server/src/keybindings.ts:687-697 | after a remove the cache agrees with the file |
| `KeybindingsConfig.BackfillKeeps` | apps/server/src/keybindings.ts:495-566 | backfill keeps the file as a prefix, stays within the maximum, and leaves out only defaults whose command or shortcut context is taken or for which there is no slot |
| `KeybindingsConfig.BackfillWrites` | apps/server/src/keybindings.ts:474-569 | the first start writes the defaults, a file with an issue is left as it is, and any other is written exactly when a default is missing and there is room |
| `KeybindingsConfig.MissingMeans` | apps/server/src/keybindings.ts:504-530 | the missing defaults come in the order of the defaults |
| `KeybindingsConfig.SameShortcutContextMeans` | apps/server/src/keybindings.ts:111-124 | rules that load have the same shortcut context exactly when their shortcuts are the same up to the space key and their when texts equal, whatever their keys |
| `KeybindingsConfig.LeftOutMeans` | apps/server/src/keybindings.ts:505-530 | a default left out while there is room has its command, or its shortcut under the same when text, in the file |
| `KeybindingsConfig.BackfillIdempotent` | apps/server/src/keybindings.ts:474-569 | after the backfill has run, running it again writes nothing |
| `Keybindings.KeybindingsService.constructor` | apps/server/src/keybindings.ts:455-462 | nothing cached |
| `Keybindings.KeybindingsService.LoadRuntimeCustomKeybindingsConfig` | apps/server/src/keybindings.ts:370-423 | the loop over the entries collects the loadable rules and an issue for each other entry |
| `Keybindings.KeybindingsService.GetSnapshot` | apps/server/src/keybindings.ts:455-464 | the cached state, or a fresh load, which is then cached |
| `Keybindings.KeybindingsService.WriteConfigAtomically` | apps/server/src/keybindings.ts:425-446 | writes the list, or fails and changes nothing when it is longer than the maximum |
| `Keybindings.KeybindingsService.CollectMissing` | apps/server/src/keybindings.ts:504-521 | the loop over the defaults collects those with neither command nor shortcut context taken |
| `Keybindings.KeybindingsService.SyncDefaultKeybindingsOnStartup` | apps/server/src/keybindings.ts:474-569 | writes the backfilled file, if anything is to be written, and invalidates the cache |
| `Keybindings.KeybindingsService.UpsertKeybindingRule` | apps/server/src/keybindings.ts:642-683 | writes and caches the capped list; the cache is coherent exactly when the rule loads; on failure nothing changes |
| `Keybindings.KeybindingsService.RemoveKeybindingRule` | apps/server/src/keybindings.ts:684-704 | writes and caches the other rules coherently; a file that would stay too long is refused and nothing changes |
| `CommandGate.KeepStep` | apps/server/src/serverRuntimeStartup.ts:106-148 | every step of callers, worker, startup and roots keeps the invariant of the gate |
| `CommandGate.InvAlways` | apps/server/src/serverRuntimeStartup.ts:106-148 | the invariant holds after every interleaving |
| `CommandGate.NothingBeforePrepared` | apps/server/src/serverRuntimeStartup.ts:517-538 | no command effect starts before the ready signal and no parked root body before activation, both after prepareTrial has returned; once it is asked for, every root has confirmed that it is parked |
| `CommandGate.UnparkedRunsAtOnce` | apps/server/src/serverActivation.ts:17-20 | without an activation effect every root that has been forked runs its body, in every run |
| `CommandGate.OfferOrder` | apps/server/src/serverRuntimeStartup.ts:111-113 | queued effects start in offer order, none twice, and settle in that order, each exactly once |
| `CommandGate.CallersGetTheirs` | apps/server/src/serverRuntimeStartup.ts:127-146 | every effect runs at most once, and a caller that has returned got the exit with which its own effect ended, or the startup error, and then its effect never ran |
| `CommandGate.NothingBeforeTheSignal` | apps/server/src/serverRuntimeStartup.ts:561-576 | until startup signals no queued command runs and everyone queued gets the startup error; until it sets the gate ready no command runs at all, so a startup that fails before runs none |
| `CommandGate.LateFailure` | apps/server/src/serverRuntimeStartup.ts:538-550 | when startup fails after the ready signal, a queued command still runs while a later caller gets the startup error |
| `CommandGate.EveryoneSettles` | apps/server/src/serverRuntimeStartup.ts:111-114 | once readiness is decided the worker alone can settle every offered command, with the startup error exactly when startup did not signal |
| `ServerStartup.Server.constructor` | apps/server/src/serverRuntimeStartup.ts:106-114 | the gate closed and pending, startup not begun, nothing recorded |
| `ServerStartup.Server.AtEveryMoment` | apps/server/src/serverRuntimeStartup.ts:517-538 | at every moment the object has passed through, nothing had run before prepareTrial returned and every root was parked by then |
| `ServerStartup.Server.EnqueueCommand` | apps/server/src/serverRuntimeStartup.ts:127-146 | with any operations of other fibres in between: the caller gets the exit of its own effect, which ran once and after the gate was ready, or the startup error, and then startup has failed and its effect never ran; it waits only for an effect of its own that never ends, or for a result there is not yet |
| `ServerStartup.Server.RunCommand` | apps/server/src/serverRuntimeStartup.ts:111-113 | one turn of the worker settles the next command in offer order, for the first time, with the exit of its effect if startup signalled and the startup error otherwise; unless nothing is queued, readiness is undecided, or the effect never ends |
| `ServerStartup.Server.SettleQueuedCommand` | apps/server/src/serverRuntimeStartup.ts:101-104 | the result is completed, for the first time, with the exit, and everything taken is settled |
| `ServerStartup.Server.RunWorker` | apps/server/src/serverRuntimeStartup.ts:111-114 | every turn settles a command, in the order of the offers, until the worker stands at one of these places; what was settled stays as it was |
| `ServerStartup.Server.Make` | apps/server/src/serverRuntimeStartup.ts:400-576 | startup forks its own roots one after another and then runs its phases: it ends complete, activated and signalled; or failed, with the Deferred failed too unless it had been completed; or waits; it breaks or waits only where the phase it is in does, or waits for a `forkParked` before the trial; once it has asked for the trial its roots are forked and no root is merely forked |
| `ServerStartup.Server.ForkParked` | apps/server/src/serverActivation.ts:15-26 | with an activation effect it returns exactly when its root has confirmed that it is parked; without one the body runs at once |
| `ServerStartup.Server.RunRoot` | apps/server/src/serverActivation.ts:22-24 | the root confirms, and runs its body exactly when activated |
| `IcoEncoder.ValidateMeans` | scripts/lib/icon-export.ts:34-46 | the loop of checks passes exactly for integer sizes from 1 to 256, distinct, with non-empty contents |
| `IcoEncoder.FirstObjection` | scripts/lib/icon-export.ts:34-46 | the objection reported is that to the first rendition to which there is one: size, then duplicate, then empty |
| `IcoEncoder.CountFits` | scripts/lib/icon-export.ts:54 | accepted sizes being distinct, there are at most 256 renditions, so the count fits 16 bits |
| `IcoEncoder.HeaderReadsBack` | scripts/lib/icon-export.ts:48-54 | the header reads back as reserved 0, type 1 and the number of renditions |
| `IcoEncoder.RenditionReadsBack` | scripts/lib/icon-export.ts:57-71 | reading a directory entry back gives its rendition's size, 0 meaning 256, no palette, one plane of 32 bits, and the place of exactly its bytes |
| `IcoEncoder.RenditionsTile` | scripts/lib/icon-export.ts:56-71 | renditions tile the file after the directory without gap or overlap |
| `IcoEncoder.SmallFits` | scripts/lib/icon-export.ts:66-67 | a file under 2^32 bytes always fits the 32-bit fields |
| `IcoEncoder.CheckRenditions` | scripts/lib/icon-export.ts:34-46 | the loop reports the first objection |
| `IcoEncoder.WriteEntry` | scripts/lib/icon-export.ts:57-68 | writes one directory entry in place and nothing else, or refuses a value that does not fit |
| `IcoEncoder.WriteDirectory` | scripts/lib/icon-export.ts:56-69 | the loop writes the directory in place exactly when every length and offset fits |
| `IcoEncoder.EncodePngIco` | scripts/lib/icon-export.ts:29-72 | returns the specified file, or the first objection, or the range error, each in exactly its case |
| `Base64DataUrl.ScanRuns` | apps/server/src/imageMime.ts:83-100 | slicing runs between whitespace and joining them gives the stripped payload, or nothing when a character is neither |
| `Base64DataUrl.CheckPadding` | apps/server/src/imageMime.ts:102-110 | passes exactly for at most two padding characters, all at the end |
| `Base64DataUrl.ScannableStripped` | apps/server/src/imageMime.ts:85-96 | the scan meets no bad character exactly when the stripped payload has none |
| `Base64DataUrl.StripMeans` | apps/server/src/imageMime.ts:83-100 | stripping takes out carriage returns, line feeds and spaces, and nothing else |
| `Base64DataUrl.UrlMeans` | apps/server/src/imageMime.ts:53-81 | the header gives a media type and a payload exactly when the trimmed text is `data:`, pieces between semicolons of which the first that is not blank is that type and a later one, the last, is `base64`, a comma and that payload |
| `Base64DataUrl.ParseBase64DataUrl` | apps/server/src/imageMime.ts:53-113 | given a well-formed header, a payload is accepted exactly when stripping leaves a non-empty, well-padded base64 string, which is returned |

## Left out

- LauncherRuns.RolledBackDatabase: says nothing about power loss, because `fsync` and the durability of renames across a crash of the machine are not modelled.
- LauncherRuns.NeverStartsOlder: "older" is precedence, which ignores build metadata, as the source's comparison does.
- ServiceProtocol.CompareOrder: versions are modelled after parsing; the pattern that recognises exact versions is not.
- UpdateManifest.ScalarReadsBack: the rounding of decimals to doubles, overflow and underflow included, is not modelled. NaN is no value of the model, so the laws of merging say nothing about a manifest that holds it; parsing never makes one.
- ManifestLoops.SerializeUpdateManifest: takes the sorted keys as an argument, because sorting is a library call.
- FaviconStore.StreamingIsBatch: says nothing about aliases, which eviction forgets; they are modelled as the code computes them.
- ShadowStorage.RefinesPlainMap: says nothing about another page writing to the same storage.
- ProviderSecrets.StoreHoldsLastSupplied: covers updates that succeed; a secret operation that fails part of the way, and edits of the file by hand, are not modelled.
- ServerSettings.ServerSettingsService.UpdateSettings: change events, the locale and the appearance seed are not modelled.
- Keybindings.KeybindingsService.SyncDefaultKeybindingsOnStartup: log output is not modelled.
- ServerStartup.Server.EnqueueCommand: says what a caller gets when it returns, not that it returns; the same holds of the other fibres.
- CommandGate.EveryoneSettles: shows that the worker can settle every command, not that a scheduler lets it, and does not model interruption of a caller or of the worker.
- The pending-favicon buffer, the project registry and lookup: easier relatives of what is modelled.
- URL parsing and host normalisation of favicon keys: foreign calls.
- Parsing of shortcut texts and the table of default keybindings: parameters of the model.
- File watching, debouncing and publication of changes in settings and keybindings: input and output with nothing to decide.
- Process spawning, signals and inter-process messages of the launcher: abstract steps.
- `inferImageExtension` and the reader of PNG dimensions: lookups.
- Schema validation of settings, and the patch function: any next settings are allowed instead.
