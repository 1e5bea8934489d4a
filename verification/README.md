# Verified model of a self-hosted VPN deployment

A Dafny model of the parts of the repository that carry state, failure branches
or arithmetic, with proofs of what they promise. `dafny verify dfyconfig.toml`
checks everything.

**The deployment transaction machine** (`vpn-admin`). A host is what is on disk
(key triple, obfuscation password, TLS pair, `users.json`, `config.json` and its
`.bak`, the applied stamp, the `.rotate-bak` siblings), what sing-box has loaded
and what vpn-subscription cached at its last start. `Hosts.Host` holds the
current state and the history of every state passed through, so "at every step"
and "killed at any step" are statements about the history. Each fallible step
takes its outcome from a record of arbitrary answers: the theorems hold for
every combination of failures, including failures of the rollback itself. On
top of it: configuration apply, user mutation, reconcile, key and password
rotation, backup and restore. A user command or a reconcile also exists as a
machine of single host writes (`CommandSteps`), proved to make exactly the states
of the command run to its end, and `ConcurrentUsers` interleaves any number of
these machines under the state lock, deaths included. `AdminRuns` runs commands
of all these kinds one after another, past every failure.

**The connection engine** (`ShutdownGuard`, `Scores`, `ScoreBoards`, `Engine`),
**the two rate limiters** (`TokenBuckets`, `EvictingLimiter`), **the codecs,
scanner and renderers** (`Framing`, `TokenScanner`, `Redact`, `ServerRender`,
`ClientRender`, `RenderAgreement`), **signed bundles** (`Revocation`, `Bundles`)
and **the relay's idle timeout** (`RelayIdle`).

Conventions: a rename is one step; a file copy can be seen half done (`Torn`); a
reload that reports success runs what is on disk at that moment, and one that
fails leaves the service `Unproven`; a reload and its health check are one step,
so a death inside `reload_and_verify` is not among the crash states; the document fingerprint is injective;
key derivation, token hashing, signing and payload parsing are arbitrary
functions passed in; `f32`/`f64` are reals; random draws are arbitrary values
in their ranges.

## What does not hold as one might expect

- The applied stamp is not invalidated before a new document is swapped in. The
  no-reload shortcut is therefore sound only if the stamp did not already name
  the swapped document or sing-box runs it; `ConfigApply.SwapKeepsStampSoundIff`
  is the exact condition, `UserRuns.Reconcile` says exactly when a report of
  "applied" is true, and `UserRuns.TwoCrashesFoolReconcile` is a run in which
  it is not: a mutation killed after its reload, then a reconcile after its swap.
- `users.json` can get ahead of the server. A live mutation does it if and only
  if it publishes through one of two branches: the service manager answers the
  gate but not the query after the swap, or the shortcut fires while sing-box
  does not run the document (`UserMutation.PublishesEarly`, exact in
  `UserMutation.InOrderUnlessEarly`). `UserRuns.FlappingManagerPublishesEarly` is
  the first. The second needs an unrecovered reload before it:
  `UserRuns.UnrecoveredReloadPublishesEarly` is such a run and
  `UserRuns.RunNeverAhead` excludes it otherwise.
- A rotation's rollback restores `config.json` from `config.json.bak`. Once the
  candidate was swapped in it reports a complete rollback if and only if there
  was a `config.json` or a `.bak` and the copy and every other step work
  (`Rotation.UndoWorks`, `Rotation.RollbackWorks`). On a host without
  `config.json` but with a stale `.bak` it reports success and leaves the stale
  document in place: `Rotation.StaleKeptConfigComesBack`.
- A restore rolled back completely leaves sing-box on the stored users' document
  if and only if sing-box ran it when the rollback began, or the reapply neither
  took the shortcut nor lost the service manager (`Restore.ServesAgain`).
  `Restore.UnrecoveredRestoreMisleads` is a run in which it does not; with a
  sound stamp and steady managers it takes an unrecovered reload of the archive
  (`Restore.RollbackAgrees`).
- The dial budget needs a failure threshold of at most one:
  `ShutdownGuard.NoBudgetAboveOne`. A configured window of 0 still keeps one
  outcome.
- The documentation of `redact_secrets` mentions `Bearer `-prefixed tokens; the
  code has no such rule and neither has the model.
- An idle relay session is aborted at least one idle period after its last byte.
  With punctual timers it is exactly one if and only if the byte moves at the
  instant of a check that counts it (`RelayIdle.PunctualBound`);
  `RelayIdle.AbortedOnTheDot` is such a session.
- A release key signs bundle certificates and revocation lists as bare bytes, and
  a certificate and a one-key list are both 40 of them. A believed list of one key
  may therefore be a certificate read as a list (`Revocation.CertificateReadsAsList`).
  `Revocation.ListReadsAsCertificate` says exactly which lists share their bytes with
  a certificate, `Revocation.BelievedExactly` what a believed list can be, and a
  list of none or several keys was always issued (`Revocation.BelievedListWasIssued`).
  The unforgeability these assume is about signatures in circulation: every correct
  scheme has worlds that meet it (`Revocation.HonestWorldSigns`), and in them the
  failing list is exactly the second case (`Revocation.ShadowIsCertificate`).
- `get_bundle` refuses revoked keys of the list it is given. The daemon's own
  start-up passes an empty list.

## Model

| member | source | states |
|---|---|---|
| ServerRender.ActiveUsersExact | crates/compat-config/src/server.rs:22-126 | The rendered server lists exactly the members of the store that are active at that time |
| ClientRender.RenderClientSubscription | crates/compat-config/src/render.rs:175-296 | The single walk over the endpoints computes the subscription of the specification, outbounds, groups and default |
| ClientRender.FirstLabelIsFirst | crates/compat-config/src/render.rs:175-296 | The label a profile prefers is that of the earliest endpoint of its transport, and is missing exactly when there is none |
| ClientRender.ReferencesResolve | crates/compat-config/src/render.rs:175-296 | For every user, endpoint list and profile: route.final, every urltest and selector member and the selector default name an existing outbound, the default is one of the selector's members |
| ClientRender.DefaultIsOption | crates/compat-config/src/render.rs:175-296 | The default tag of every profile is an endpoint label or "auto", and resolves |
| RenderAgreement.SubscriptionAdmittedIffActive | crates/compat-config/src/render.rs:306-341 | For distinct credentials and one coherent key set, the server rendered at `now` admits each endpoint of a user's subscription if and only if the user is active at `now` |
| RenderAgreement.FindUserByToken | services/subscription/src/lib.rs:135-144 | Finds the last active user whose hash matches, and none exactly when no active user matches |
| RenderAgreement.ServeSubscription | services/subscription/src/lib.rs:160-256 | A subscription is served exactly to a token of 1 to 128 bytes of an active user, under the requested profile or the default one, and everything it advertises is admitted by the server of the same moment |
| Hosts.SameDoc | apps/admin/src/main.rs:1192-1249 | The rendered document and the cached endpoints depend on the key triple and the obfuscation password only |
| Hosts.Host.Install | crates/compat-config/src/store.rs:135-155 | Write-then-rename replaces one file in one step and touches nothing else |
| Hosts.Host.Copy | crates/compat-config/src/server.rs:180-219 | A copy passes through a torn target; a broken one leaves it torn, a refused one changes nothing; these are all its states |
| ConfigApply.SwapKeepsStampSoundIff | apps/admin/src/main.rs:1352-1363 | Swapping a document in before the reload keeps the no-reload shortcut sound if and only if the stamp did not name it already or sing-box runs it |
| ConfigApply.LoadedIsSound | apps/admin/src/main.rs:1352-1361 | A sing-box that runs what is on disk makes the shortcut sound, whatever the stamp says |
| ConfigApply.ApplyConfigAtomically | crates/compat-config/src/server.rs:180-219 | Success replaces config.json in the last step and keeps the old one as .bak; on any failure, and at every step before the last, only .bak may differ |
| ConfigApply.RecoverPrevious | apps/admin/src/main.rs:1385-1402 | Recovery succeeds exactly when the kept document can be copied back and reloaded, and then config.json and sing-box are on it |
| ConfigApply.LoadLive | apps/admin/src/main.rs:1385-1438 | Result, stamp, config.json and running document for every combination of reload, handshake, recovery and stamp outcomes; on forward runs the shortcut stays sound at every step |
| ConfigApply.SwapAndLoad | apps/admin/src/main.rs:1363-1438 | Where a swap and load can end, result by result; nothing but config.json, .bak and the stamp is ever touched |
| ConfigApply.RenderAndApply | apps/admin/src/main.rs:1296-1459 | Every way an apply of a user list can end, refused untouched, already current, loaded or recovered; the exact states it passes through; its frame at every step; when no step makes the shortcut unsound |
| ConfigApply.ApplyFramed | apps/admin/src/main.rs:1296-1459 | No state of an apply differs outside config.json, its .bak, the stamp and sing-box |
| ConfigApply.ApplySound | apps/admin/src/main.rs:1352-1438 | Without a failed reload, from a stamp that is sound and safe for the new document, the shortcut is sound in every state of an apply |
| ConfigApply.ApplyEnds | apps/admin/src/main.rs:1296-1459 | The last of the states an apply passes through is where its result says it ends |
| UserOps.FirstFresh | apps/admin/src/main.rs:1699-1727 | A generated id belongs to nobody yet, and generation fails exactly while every draw collides |
| UserOps.WithoutKeeps | apps/admin/src/main.rs:2056-2064 | Removal keeps exactly the users with another id, and fails exactly when nobody has this one |
| UserOps.EditFirstShape | apps/admin/src/main.rs:1801-1812 | An edit fails exactly when nobody has the id, and keeps length and all ids |
| UserOps.OpsKeepIdsDistinct | apps/admin/src/main.rs:1699-1727 | Ids stay pairwise distinct under create, remove, enable, disable and every rotation |
| UserOps.TokenRotationKeepsAuthorization | apps/admin/src/main.rs:1835-1842 | Rotating a subscription token changes no server document, at any time |
| UserOps.DisablingInactive | apps/admin/src/main.rs:1801-1812 | Disabling a user who is not active leaves the active users, and so the server document, of that moment as they are |
| UserMutation.LiveSettles | apps/admin/src/main.rs:1352-1438 | An apply that reports live from a sound stamp leaves config.json and sing-box on the document of the list, named by the stamp |
| UserMutation.UndoneAgrees | apps/admin/src/main.rs:1363-1438 | A failure that reports itself undone leaves sing-box and config.json on the previous list |
| UserMutation.SoundAfterApply | apps/admin/src/main.rs:1352-1438 | A healthy reload makes the shortcut sound whatever came before, and only an unrecovered one can make it unsound |
| UserMutation.UnrecoveredEnd | apps/admin/src/main.rs:1385-1402 | A reload that fails, with a recovery whose reload fails too, leaves disk and stamp as before and sing-box on nothing known |
| UserMutation.Authorize | apps/admin/src/main.rs:1296-1459 | One apply in terms of the store: users.json is never touched, live means agreed, undone means still agreed on the previous list, from a sound stamp alone |
| UserMutation.TakeBack | apps/admin/src/main.rs:2030-2054 | After a failed store write, a successful compensating apply puts the server back on the previous list; users.json is untouched |
| UserMutation.ApplyUsersAndSave | apps/admin/src/main.rs:2030-2054 | The exact states and result; users.json holds the new list on success and is untouched on every error; a live mutation keeps it behind sing-box in every step if and only if it does not publish early; a clean result leaves server and store agreed; forward runs keep the shortcut sound at every step |
| UserMutation.MutationEnds | apps/admin/src/main.rs:2030-2054 | Where a mutation ends, result by result, for every combination of failures of apply, write and compensation |
| UserMutation.CleanAgrees | apps/admin/src/main.rs:2030-2054 | A clean result leaves server and store on one list: the new one on success, the previous one on an error |
| UserMutation.InOrderUnlessEarly | apps/admin/src/main.rs:2030-2054 | The states of a live mutation show the new list only after sing-box has loaded it, if and only if it does not publish early |
| UserMutation.SoundAfterMutation | apps/admin/src/main.rs:2030-2054 | A mutation that settles leaves the shortcut sound: it was sound before, or a healthy reload came last |
| UserMutation.MutationSound | apps/admin/src/main.rs:2030-2054 | The same for every state of a mutation, the compensating apply included |
| UserRuns.UserCommand | apps/admin/src/main.rs:1699-1727 | The exact states and result of every user command, on any host: unreadable store, unknown user, mutation or token rotation |
| UserRuns.CommandCommits | apps/admin/src/main.rs:1699-1727 | The store afterwards is the operation applied to what was loaded if the command published, and untouched otherwise |
| UserRuns.CommandInOrderIff | apps/admin/src/main.rs:2030-2054 | A live command keeps the store behind the server in every step if and only if it does not take the early branch |
| UserRuns.TokenRotationAuthorizes | apps/admin/src/main.rs:1835-1842 | Token rotation rewrites the store alone, and the server admits exactly whom it admitted |
| UserRuns.CleanKeepsCoherent | apps/admin/src/main.rs:2030-2054 | A clean command on an agreed host leaves server and store agreed, ids distinct |
| UserRuns.RunUserCommands | apps/admin/src/main.rs:2030-2054 | Any sequence of user commands, past every failure, makes a history that is each command's states in turn |
| UserRuns.RunNeverAhead | apps/admin/src/main.rs:2030-2054 | In every run, whatever failed before: a live command keeps users.json behind the server in all its steps if and only if it is not early, and it is not when steady with no unrecovered reload reported since the last healthy one |
| UserRuns.SettledIsSound | apps/admin/src/main.rs:1352-1438 | In every run, as long as no unrecovered reload was reported since the last healthy one, the shortcut is sound |
| UserRuns.RunKeepsIds | apps/admin/src/main.rs:1699-1727 | In every run, whatever fails, ids stay pairwise distinct |
| UserRuns.CleanRunStaysCoherent | apps/admin/src/main.rs:2030-2054 | In every run of steady commands with clean results, server and store agree after each |
| UserRuns.Reconcile | apps/admin/src/main.rs:1500-1512 | The exact states and result; exactly when it reports "applied" and when by the shortcut; the report is true if and only if the shortcut did not fire on an unsound stamp; a reconcile that settles keeps the shortcut sound |
| UserRuns.MutateCrashReconcile | apps/admin/src/main.rs:1296-1459 | A mutation killed after exactly `stop` of its steps, for every `stop` and whatever failed, then one reconcile that reports applied at any clock value: sing-box, config.json and the render of users.json on disk are one document, if and only if the reconcile did not take the shortcut on a stamp the death left unsound; without a failed reload, from a safe stamp, no death leaves it so |
| UserRuns.DieDuring | apps/admin/src/main.rs:2030-2054 | The host of a mutation killed after `stop` steps is the state it had made by then, its last one if it makes fewer |
| UserRuns.KilledAroundReload | apps/admin/src/main.rs:1363-1438 | A process killed just before or just after the reload of an apply leaves the swapped document unloaded, or loaded without its stamp |
| UserRuns.TwoCrashesFoolReconcile | apps/admin/src/main.rs:1352-1361 | The real mutation killed between reload and stamp, then the real reconcile killed between swap and reload: the next reconcile reports "applied" while sing-box runs the abandoned document |
| UserRuns.FlappingManagerPublishesEarly | apps/admin/src/main.rs:1367-1383 | The whole mutation under a service manager that vanishes after the gate: it reports success and publishes the list ahead of the server |
| UserRuns.UnrecoveredReloadPublishesEarly | apps/admin/src/main.rs:1352-1361 | Past an unrecovered reload, disabling an expired user takes the shortcut and publishes while sing-box runs nothing known |
| FileTransactions.BackupForRotate | apps/admin/src/main.rs:565-604 | A stale backup is refused, an absent original needs none, otherwise the original is set aside; no live file is touched |
| FileTransactions.DiscardBackups | apps/admin/src/main.rs:624-626 | Only backups go, and each goes unless its removal failed |
| FileTransactions.PrepareBackups | apps/admin/src/main.rs:710-729 | Succeeds exactly when no stale backup is in the way and each copy works; then every original is set aside; live files and services are untouched at every step |
| FileTransactions.SetAllAside | apps/admin/src/main.rs:710-729 | The same, with every original surviving every step |
| FileTransactions.PutBack | apps/admin/src/main.rs:608-622 | A reported restore gives the file its exact prior contents or absence, and it is reported exactly when there is nothing to do or the step works; a failed one changes nothing and keeps the original |
| FileTransactions.PutAllBack | apps/admin/src/main.rs:733-787 | Every file is attempted; success means all are exactly as before, and comes exactly when each needed step works; at every step each original is on disk, live or set aside |
| Rotation.UndoConfig | apps/admin/src/main.rs:759-764 | config.json comes back exactly when there is a kept one and the copy works |
| Rotation.Undo | apps/admin/src/main.rs:733-787 | A rollback reports success if and only if every file restore, the config copy with something to copy, the reload and the restart work, and then files, config.json and the services seen are back on the state before; originals survive every step |
| Rotation.SwapCandidate | apps/admin/src/main.rs:803-807 | The swap keeps the transaction undoable whether or not it goes through |
| Rotation.LoadRotation | apps/admin/src/main.rs:809-865 | Commits if and only if every service seen took the candidate and no handshake rejected it, otherwise rolls back, completely exactly when the rollback works; at every step the originals survive or the candidate is in force |
| Rotation.Commit | apps/admin/src/main.rs:863-865 | Originals are discarded only with the candidate in force, and it stays in force throughout |
| Rotation.InstallTexts | apps/admin/src/main.rs:793-801 | Installs in order, succeeds exactly when every install does, and keeps every original set aside |
| Rotation.RotateTexts | apps/admin/src/main.rs:710-865 | The whole transaction over any set of files, and exactly when it is untouched, in force, rolled back, and rolled back completely |
| Rotation.RealityRotate | apps/admin/src/main.rs:640-904 | Exactly when it refuses, does not start, succeeds, and reports a complete rollback; success puts key triple, config.json, loaded document and cached endpoints on the one new key set; a reported rollback is `BackTo` the state before; a rotation that reloaded, forward or back, leaves the shortcut sound; at every step each old key file survives live or as its backup, or the new key set is in force |
| Rotation.RotatedIsSwapSafe | apps/admin/src/main.rs:640-904 | After a rotation sing-box has loaded, swapping a document in is safe if and only if the stamp does not name it or it is the one running |
| Rotation.FreshKeysAreSwapSafe | apps/admin/src/main.rs:640-904 | A host just rotated to fresh keys has a sound stamp that is safe for every user list at every time |
| Rotation.StaleKeptConfigComesBack | apps/admin/src/main.rs:759-764 | Without config.json but with a stale .bak, a rotation failing after the swap reports a complete rollback and leaves the stale document as config.json |
| Rotation.CompleteRollbackIsExact | apps/admin/src/main.rs:733-787 | With a config.json before and both services seen, a reported rollback leaves every live file, sing-box and the subscription service exactly as before |
| Rotation.RotatedHostServesActiveUsers | apps/admin/src/main.rs:640-904 | After a rotation live on both services, what the subscription serves a user is admitted by the running server if and only if the user is active |
| Rotation.ObfsRotate | apps/admin/src/main.rs:916-1108 | The same all-or-nothing statement for the obfuscation password, with the exact conditions of refusal, success and complete rollback, and the shortcut sound after a reload |
| Rotation.ObfsTransaction | apps/admin/src/main.rs:916-1108 | Its file part: a first password is rolled back to absence, a replaced one to its old text |
| Archive.IsAllowedMeans | apps/admin/src/main.rs:5236-5252 | The path check accepts exactly the manifest, its directories and deployment.toml |
| Archive.PrefixIsAcceptable | apps/admin/src/main.rs:5375-5436 | Checking entry by entry accepts exactly the archives acceptable as a whole: safe distinct allowed paths, no links, within the limits |
| Archive.ExtractValidated | apps/admin/src/main.rs:5375-5436 | Extraction succeeds if and only if the archive is acceptable, and leaves exactly its regular files, and a directory wherever the archive has one in the place of a file |
| Archive.StageBackupContents | apps/admin/src/main.rs:5259-5280 | Stages exactly the manifest files that exist, with their contents, and possibly deployment.toml |
| Archive.RelInjective | apps/admin/src/main.rs:5214-5229 | No two manifest files share a place in the archive, and every place is allowed |
| Archive.BackupArchiveAccepted | apps/admin/src/main.rs:5259-5280 | An archive of what a backup staged, within the size limits, always passes extraction and gives back what was staged |
| Archive.FewEntries | apps/admin/src/main.rs:5375-5436 | Such an archive never exceeds the entry limit |
| Restore.CoherentBackupIsRestorable | apps/admin/src/main.rs:5447-5513 | What a coherent deployment stages passes every check made before a restore touches anything, with the same user list |
| Restore.InstallOne | apps/admin/src/main.rs:5613-5650 | One file takes its archived contents or is left alone; no other file moves |
| Restore.InstallStaged | apps/admin/src/main.rs:5613-5650 | Every archived file is placed and every other kept; when it stops, exactly which files were written; the originals stay set aside at every step |
| Restore.InstallAll | apps/admin/src/main.rs:5613-5650 | The store first, then the files; success means the archive is in place, and on failure exactly the files written before it are there |
| Restore.ReapplyPrevious | apps/admin/src/main.rs:5560-5611 | Reapplying the list on disk succeeds exactly when there is one and its apply does; live, it leaves sing-box on that list exactly when the apply reached it; no set-aside file is touched |
| Restore.UndoRestore | apps/admin/src/main.rs:5560-5611 | A rollback reports success if and only if every needed file restore, the reapply of the previous users and the restart work; then every file has its exact prior contents or absence, the subscription service serves them, and sing-box is on the stored users' document exactly when the reapply reached it |
| Restore.CannotFailSucceeds | apps/admin/src/main.rs:5560-5611 | On a host that had readable users and keys, a rollback with no failing step reports success |
| Restore.RollbackAgrees | apps/admin/src/main.rs:5560-5611 | From a sound stamp with steady managers, a complete rollback leaves sing-box and config.json on the stored users and the shortcut sound, unless loading the archive ended on an unrecovered reload |
| Restore.UnrecoveredRestoreMisleads | apps/admin/src/main.rs:5560-5611 | When the archive and then the kept document fail to reload, the rollback takes the shortcut and reports itself complete with sing-box off the stored users |
| Restore.CommitRestore | apps/admin/src/main.rs:5728-5735 | Discarding the originals leaves the restored files and the running services as they are |
| Restore.FinishRestore | apps/admin/src/main.rs:5651-5735 | From the installed files on: restored exactly when the apply and the restart work, otherwise rolled back; what sing-box runs after a complete rollback |
| Restore.RestoreTransaction | apps/admin/src/main.rs:5534-5735 | Exactly when it is not started, restored with the archive in place and loaded, or rolled back, and what sing-box runs then; at every step originals survive or the archive is in place |
| Restore.RestoreArchive | apps/admin/src/main.rs:5438-5743 | Refused, and then untouched, if and only if the archive is unacceptable or incoherent or the gate is closed; otherwise the transaction, from any archive, with the exact conditions of being not started, restored, rolled back and rolled back completely; after a complete rollback, exactly when sing-box is on the stored users; a steady restore leaves the stamp naming what runs |
| Restore.RestoreBackup | apps/admin/src/main.rs:5438-5743 | Restore inverts backup: the archive of a coherent deployment is never refused and is restored when no step fails, and a successful restore gives back its user list and files, and keeps every manifest file the archive lacks |
| StateLock.AcquireKeeps | apps/admin/src/lock.rs:46-70 | Taking the lock keeps the world a serial run |
| StateLock.StepKeeps | apps/admin/src/main.rs:304-330 | A step of the holder keeps the world a serial run |
| StateLock.ExitKeeps | apps/admin/src/lock.rs:46-70 | Finishing or dying, at any step, releases the lock and keeps the world a serial run |
| StateLock.EveryScheduleIsSerial | apps/admin/src/lock.rs:46-70 | Every interleaving of any number of commands, deaths included, is at every moment the serial run in lock order, and no two commands overlap |
| CommandSteps.ApplyPlays | apps/admin/src/main.rs:1296-1459 | The single steps of an apply make exactly the states of the apply and end in its result |
| CommandSteps.JobPlays | apps/admin/src/main.rs:304-330 | The single steps of a user command or a reconcile, alone and to its end, make exactly its states and end in its result |
| ConcurrentUsers.EveryMomentIsHistory | apps/admin/src/lock.rs:46-70 | At every moment of every schedule of user commands and reconciles the whole host is a state of the serial run in lock order: all commands before the last, then a prefix of the last one's states |
| ConcurrentUsers.ReadersSeeWholeCommands | crates/compat-config/src/store.rs:135-155 | At every moment of every schedule the store is the effect of the user commands that published, in lock order: lock-free readers see whole lists, ids distinct |
| ConcurrentUsers.NoUpdateLost | apps/admin/src/main.rs:316-330 | When every process got the lock and every user command published, the store is all their operations applied once each in lock order, whatever reconciles ran in between |
| ConcurrentUsers.StoreIsSavedOps | apps/admin/src/main.rs:2030-2054 | The store after any serial run is the published operations applied in order |
| ConcurrentUsers.ScheduleNeverAhead | apps/admin/src/main.rs:2030-2054 | In every schedule, every step any live process takes keeps users.json behind the server, unless its command found the host in a state from which it publishes early; a reconcile leaves users.json alone |
| ConcurrentUsers.ScheduleStaysSound | apps/admin/src/main.rs:1352-1438 | From a sound stamp, while every command finds a host it is safe on, the shortcut is sound at every moment of every schedule, wherever processes die, and no steady command about to take the lock publishes early |
| ConcurrentUsers.ScheduleReconcileTruth | apps/admin/src/main.rs:1500-1512 | In every schedule a reconcile that had the lock last, ran to its end and reports "applied" is right about the host, if and only if it did not take the shortcut on an unsound stamp |
| AdminRuns.RunOne | apps/admin/src/main.rs:304-330 | What each kind of command did, all its states and its end: the exact history of a user command or reconcile; key set or password in force, or back to the state before; archive in place, or rolled back; originals surviving in between |
| AdminRuns.DidKeepsSound | apps/admin/src/main.rs:1352-1361 | Any command from a sound stamp that reports nothing alarming, and any that reloads sing-box healthily, leaves the shortcut sound |
| AdminRuns.DidKeepsAccord | apps/admin/src/main.rs:304-330 | After a clean command of any kind, from a host in accord, sing-box, config.json and the users on disk are one document again |
| AdminRuns.DidUsers | apps/admin/src/main.rs:304-330 | The list before a command and its report determine the list after it |
| AdminRuns.RunCommands | apps/admin/src/main.rs:304-330 | Any sequence of user commands, reconciles, rotations and restores, past every failure, is a run of these |
| AdminRuns.ShelteredIsSound | apps/admin/src/main.rs:1352-1361 | In every mixed run the shortcut is sound as long as every command since the last healthy reload was calm |
| AdminRuns.MixedRunNeverAhead | apps/admin/src/main.rs:2030-2054 | In every mixed run a live user command keeps users.json behind the server in all its steps if and only if it is not early, and a steady one is not as long as the shortcut is sound that way |
| AdminRuns.CleanRunStaysInAccord | apps/admin/src/main.rs:304-330 | In every mixed run with clean results, whatever the kinds and order of the commands, server and store are on one list after each, and the shortcut is sound |
| AdminRuns.StoreIsAsReported | apps/admin/src/main.rs:304-330 | In every mixed run, past every failure but an incomplete restore rollback, the store is what the reports say: the last restored archive's users, or the first list, with the published operations since applied in order |
| ServiceHealth.ReloadAndVerify | apps/admin/src/service.rs:139-162 | Healthy if and only if the reload worked and some three consecutive observations were healthy |
| ShutdownGuard.Guard.Record | crates/failure-classifier/src/lib.rs:83-88 | Recording refines the specification of the window |
| ShutdownGuard.Guard.ShouldSuppressSwitching | crates/failure-classifier/src/lib.rs:100-131 | A query refines the specification of arming, suppressing and releasing |
| ShutdownGuard.Guard.CountFailures | crates/failure-classifier/src/lib.rs:90-96 | Counts the failures of the window |
| ShutdownGuard.WindowIsRecentHistory | crates/failure-classifier/src/lib.rs:83-131 | For any interleaving of calls the window is the last outcomes since the last release |
| ShutdownGuard.ArmingNeedsRecords | crates/failure-classifier/src/lib.rs:100-131 | Arming takes a window of at least four and that many records since the last release, with the failure fraction at the threshold |
| ShutdownGuard.ArmingsAreFarApart | crates/failure-classifier/src/lib.rs:100-131 | Between two armings there is a release, and max(W, 4) records after it |
| ShutdownGuard.SuppressedForOneCooldown | crates/failure-classifier/src/lib.rs:100-131 | After arming, whatever is recorded, queries are suppressed exactly until the cooldown ends, and the first at or after its end is let through by a fresh guard |
| ShutdownGuard.SmallWindowNeverSuppresses | crates/failure-classifier/src/lib.rs:100-131 | A window below four never suppresses, after any calls |
| ShutdownGuard.DialBudget | crates/failure-classifier/src/lib.rs:83-131 | From any state of the guard, successes in its window included, any W + C consecutive failing ticks hold at most W dials, whatever candidates are to hand |
| ShutdownGuard.NoBudgetAboveOne | crates/failure-classifier/src/lib.rs:100-131 | With a threshold above one every tick may dial |
| Scores.EwmaIsWeightedHistory | crates/policy/src/lib.rs:41-82 | The average is 0.5 * 0.7^n plus the weighted successes, and stays in [0, 1] |
| Scores.CountersAreHistory | crates/policy/src/lib.rs:41-82 | Counters are the saturated totals and trailing failure run; a deadline is set exactly when that run is at least three, from the last failure |
| Scores.FailuresSpaced | crates/policy/src/lib.rs:62-76 | From the third failure in a row on, a candidate's failures are at least a minute apart |
| Scores.FailureRateBounded | crates/policy/src/lib.rs:62-76 | Any span without a success holds at most 3 + floor(span / 60) failures |
| Scores.EligibleAfterFiveMinutes | crates/policy/src/lib.rs:73-76 | Five minutes after its last failure a candidate is eligible |
| ScoreBoards.ScoreBoard.ObserveSuccess | crates/policy/src/lib.rs:104-112 | Notes a success at its own candidate only |
| ScoreBoards.ScoreBoard.ObserveFailure | crates/policy/src/lib.rs:115-128 | Notes a remote failure at its own candidate only; a local one changes nothing |
| ScoreBoards.ScoreBoard.SelectNext | crates/policy/src/lib.rs:134-149 | None exactly when every candidate is quarantined, otherwise any eligible one, by the draw |
| ScoreBoards.EligibleExact | crates/policy/src/lib.rs:134-149 | The eligible list is exactly the candidates not quarantined |
| ScoreBoards.ScoresAreSeparate | crates/policy/src/lib.rs:104-128 | Each score is the score of its candidate's own history |
| ScoreBoards.AttemptsConserved | crates/policy/src/lib.rs:104-128 | Below saturation the attempts on the board sum to successes plus remote failures |
| Engine.ConnectionEngine.AttemptOnce | apps/client-daemon/src/engine.rs:139-187 | One pass of the loop is one legal tick; guard, board and tick counter stay those of the log |
| Engine.ConnectionEngine.DialAndRecord | apps/client-daemon/src/engine.rs:148-177 | A dial is recorded with guard and board, local failures with the guard alone |
| Engine.ConnectionEngine.Connect | apps/client-daemon/src/engine.rs:122-192 | Only failed dials keep the loop going; the last tick decides the answer |
| Engine.LogDials | apps/client-daemon/src/engine.rs:139-187 | While the dials of a stretch fail, the engine's dials in it are exactly the guard's failing ticks |
| Engine.EngineDialBudget | apps/client-daemon/src/engine.rs:139-187 | When the dials of W + C consecutive ticks fail, whatever came before, they are at most W (8 in 98 as shipped), whatever quarantine does |
| Engine.DialsAreSequential | apps/client-daemon/src/engine.rs:148-177 | In every run a candidate's recorded dials respect its quarantine |
| Engine.EngineFailureRate | apps/client-daemon/src/engine.rs:148-177 | In every run, a span without a success of a candidate holds at most 3 + floor(span / 60) failures recorded against it |
| Engine.NobodyEligible | apps/client-daemon/src/engine.rs:139-187 | In every run, a tick that finds nobody to dial means every candidate's last three recorded dials failed, the last less than five minutes ago |
| TokenBuckets.RateLimiter.Allow | services/rendezvous/src/lib.rs:75-87 | A call refines the specification of one request |
| TokenBuckets.TakeCosts | services/rendezvous/src/lib.rs:75-87 | An allowed request costs its address exactly one token and others nothing |
| TokenBuckets.RateBound | services/rendezvous/src/lib.rs:75-87 | On every window of every run from an empty limiter an address is allowed at most capacity + rate * duration times |
| TokenBuckets.RestedBucketPays | services/rendezvous/src/lib.rs:75-87 | A bucket left alone for 1 / rate seconds allows the next request |
| TokenBuckets.SpacedCallerNeverDenied | services/rendezvous/src/lib.rs:75-87 | In every run from empty with a capacity of at least one, a call 1 / rate after the previous one of its address is never denied |
| EvictingLimiter.RateLimiter.Allow | services/subscription/src/lib.rs:66-80 | A call is a request followed by an eviction of the specification |
| EvictingLimiter.RateLimiter.EvictFullBuckets | services/subscription/src/lib.rs:104-126 | Nothing below the mark; above it the idle drop (at a rate of zero, idle only with nothing to refill), then the recency trim if still needed |
| EvictingLimiter.Trim | services/subscription/src/lib.rs:114-125 | Sorting and cutting leaves 4096 unaltered buckets, none older than one dropped |
| EvictingLimiter.SortRecentSorts | services/subscription/src/lib.rs:120-122 | The sort is by recency and loses and repeats no address |
| EvictingLimiter.CallBoundsMap | services/subscription/src/lib.rs:66-126 | A call adds at most one bucket, a pass leaves at most 4096, the map at most 8192, and eviction alters no bucket |
| EvictingLimiter.IdlePassDropsNothing | services/subscription/src/lib.rs:104-126 | With a capacity of at least one the idle drop removes nothing: a pass is exactly the recency trim |
| EvictingLimiter.PassesFarApart | services/subscription/src/lib.rs:104-126 | Between two passes there are at least 4097 inserts |
| EvictingLimiter.MapStaysBounded | services/subscription/src/lib.rs:66-126 | In every run from empty the map holds at most 8192 buckets, all strictly below capacity when that is at least one |
| EvictingLimiter.RunKeepsRecent | services/subscription/src/lib.rs:66-126 | In every run from empty, whatever the capacity, eviction never keeps a bucket older than one it drops, and with a capacity of at least one each pass leaves exactly 4096 |
| EvictingLimiter.EvictionKeepsRecent | services/subscription/src/lib.rs:104-126 | On buckets at one level the idle drop and the trim both go by age |
| EvictingLimiter.WindowBound | services/subscription/src/lib.rs:66-126 | On every window an address is allowed at most one capacity per pass more than without eviction |
| EvictingLimiter.EvictingRateBound | services/subscription/src/lib.rs:66-126 | From empty, over n calls from any mix of addresses, one address is allowed at most capacity * (1 + n / 4097) + rate * duration times |
| EvictingLimiter.SpacedCallerNeverDenied | services/subscription/src/lib.rs:66-126 | With a capacity of at least one, a call 1 / rate after all earlier ones of its address is never denied, whatever others do |
| Utf8.ValidCut | crates/common/src/framing.rs:69-72 | Valid UTF-8 (section 4 of RFC 3629) cut before anything but a continuation byte is two valid texts |
| Framing.EncodeDestination | crates/common/src/framing.rs:35-46 | The header of a host of at most 255 bytes, HostTooLong exactly otherwise |
| Framing.RoundTrip | crates/common/src/framing.rs:51-76 | Decoding inverts encoding under any trailing bytes |
| Framing.ProperPrefixNeedsMore | crates/common/src/framing.rs:51-76 | Every proper prefix of a header asks for more |
| Framing.AnswerIsStable | crates/common/src/framing.rs:51-76 | Any answer other than "more" is unchanged by further bytes |
| Framing.Canonical | crates/common/src/framing.rs:51-76 | What was decoded encodes to the very bytes consumed |
| Framing.NeedMoreIsHonest | crates/common/src/framing.rs:51-76 | Whenever more is asked for, some continuation ends the wait |
| Framing.ReadDestination | crates/common/src/framing.rs:88-113 | Reading step by step off a stream answers as the buffer decoder does on what the stream holds, and consumes exactly the header; a truncated header is an end of file, or a bad host if that is already complete |
| Framing.DecodersAgree | crates/common/src/framing.rs:88-113 | On complete headers both decoders give the destination, and they succeed on the same inputs |
| Framing.ForwardHeader | services/relay-agent/src/lib.rs:178-203 | An ingress forwards exactly the header bytes it took from the client, and nothing when it refuses them |
| TokenScanner.Scan | apps/admin/src/main.rs:3620-3642 | The scanner with its two indices computes the piecewise specification |
| TokenScanner.ScrubbedIsPiecewise | apps/admin/src/main.rs:3620-3642 | It is: split, replace exactly the secret-looking runs, concatenate |
| TokenScanner.SplitLosesNothing | apps/admin/src/main.rs:3620-3642 | The pieces concatenated are the text |
| TokenScanner.PiecesAlternate | apps/admin/src/main.rs:3620-3642 | Pieces are all token bytes or free of them and alternate: no run is cut short |
| TokenScanner.RunsArePieces | apps/admin/src/main.rs:3620-3642 | Every maximal token run is a piece |
| TokenScanner.OutputHasNoSecret | apps/admin/src/main.rs:3620-3642 | With a fenced mark no secret-looking run is left, whatever looks secret |
| TokenScanner.KeepsUtf8 | apps/admin/src/main.rs:3614-3642 | Every slice falls on a character boundary: valid UTF-8 stays valid |
| Redact.UuidShape | apps/admin/src/main.rs:3589-3596 | The split-and-compare test is exactly: 36 bytes, four dashes in place, the rest hexadecimal |
| Redact.RedactSecrets | apps/admin/src/main.rs:3585-3642 | The shipped scanner computes the specification of redaction |
| Redact.NoSecretSurvives | apps/admin/src/main.rs:3585-3642 | No maximal token run of the output looks secret |
| Redact.RedactsExactlySecrets | apps/admin/src/main.rs:3585-3642 | Text is changed if and only if it holds a secret-looking run |
| Redact.RedactIsIdempotent | apps/admin/src/main.rs:3585-3642 | Redacting twice is redacting once |
| Redact.RedactKeepsUtf8 | apps/admin/src/main.rs:3614-3642 | Redacted text is valid UTF-8 |
| Revocation.ComputeSigningBytes | crates/config/src/revocation.rs:75-82 | The appending loop yields the time followed by the keys |
| Revocation.SigningBytesInjective | crates/config/src/revocation.rs:75-82 | One signed byte string stands for one list at one time |
| Revocation.IssuedListVerifies | crates/config/src/revocation.rs:60-98 | A list issued under a root-certified release key verifies to exactly its keys |
| Revocation.BelievedListWasIssued | crates/config/src/revocation.rs:60-98 | With no forged signature in circulation, a believed list of none or several keys is word for word, keys and time, one issued by a release key the root certified |
| Revocation.BelievedExactly | crates/config/src/revocation.rs:60-98 | With no forged signature in circulation, some signature in circulation makes a list believed if and only if its certified release key issued it, or certified a bundle key in the same bytes, and then it names one key |
| Revocation.ListReadsAsCertificate | crates/crypto/src/hierarchy.rs:33-38 | List and certificate share their signed bytes if and only if the list has one key and the certified key is its time followed by 24 bytes of it, the rest being the certificate's time |
| Revocation.CertificateReadsAsList | apps/keytool/src/main.rs:160-192 | Every bundle certificate's signature makes a one-key list believed that nobody issued |
| Revocation.HonestWorldSigns | crates/config/src/revocation.rs:60-98 | In every correct scheme, a world in which the root certified one other release key, and that key signed any set of lists and any set of certificates, meets the assumptions of the two theorems |
| Revocation.HypothesesAreMet | crates/config/src/revocation.rs:60-98 | There is a correct scheme with such worlds |
| Revocation.ShadowIsCertificate | apps/keytool/src/main.rs:160-192 | In every such world the one-key list a bundle certificate reads as is believed, shares the certificate's bytes, and is not issued unless it is among the lists |
| Revocation.SortKeysSorts | apps/keytool/src/main.rs:223-223 | The sort is a sorted permutation, byte by byte |
| Revocation.DedupIsStrict | apps/keytool/src/main.rs:224-224 | Dropping equal neighbours of a sorted list leaves no duplicates |
| Revocation.ListedIsStrictUnion | apps/keytool/src/main.rs:213-224 | The listed keys are sorted, duplicate-free and exactly the union of old and new |
| Revocation.StrictIsCanonical | apps/keytool/src/main.rs:223-224 | A sorted duplicate-free list is determined by its set of keys |
| Revocation.RevokeIssue | apps/keytool/src/main.rs:193-231 | Refused exactly for a wrong certificate, unreadable existing list, bad key or existing output; otherwise the signed sorted union |
| Revocation.ChainIsUnion | apps/keytool/src/main.rs:213-224 | Along any chain of re-issues the list is exactly the keys revoked so far |
| Revocation.ChainGrows | apps/keytool/src/main.rs:213-224 | No key ever leaves the list |
| Revocation.ChainsConverge | apps/keytool/src/main.rs:213-224 | Chains that revoked the same keys, in whatever order, end in the same list |
| Revocation.Reissue | apps/keytool/src/main.rs:193-231 | A ceremony with the newest list given as existing extends the chain |
| Bundles.VerifiedExactly | crates/config/src/lib.rs:108-165 | A payload is believed if and only if it is authentic, inside its time window and under no revoked key |
| Bundles.VerifyIsAntitone | crates/config/src/lib.rs:108-165 | Revoking more never makes a bundle acceptable, nor changes what an accepted one says |
| Bundles.RevokingIsSelective | crates/config/src/lib.rs:108-165 | Revoking refuses exactly the bundles under the new keys, as RevokedKey |
| Bundles.SignedBundleVerifies | crates/config/src/lib.rs:86-102 | What is signed under a root-certified chain is believed exactly when neither key is revoked, the schema is supported and the clock is in the window, and then word for word |
| Bundles.RendezvousClient.GetBundle | crates/rendezvous-client/src/lib.rs:91-113 | A bundle is believed exactly when it passes at this call and, if fetched, is cached; every error is determined; the cache changes only to a fetched bundle that passed, or is torn by its write; a network failure never changes it |
| Bundles.RendezvousClient.WriteCache | crates/rendezvous-client/src/lib.rs:115-120 | A plain write completes, fails untouched or tears the file |
| Bundles.RendezvousClient.ReadCache | crates/rendezvous-client/src/lib.rs:122-129 | NoCache, Io or CacheCorrupt exactly for an absent, unreadable or unparsable file |
| Bundles.RunClient | crates/rendezvous-client/src/lib.rs:91-129 | In every run each believed payload passed at its own call, and the cache holds what it held at first or a bundle that passed when written |
| Bundles.RevokedForGood | crates/config/src/lib.rs:108-165 | A bundle under a key revoked in any ceremony up to the list in force is refused at every later call |
| Bundles.RunUnderRevocations | crates/rendezvous-client/src/lib.rs:91-129 | From the first call that uses a list naming a key on, no answer of the run rests on that key, from network or cache |
| RelayIdle.SilentIsGap | services/relay-agent/src/lib.rs:154-171 | A window without activity is a gap of at least the idle period |
| RelayIdle.LastIsRecent | services/relay-agent/src/lib.rs:154-171 | A window after one with activity ends within two windows of the last byte counted before it |
| RelayIdle.CopyWithIdleTimeout | services/relay-agent/src/lib.rs:140-172 | For every trace, endless ones included: an abort ends a silent window, the first one; no abort while gaps stay below idle; it comes at least idle and at most two windows after the last byte, whatever the session's length; a session whose bytes end is finished or aborted |
| RelayIdle.PunctualBound | services/relay-agent/src/lib.rs:154-171 | With punctual timers the abort comes between one and two idle periods after the last byte, and exactly one if and only if that byte moved at the instant of the check before |
| RelayIdle.AbortedOnTheDot | services/relay-agent/src/lib.rs:154-171 | A session aborted exactly one idle period after its only byte |
| RelayIdle.BusySessionIsNeverAborted | services/relay-agent/src/lib.rs:140-172 | A session whose gaps stay below idle, finite or endless, is never aborted, however long it is watched |

## Left out

- `doctor`, `status`, reports, QR codes, `init` and the interactive commands: output plumbing and one-way setup; they would only add easy members.
- JSON, TOML and tar bytes: documents are datatypes and archives are sequences of entries; schema migration of the store is only its two readable forms.
- File modes, ownership, fsync and temporary files: a rename is atomic and durable; a failing mode change is an answer like any other.
- Cryptography: derivation, hashing and signatures are arbitrary functions; only "what is signed checks out", "what checks out was signed" and "parsing undoes writing" are assumed, and only where stated.
- Offline mutation mode: it gives up the live guarantees by design, so the theorems about user mutations are about live commands.
- Floating-point rounding in scores and limiters, and overflow of the 64-bit tick counter.
- Overlapping `connect` calls on one engine: budgets and rates are those of a sequential engine.
- The weights of candidate selection: the draw is an arbitrary choice among the eligible.
- TLS, QUIC, SOCKS and HTTP plumbing, the header-read and dial timeouts of the relay, and the probes behind the health query.
- Locking itself: the operating system's lock is taken to be mutual exclusion released at death.
- Rotations and restores as interleaved single steps: under the lock they are proved step by step in a history of their own, and only user commands and reconciles are scheduled against each other.
- Rotation.ObfsRotate: no handshake self-test takes part, because the command has none.
