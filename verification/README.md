# Verified model of cocli's crash-safe governance, delivery and import logic

cocli manages the Skills, servers and message deliveries of coding agents. Its hard parts are protocols:
a governed file is replaced in phases that may be interrupted anywhere and must then be undone from a
journal; messages overflow from a bounded mailbox into a bounded queue without losing their order; a bundle
import is previewed and must then commit. This project models those protocols in Dafny and proves what they
keep over every run.

## The parts

- `Artifact`, `Digits`, `Sorting`: a Skill artifact, the canonical bytes that are hashed, and a parser that
  undoes them. Equal bytes mean equal collections of files, in any order and with any content.
- `RelativePath`, `Staging`, `StagingRoundTrip`: directory trees, the copy-staging writer and the walk. They
  undo each other exactly for *stageable* lists: normal, NUL-free paths without a marker component, none a
  directory prefix of another, normalised modes.
- `FileSystem`, `Mutation`, `MutationPhases`: a disk on which every operation may fail (unless it is
  `reliable`) and others may write (unless it is `quiet`), with a log of all states it went through. Prepare,
  backup, stage, activate and rollback are methods on it; a crash is a stop at any state of the log.
- `Journal`, `Resume`, `ApplyRun`: action rows with receipts, reverse compensation, what any number of
  compensation passes keeps when each may fail or stop anywhere, verification, and the whole apply run with its
  recovery and rollback, and with the installation into the managed store. Calls to the row store or the lease may
  fail at any time.
- `ManagedStore`: the content-addressed store of artifacts, over any number of runs.
- `Rebind`, `BundleImport`: the placeholder scanner, sequential replacement, the import preview and the commit.
- `DeliveryQueue`, `Router`: mailboxes, the overflow queue and the counters as a state machine over handler and
  actor steps, and the class whose methods are proved to take those steps.
- `Recovery`, `DeliveryWorker`, `Idempotency`, `Chunked`: probe scheduling, delivery batches and the start-up
  gate, idempotent creation, and chunked decoding (section 7.1 of RFC 9112).

## What the proofs found

- **Rollback can restore and still report an error.** When the fingerprints before and after are equal and no
  backup was taken yet, rollback moves the original out and then puts it back, and returns an error; stopped
  between the two, the original is stranded in the quarantine. `RollbackRestores`, `RollbackIsInterruptible`
  and `StrandedState` give the exact condition (`Decidable`).
- **Activation checks after it has renamed.** An artifact that is not stageable is renamed into place and then
  found wrong. The target stays *misplaced*: rollback refuses it, or accepts it when it happens to have the old
  fingerprint (`MisplacedStays`); a store entry is spoiled for good, on a disk without faults too
  (`InstallMisfit`; `MarkerFileSpoilsEntry` for a manifest beside a root file named like the marker).
  Runs that may meet such artifacts are covered too, with restoration up to fingerprints (`exact` is false).
- **A second compensation pass can miss, and a later one hides it.** A pass skips rows already rolled back, and
  goes on to earlier rows when a later one on the same target fails. If before *every* pass no row is rolled back
  before a later one on its target (`Ordered`), a pass without errors leaves every path as before the run, after any
  number of failed or interrupted passes and with repeated targets (`CompensateActions`, `RollbackRun`,
  `RollbackRepeatedly`). The check is needed before each pass: the journal of one pass does not tell. Two rows undone in
  the wrong order both report success and leave the wrong content if and only if the first changed the target and the second changed it back, or
  kept what the first had installed where nothing was (`OutOfOrderMisses`); after that the journal reads ordered
  again, and another pass finds nothing to do and marks the run rolled back (`DisorderHides`). What one pass without
  errors does to any journal and disk is exact: fingerprints are as before the run if and only if on each path the
  lowest pending row found what the first row found, or no row is pending and the path was as before already
  (`PassExact`).
- **A NUL in a path makes two accepted artifacts hash alike** (`NulPathCollides`).
- **A delivery waits behind a mailbox with room only until the next flush.** "Overflow means a full mailbox"
  holds when a handler ends, not after the actor's next receive (`RunKeepsInv`, `DeliverLeavesNoRoom`,
  `WaitsBehindRoom`); a receive between flush and send lets a new delivery overtake (`ReceiveBetweenBreaksOrder`,
  `OvertakingRun`).
- **The preview accepts what the commit rejects**: runtimes bound under their bare name, and profile ids that
  are no UUIDs; nothing else (`PreviewPredictsCommit`). The capability comparison is in the derived order,
  where `Supported` is least, so a weaker destination is never reported and a better one is
  (`WeakerDestinationUnreported`, `BetterDestinationReported`), although the message says the opposite.
- **Idempotent creation ends where the record is lost.** If the store fails between the creation and its record, a
  retry creates a second resource (`RetryCreatesAgain`), and only then (`DuplicateMeansLostRecord`).
- **Bindings are scanned again**: a replacement that spells a placeholder is itself replaced
  (`BindingsAreRescanned`).
- **A recovery hint overrides the probe ladder** (`HintOverridesLadder`): with a hint in force the probe is due
  exactly when the hint has passed (`HintDecides`), without one the ladder holds, manual probes included
  (`LadderRespected`). The five-minute rung is never waited for (`ProbeMeansAttempt`).
- **A chunked body that stops within a chunk's closing bytes slices out of range**, and only such a body does
  (`OutOfRangeExact`).

## Assumptions

- SHA-256 is ideal: a digest is its preimage under a free constructor. The text hashed for a symlink is kept as
  its parts, under a constructor of its own, so no file has the digest of a link.
- A fingerprint does not depend on where an entry sits: links are absolute.
- Backup, staging and quarantine paths carry action ids that are never used twice (`FreshIds`), and nobody else
  writes to a governed scope between the start of a run and the end of its compensation (`quiet`), except where a
  statement says otherwise.
- The managed store lies apart from all governed scopes: it is a disk of its own.
- A rename needs its source, and replaces only a non-directory by a non-directory or an empty directory by a
  directory.
- Handlers of the router are atomic; requests to the bridge are serialised by its lock; store transitions
  happen completely or not at all.

## Model

| member | source | states |
|---|---|---|
| `Digits.ValueOfPrint` | crates/cocli-api/src/skill_apply.rs:157-159 | reading back the octal mode or decimal length printed for any number gives the number |
| `Artifact.ParseUndoesEncode` | crates/cocli-api/src/skill_apply.rs:153-164 | a parser reads every list of NUL-free paths back from its frames, whatever bytes the contents hold |
| `Artifact.CanonicalBytesInjective` | crates/cocli-api/src/skill_apply.rs:135-164 | canonical bytes are equal if and only if the two lists hold the same files, in any order |
| `Artifact.NulPathCollides` | crates/cocli-api/src/skill_apply.rs:128-172 | for every manifest, path behind it, mode and content within the limits, two accepted artifacts with different files and one digest, a NUL in the path of one |
| `Artifact.HasAdjacentDuplicate` | crates/cocli-api/src/skill_apply.rs:136-141 | the window scan finds neighbours with one path exactly when there are some |
| `Artifact.AdjacentFindsDuplicates` | crates/cocli-api/src/skill_apply.rs:135-141 | after sorting, no equal neighbours means no equal paths anywhere |
| `Artifact.CheckedTotal` | crates/cocli-api/src/skill_apply.rs:142-146 | the checked fold is the exact total, and fails exactly when it exceeds the machine word |
| `Artifact.Serialize` | crates/cocli-api/src/skill_apply.rs:154-164 | the loop that pushes fields and separators builds the frames of all files in order |
| `Artifact.FinishArtifact` | crates/cocli-api/src/skill_apply.rs:128-172 | refines the verdict `Finish`, error by error in the order of the checks |
| `Artifact.FinishExact` | crates/cocli-api/src/skill_apply.rs:128-172 | a list is accepted if and only if its paths are distinct, it has a root manifest and both limits hold, whatever its order |
| `Artifact.FinishAccepts` | crates/cocli-api/src/skill_apply.rs:128-172 | an accepted bundle holds a permutation of the files in strict path order and the digest of their canonical bytes |
| `Artifact.ContentDigestIdentifiesFiles` | crates/cocli-api/src/skill_apply.rs:128-172 | accepted bundles with NUL-free paths have one digest if and only if they hold the same files |
| `RelativePath.SafeComponents` | crates/cocli-api/src/skill_apply.rs:842-853 | a path that passes validation has at least one component, all of them normal names |
| `RelativePath.ComponentsUndoJoin` | crates/cocli-api/src/skill_apply.rs:837-867 | joining names with slashes gives a safe path whose components are those names |
| `Staging.NormalizedMode` | crates/cocli-api/src/skill_apply.rs:922-930 | the nine permission bits as they are, or 0o644 when they are all zero |
| `Staging.WalkLocalArtifact` | crates/cocli-api/src/skill_apply.rs:174-220 | succeeds exactly on trees without links and special files within the file limit, and returns all files in order, markers skipped |
| `Staging.WriteCopyStaging` | crates/cocli-api/src/skill_apply.rs:746-777 | the writing loop builds the tree `Stage` of the files and the marker, or fails where it does |
| `StagingRoundTrip.PutAddsFile` | crates/cocli-api/src/skill_apply.rs:754-768 | writing a file at an unrelated path adds exactly that file to what a walk finds |
| `StagingRoundTrip.RoundTripExact` | crates/cocli-api/src/skill_apply.rs:174-220 | walking what was staged returns the same files if and only if the list is stageable |
| `StagingRoundTrip.StagedDigestExact` | crates/cocli-api/src/skill_apply.rs:341-352 | the fingerprint check after activation passes if and only if the bundle is stageable |
| `FileSystem.Disk.FingerprintPath` | crates/cocli-api/src/skill_apply.rs:555-586 | the fingerprint of the entry at a path, `Missing` included, or an error |
| `FileSystem.Disk.Rename` | crates/cocli-api/src/skill_apply.rs:530-537 | moves one entry and touches nothing else, or fails without a change |
| `FileSystem.Disk.RemoveAny` | crates/cocli-api/src/skill_apply.rs:823-835 | the path is gone and nothing else changed, also when it was missing; a directory may fail half way |
| `Mutation.OriginalInOnePlace` | crates/cocli-api/src/skill_apply.rs:295-352 | at every step the original entry is in exactly one of target and backup |
| `Mutation.RollbackRestores` | crates/cocli-api/src/skill_apply.rs:503-553 | from every interrupted state rollback puts the original back and removes the staging entry; it returns Ok if and only if the state was decidable |
| `Mutation.RollbackIsInterruptible` | crates/cocli-api/src/skill_apply.rs:529-544 | every state rollback passes through is again recoverable, if and only if the state was decidable or the quarantine is taken |
| `Mutation.StrandedState` | crates/cocli-api/src/skill_apply.rs:529-544 | otherwise a crash between the renames leaves the original in the quarantine, and no later rollback moves it |
| `Mutation.RollbackConverges` | crates/cocli-api/src/skill_apply.rs:503-553 | with different fingerprints, rollback interrupted anywhere and run again ends in the same state with Ok, and once more changes nothing |
| `Mutation.MisplacedStays` | crates/cocli-api/src/skill_apply.rs:519-521 | an activated entry with a wrong fingerprint is left in place; rollback returns Ok if and only if it has the old fingerprint |
| `Mutation.RollbackLosesNothing` | crates/cocli-api/src/skill_apply.rs:503-553 | on any disk whatsoever, every step of rollback only permutes the entries at target, backup and quarantine |
| `Mutation.RollbackSparesOutsideEdits` | crates/cocli-api/src/skill_apply.rs:519-521 | a target that is neither old, new nor missing is not touched, and an error is returned |
| `Mutation.AttemptGoesOn` | crates/cocli-api/src/skill_apply.rs:503-553 | each single disk operation of a rollback, in whatever state and order, keeps what is known of a receipt that is alone on its target |
| `Mutation.ExposedEnds` | crates/cocli-api/src/skill_apply.rs:544-546 | a rollback that reports success from such a state has put the very original back; one whose backup was used up out of turn never reports success |
| `MutationPhases.Prepare` | crates/cocli-api/src/skill_apply.rs:240-293 | the receipt tells the present and the announced fingerprint and has its own paths; refusal exactly on an unreadable target, a failed expectation or a missing source |
| `MutationPhases.Backup` | crates/cocli-api/src/skill_apply.rs:295-314 | success means the backup has the announced fingerprint, even among outside writes; every state passed is recoverable |
| `MutationPhases.StageCopy` | crates/cocli-api/src/skill_apply.rs:746-777 | only the staging path changes, torn trees included; success means the complete tree |
| `MutationPhases.StagePayload` | crates/cocli-api/src/skill_apply.rs:316-339 | copies, links and file writes are staged completely on success, and every state passed is recoverable |
| `MutationPhases.MoveActivates` | crates/cocli-api/src/skill_apply.rs:341-352 | the rename activates the staged entry, or misplaces it when its fingerprint is not the announced one |
| `MutationPhases.Activate` | crates/cocli-api/src/skill_apply.rs:341-352 | success means the announced fingerprint at the target and the original in the backup; on a reliable disk exactly for faithful payloads |
| `MutationPhases.RestoreBackup` | crates/cocli-api/src/skill_apply.rs:536-552 | restores the backup or puts the quarantined entry back; success only with the original in place |
| `MutationPhases.Decide` | crates/cocli-api/src/skill_apply.rs:508-535 | stops with a verdict or has moved the applied entry away, within the reachable states |
| `MutationPhases.Rollback` | crates/cocli-api/src/skill_apply.rs:503-553 | refines `RollbackSteps` on a reliable disk; on a failing one stays recoverable and reports success only when the original is back; in any state takes only its own moves and ends with the target verified |
| `Journal.WriteAhead` | crates/cocli-api/src/skill_apply_http.rs:1319-1405 | at every point of a run, a target that differs from its content before the run is named by a journaled receipt |
| `Journal.CompensationRestores` | crates/cocli-api/src/skill_apply_http.rs:1989-2098 | for every journal, repeated targets included, reverse compensation brings every path back; it is free of errors if and only if the last row can be undone on the disk as it is found |
| `Journal.InterruptedRunRecovers` | crates/cocli-api/src/skill_apply_http.rs:2258-2336 | the same for a run that stopped anywhere on its way forward, was marked interrupted and is then rolled back |
| `Journal.InterruptedPassRecovers` | crates/cocli-api/src/skill_apply_http.rs:1989-2098 | a pass stopped in any state of the rollback of any row and run again restores every path, repeated targets included |
| `Resume.CoveredSound` | crates/cocli-api/src/skill_apply_http.rs:920-1022 | a run that only went forward, to any point, can be compensated |
| `Resume.TurnComes` | crates/cocli-api/src/skill_apply_http.rs:2008-2023 | when the second row on a target is rolled back, the first is settled, or its own paths show that it can no longer be undone |
| `Resume.SoundStep` | crates/cocli-api/src/skill_apply_http.rs:2023-2096 | an attempt on one row of an ordered journal, whatever state it stops in and whatever it reports, leaves a run that can be taken up again |
| `Resume.RecoveredResumes` | crates/cocli-api/src/skill_apply_http.rs:2284-2313 | marking rows of an interrupted run, in mid-rollback too, keeps it ready to be taken up |
| `Resume.AllUndoneRestores` | crates/cocli-api/src/skill_apply_http.rs:1989-2098 | once every receipt is rolled back, over any number of passes with ordered journals, every path is as before the run |
| `Resume.PassExact` | crates/cocli-api/src/skill_apply_http.rs:2018-2023 | after a pass without errors over any journal and disk, all fingerprints are those from before the run if and only if on each path the lowest pending row found what the first found, or none is pending and the path was as before already |
| `Resume.OutOfOrderMisses` | crates/cocli-api/src/skill_apply_http.rs:2018-2023 | two rows of a run on one target undone in the wrong order both report success and leave another fingerprint, if and only if the first changed it and the second changed it back or kept what was installed where nothing was |
| `Resume.DisorderHides` | crates/cocli-api/src/skill_apply_http.rs:490-531 | between the two passes the journal is out of order; after them it reads ordered, nothing is pending on the target, and the target is still not what it was |
| `ApplyRun.KeptAdvance` | crates/cocli-api/src/skill_apply_http.rs:1319-1405 | every disk state a phase goes through is a point at which the journal covers the run |
| `ApplyRun.Run.Transition` | crates/cocli-api/src/skill_apply_http.rs:1850-1872 | a row moves on only together with what its receipt accounts for, and the new journal is recorded as a crash point; otherwise nothing changes |
| `ApplyRun.LoggedAdvance` | crates/cocli-api/src/skill_apply_http.rs:1319-1405 | no state the disk goes through in a phase is missing from the crash points |
| `ApplyRun.Run.CreateRow` | crates/cocli-api/src/skill_apply_http.rs:922-936 | a Pending row without a receipt is added behind the others, with the disk as it is then as its snapshot, and both recorded as a crash point |
| `ApplyRun.Run.Open` | crates/cocli-api/src/skill_apply_http.rs:920-952 | a new row passes Pending and Preflight before anything is done, both recorded as crash points |
| `ApplyRun.Run.LockRow` | crates/cocli-api/src/skill_apply_http.rs:1301-1329 | the receipt of the action, for its target, its expected entry and its announced one, is journaled while the target is still untouched |
| `ApplyRun.Run.BackupRow` | crates/cocli-api/src/skill_apply_http.rs:1341-1363 | backup behind the journal; the run stays covered |
| `ApplyRun.Run.StageRow` | crates/cocli-api/src/skill_apply_http.rs:1365-1388 | staging behind the journal; the run stays covered |
| `ApplyRun.Run.ActivateRow` | crates/cocli-api/src/skill_apply_http.rs:1390-1405 | activation behind the journal; the run stays covered |
| `ApplyRun.Run.InstallArtifact` | crates/cocli-api/src/skill_apply_http.rs:1331-1339 | the store only gains an entry, in every state it goes through |
| `ApplyRun.Run.ExecuteMutation` | crates/cocli-api/src/skill_apply_http.rs:1577-1718 | a Skill or lockfile mutation ends Written or LockfileWritten with the receipt of the action, or fails covered by the journal |
| `ApplyRun.Run.ExecuteAction` | crates/cocli-api/src/skill_apply_http.rs:1240-1412 | the same for every action, store-only lockfile updates included |
| `ApplyRun.Run.RollbackRow` | crates/cocli-api/src/skill_apply_http.rs:2042-2044 | every disk state on the way is recorded as a point, each of them can be resumed, and success means the target is verified |
| `ApplyRun.Run.CompensateOne` | crates/cocli-api/src/skill_apply_http.rs:2023-2096 | a row ends RolledBack only with its target verified, other rows' paths are not touched, and the run can be taken up again whatever fails |
| `ApplyRun.Run.CompensateActions` | crates/cocli-api/src/skill_apply_http.rs:1989-2098 | if the journal is ordered and was before every earlier pass: no errors means every path is as before the run, and every point of the pass, a lost lease included, can be resumed; with any journal and disk, every state the disk goes through is among those points, only paths of pending rows are touched and, without errors, the lowest pending rows have their targets verified |
| `ApplyRun.Run.RecoverInterruptedRun` | crates/cocli-api/src/skill_apply_http.rs:2258-2336 | Running and RollingBack runs become RecoveryRequired as far as the store lets them, with the same receipts and the same rows rolled back; finished runs stay |
| `ApplyRun.Run.RollbackRun` | crates/cocli-api/src/skill_apply_http.rs:478-582 | another pass over any stopped, failed or succeeded run: RolledBack with every path as before the run if the journal was ordered before this and every earlier pass, and with the lowest pending targets verified in any case |
| `ApplyRun.Run.VerifyReceipts` | crates/cocli-api/src/skill_apply_http.rs:1947-1974 | verified if and only if every receipt's target has its announced fingerprint and the inventory check passes |
| `ApplyRun.Run.FinalizeRows` | crates/cocli-api/src/skill_apply_http.rs:1874-1933 | every written row goes through Refreshing to Verified or RecoveryRequired, others stay |
| `ApplyRun.Run.ExecuteActions` | crates/cocli-api/src/skill_apply_http.rs:920-1022 | all rows written, each for its action and with its receipt collected, or a stop at the first failure, covered at every point |
| `ApplyRun.Run.ExecuteApply` | crates/cocli-api/src/skill_apply_http.rs:870-1077 | ends Succeeded, RolledBack or RecoveryRequired, or stays Running when a store call fails; RolledBack only with every path restored; Succeeded only with the entry that each action announces at its target and every row through Refreshing to Verified; every state the disk went through is that of a recorded point, and every recorded point, in verification and compensation too, can be resumed; the store only grew |
| `ApplyRun.Run.UndoRun` | crates/cocli-api/src/skill_apply_http.rs:976-1020 | after a failed action: RolledBack only with every path restored, and no state of the disk, forward or back, without a recorded point |
| `ApplyRun.Run.VerifyRun` | crates/cocli-api/src/skill_apply_http.rs:1025-1077 | Succeeded only when every row serves its action and the entry announced is on the disk |
| `ApplyRun.Run.RollbackRepeatedly` | crates/cocli-api/src/skill_apply_http.rs:478-582 | after any number of rollbacks and recoveries, each of which may fail or stop: if the journal was ordered whenever one began, the run can be taken up again and is marked rolled back only with every path as before the run |
| `ApplyRun.AllStatesRecorded` | crates/cocli-api/src/skill_apply_http.rs:870-1077 | the points of the way forward and of the way back leave out no state of the disk |
| `ApplyRun.EveryStateResumes` | crates/cocli-api/src/skill_apply_http.rs:870-1077 | for every state of the disk there is a recorded journal from which the run can be taken up |
| `ApplyRun.ForwardPointResumes` | crates/cocli-api/src/skill_apply_http.rs:870-1077 | a crash at any recorded point on the way forward leaves a run that can be compensated |
| `ApplyRun.ApplyRuns` | crates/cocli-api/src/skill_apply_http.rs:1331-1339 | over any number of runs on any disks with one store, whatever becomes of them, no entry changes and, for faithful copies, every entry has the digest of its name, in every state |
| `ManagedStore.CopyFaithfulExact` | crates/cocli-api/src/skill_apply.rs:341-352 | an accepted bundle can be staged with the announced fingerprint if and only if it is stageable |
| `ManagedStore.PrepareManaged` | crates/cocli-api/src/skill_apply.rs:406-444 | nothing to do for a present entry, an error for one with another digest, else a receipt for a new entry named by its digest |
| `ManagedStore.InstallManaged` | crates/cocli-api/src/skill_apply_http.rs:1331-1339 | in every state passed no existing entry changed and, for faithful copies, every entry has the digest of its name |
| `ManagedStore.StoredLinkFaithful` | crates/cocli-api/src/skill_apply_http.rs:1178-1198 | a link to an artifact that was stored successfully announces the digests found at its destination |
| `ManagedStore.MisfitSpoilsEntry` | crates/cocli-api/src/skill_apply.rs:341-352 | the staged entry of an accepted bundle that is not stageable matches neither its name nor absence |
| `ManagedStore.InstallMisfit` | crates/cocli-api/src/skill_apply.rs:406-444 | installing such a bundle on a disk without faults fails and leaves that entry, and preparing it again is refused |
| `ManagedStore.MarkerFileSpoilsEntry` | crates/cocli-api/src/skill_apply.rs:746-777 | a manifest beside a root file named like the marker, with any contents within the limit, is such a bundle |
| `Rebind.RebindPlaceholders` | crates/cocli-api/src/mcp_http.rs:1655-1667 | the scanning loop returns the keys of `Placeholders` |
| `Rebind.ScanFindsKeys` | crates/cocli-api/src/mcp_http.rs:1655-1667 | on tame text and placeholders it finds exactly the placeholders, in order and with repetitions |
| `Rebind.ReplaceRebindPlaceholders` | crates/cocli-api/src/mcp_http.rs:1669-1681 | the replacing loop computes `ReplacePlaceholders`, failing where it does |
| `Rebind.ReplaceKeysSucceeds` | crates/cocli-api/src/mcp_http.rs:1669-1681 | replacement fails if and only if a found key is not bound |
| `Rebind.ReplaceBinds` | crates/cocli-api/src/mcp_http.rs:1669-1681 | textual replacement of one placeholder replaces exactly its own holes |
| `Rebind.SequentialIsSimultaneous` | crates/cocli-api/src/mcp_http.rs:1655-1681 | for tame text (the opening mark `{{rebind:` neither occurs in it nor begins at its end) in the value and in the bindings of its own keys, replacing key after key is the one-pass substitution and leaves no placeholder |
| `Rebind.BindingsAreRescanned` | crates/cocli-api/src/mcp_http.rs:1669-1681 | a binding that spells another placeholder is replaced in turn |
| `BundleImport.Dedup` | crates/cocli-api/src/mcp_http.rs:1527-1527 | the same diagnostics remain, no two neighbours equal |
| `BundleImport.DedupKeepsOrder` | crates/cocli-api/src/mcp_http.rs:1506-1527 | what was sorted stays sorted |
| `BundleImport.CheckExpectations` | crates/cocli-api/src/mcp_http.rs:1328-1366 | the loop reports missing runtimes and operations ranked below the expectation |
| `BundleImport.CheckServers` | crates/cocli-api/src/mcp_http.rs:1406-1466 | the loop reports unbound or uninstalled runtimes, unbound secrets and unbound placeholders |
| `BundleImport.CheckProfiles` | crates/cocli-api/src/mcp_http.rs:1368-1467 | the loop reports missing or outdated target profiles and their servers' diagnostics |
| `BundleImport.BuildPreview` | crates/cocli-api/src/mcp_http.rs:1299-1548 | the sorted diagnostics without duplicates and the number of blocking ones |
| `BundleImport.PreviewExact` | crates/cocli-api/src/mcp_http.rs:1299-1548 | the blocking count is zero if and only if everything is bound, installed, present and at its version |
| `BundleImport.BuildBundleImportCommit` | crates/cocli-api/src/mcp_http.rs:1572-1620 | the building loop computes `BuildCommit`, failing where it does |
| `BundleImport.CommitExact` | crates/cocli-api/src/mcp_http.rs:1572-1653 | the commit can be built if and only if runtimes are bound under prefixed keys, all secrets, placeholders and targets are bound, and profile ids are UUIDs |
| `BundleImport.PreviewPredictsCommit` | crates/cocli-api/src/mcp_http.rs:1572-1653 | after a preview without blocking diagnostics the commit can be built if and only if runtimes are prefixed and profile ids are UUIDs |
| `BundleImport.BareServerReady` | crates/cocli-api/src/mcp_http.rs:1406-1436 | a server bound under its bare runtime name is ready for the preview and never for the commit |
| `BundleImport.BareRuntimeKeyFails` | crates/cocli-api/src/mcp_http.rs:1406-1436 | a whole bundle that passes the preview and fails the commit, for any runtime names |
| `BundleImport.WeakerDestinationUnreported` | crates/cocli-api/src/mcp_http.rs:1334-1354 | a destination that supports every operation no better than expected is never reported |
| `BundleImport.BetterDestinationReported` | crates/cocli-api/src/mcp_http.rs:1334-1354 | one that supports what the bundle calls unsupported is reported as weaker |
| `BundleImport.ServerRebound` | crates/cocli-api/src/mcp_http.rs:1622-1653 | a rebound server has its destination runtime, and every secret and value replaced in its place |
| `BundleImport.CommitLeavesNoPlaceholder` | crates/cocli-api/src/mcp_http.rs:1572-1681 | a committed value whose own keys have tame bindings has no placeholder left, whatever else is bound |
| `DeliveryQueue.EnqueueKeepsBounds` | crates/cocli-agent/src/queue.rs:38-56 | at most 64 waiting, and no two with one positive sequence number and channel |
| `DeliveryQueue.FindRetry` | crates/cocli-agent/src/queue.rs:41-48 | the search finds the first waiting delivery that the message retries |
| `DeliveryQueue.TotalUpdates` | crates/cocli-agent/src/queue.rs:87-89 | the total changes by exactly what one agent's queue changes by |
| `DeliveryQueue.Queue.Enqueue` | crates/cocli-agent/src/queue.rs:38-56 | appended, replaced in place or rejected, other agents untouched |
| `DeliveryQueue.Queue.Drain` | crates/cocli-agent/src/queue.rs:60-65 | the waiting deliveries in order, and the agent is gone from the map |
| `DeliveryQueue.Queue.Prepend` | crates/cocli-agent/src/queue.rs:68-78 | the messages in order at the head, cut to the limit |
| `DeliveryQueue.Queue.Forget` | crates/cocli-agent/src/queue.rs:82-84 | the agent's queue is dropped and no other |
| `DeliveryQueue.Queue.TotalLen` | crates/cocli-agent/src/queue.rs:87-89 | the sum over all agents |
| `Router.AgentRouter.SendAll` | crates/cocli-agent/src/router.rs:394-429 | the loop fills the mailbox in order up to its free room and stops at the first refusal |
| `Router.AgentRouter.Rebuffer` | crates/cocli-agent/src/router.rs:399-427 | what was refused is put back whole, nothing is cut off, and a closed mailbox is unregistered |
| `Router.AgentRouter.FlushDeliveryQueue` | crates/cocli-agent/src/router.rs:385-434 | takes the step `Flush`, counters included |
| `Router.AgentRouter.BufferDelivery` | crates/cocli-agent/src/router.rs:368-383 | takes the step `Buffer`, counters included |
| `Router.AgentRouter.HandleDeliver` | crates/cocli-agent/src/router.rs:319-366 | takes the step `Delivered` |
| `Router.AgentRouter.SpawnAgent` | crates/cocli-agent/src/router.rs:187-195 | takes the step `Spawn` |
| `Router.AgentRouter.HandleStopped` | crates/cocli-agent/src/router.rs:505-512 | takes the step `Stopped` |
| `Router.FlushInOrder` | crates/cocli-agent/src/router.rs:385-434 | a flush sends in order and leaves something waiting only behind a full or closed mailbox |
| `Router.DeliverKeeps` | crates/cocli-agent/src/router.rs:319-366 | one delivery keeps order, bounds and balance for all agents |
| `Router.SpawnKeeps` | crates/cocli-agent/src/router.rs:187-195 | so does a spawn, and its flush always completes |
| `Router.StoppedKeeps` | crates/cocli-agent/src/router.rs:505-512 | so does a stop, which counts what it forgets |
| `Router.RunKeepsInv` | crates/cocli-agent/src/router.rs:319-434 | in every run of handlers and actor steps: sent deliveries followed by waiting ones spell arrival order, queues are bounded without duplicates, the gauge is the true total, buffered = depth + flushed + forgotten |
| `Router.DeliverLeavesNoRoom` | crates/cocli-agent/src/router.rs:319-366 | when the handler ends, something waits only behind a full mailbox or none |
| `Router.WaitsBehindRoom` | crates/cocli-agent/src/router.rs:319-366 | a run of 65 deliveries and one receive, after which a delivery waits behind a mailbox with room |
| `Router.ReceiveBetweenBreaksOrder` | crates/cocli-agent/src/router.rs:327-331 | a receive between flush and send lets the new delivery overtake all waiting ones |
| `Router.OvertakingRun` | crates/cocli-agent/src/router.rs:327-331 | such a state is reached by a run |
| `Recovery.ProbeBackoffFor` | crates/cocli-agent/src/recovery.rs:12-17 | five, ten, thirty, sixty minutes, and two hours from the fourth attempt on |
| `Recovery.RecoveryStore.RegisterWithExpectedRecoveryAt` | crates/cocli-agent/src/recovery.rs:82-108 | a new reason and hint, with attempts, last probe and flight of the prior entry kept; blank ids ignored |
| `Recovery.RecoveryStore.ProbeNow` | crates/cocli-agent/src/recovery.rs:110-132 | counts an attempt unless a probe is in flight |
| `Recovery.RecoveryStore.DueProbes` | crates/cocli-agent/src/recovery.rs:158-183 | exactly the due agents, each once, and exactly they are marked in flight |
| `Recovery.RecoveryStore.CompleteProbe` | crates/cocli-agent/src/recovery.rs:185-200 | recovery removes the entry, failure counts and clears the hint, no state only lands the probe |
| `Recovery.NeverScheduledTwice` | crates/cocli-agent/src/recovery.rs:158-200 | in every run a completion or clear lies between two probes of one agent |
| `Recovery.ProbeMeansAttempt` | crates/cocli-agent/src/recovery.rs:110-200 | in every run a recorded probe time means at least one attempt, so the first rung is never used |
| `Recovery.EntryTracks` | crates/cocli-agent/src/recovery.rs:82-200 | in every run with a clock that never goes back, an entry has counted at least its failures, was probed no earlier than the last one, and holds the hint in force |
| `Recovery.LadderRespected` | crates/cocli-agent/src/recovery.rs:158-183 | in every run, manual probes included, with no hint in force the probe after the k-th failure comes at least rung k later |
| `Recovery.HintDecides` | crates/cocli-agent/src/recovery.rs:158-172 | with a hint in force a probe not in flight is scheduled if and only if the hint has passed |
| `Recovery.HintOverridesLadder` | crates/cocli-agent/src/recovery.rs:82-108 | a hint after a failure can make the probe due at once |
| `DeliveryWorker.BackoffDoubles` | crates/cocli-api/src/lib.rs:1454-1460 | the delay starts at the base and doubles with each of the first nine attempts, up to the maximum |
| `DeliveryWorker.Dispatched` | crates/cocli-api/src/lib.rs:1362-1390 | the jobs are exactly the deliveries whose agent and message exist, in reservation order |
| `DeliveryWorker.DispatchAll` | crates/cocli-api/src/lib.rs:1362-1390 | the spawning loop makes these jobs, or ends the batch at a failing look-up |
| `DeliveryWorker.Collect` | crates/cocli-api/src/lib.rs:1392-1414 | every task is taken out of the map once, as it ends, panics as retryable failures |
| `DeliveryWorker.CompletionOrderIrrelevant` | crates/cocli-api/src/lib.rs:1415-1415 | for every completion order, sorting by index gives the dispatch order |
| `DeliveryWorker.Settle` | crates/cocli-api/src/lib.rs:1417-1451 | outcomes are written one by one up to the first failing store call |
| `DeliveryWorker.ProcessBatch` | crates/cocli-api/src/lib.rs:1359-1452 | for every completion order the writes are a prefix of the batch in reservation order, all of it unless a store call fails |
| `DeliveryWorker.GateRunSafe` | crates/cocli-api/src/lib.rs:1285-1309 | in every interleaving the gate's invariant holds, for any number of waiters |
| `DeliveryWorker.NoLostWakeUp` | crates/cocli-api/src/lib.rs:1301-1309 | after the notification each step of a waiter brings it closer to returning, and a waiter that returned saw the worker ready |
| `DeliveryWorker.TwoStepsSuffice` | crates/cocli-api/src/lib.rs:1301-1309 | after the notification two steps of its own let any waiter return |
| `Idempotency.Bridge.CreateResource` | crates/cocli-api/src/lib.rs:3134-3199 | replays, refuses or creates as `Handle` says, up to the point where the store fails |
| `Idempotency.OperationsPersist` | crates/cocli-api/src/lib.rs:4108-4163 | what was recorded under a key stays, in every run |
| `Idempotency.SuccessIsRecorded` | crates/cocli-api/src/lib.rs:4138-4163 | a successful reply under a key names the recorded result and inputs |
| `Idempotency.OneResultPerKey` | crates/cocli-api/src/lib.rs:3266-3368 | in every run all successes for one caller, action and trimmed key name one result, and the later ones are replays |
| `Idempotency.OtherInputsChangeNothing` | crates/cocli-api/src/lib.rs:4108-4136 | other inputs under a used key conflict and change nothing |
| `Idempotency.CreatedOnce` | crates/cocli-api/src/lib.rs:3134-3199 | two replies that report a creation never name one resource |
| `Idempotency.DuplicateMeansLostRecord` | crates/cocli-api/src/lib.rs:3134-3199 | in every run, a second resource under one key means that the store failed between the first creation and its record |
| `Idempotency.RetryCreatesAgain` | crates/cocli-api/src/lib.rs:3134-3199 | after such a failure a retry with the same key and inputs creates another resource |
| `Chunked.LineRead` | bin/cocli-bridge/src/lib.rs:1268-1275 | a line is read wherever it stands: its size, or the error of a text that is none |
| `Chunked.ReadChunk` | bin/cocli-bridge/src/lib.rs:1267-1286 | one round of the loop keeps the outcome and advances the cursor, or ends |
| `Chunked.DecodeChunked` | bin/cocli-bridge/src/lib.rs:1264-1288 | the loop over a cursor refines the recursive decoder on every body |
| `Chunked.DecodeUndoesFraming` | bin/cocli-bridge/src/lib.rs:1264-1288 | for all chunks of section 7.1 of RFC 9112, spellings of sizes, extensions and trailing bytes, the payload is returned |
| `Chunked.DecodeExact` | bin/cocli-bridge/src/lib.rs:1264-1288 | for every body the outcome is the one told by what follows its complete chunks, in both directions |
| `Chunked.OutOfRangeExact` | bin/cocli-bridge/src/lib.rs:1278-1284 | the slice is out of range if and only if the body stops within the bytes that close a chunk |

## Left out

- `DeliveryWorker.Backoff`: attempt counts below one, for which the source shifts by an out-of-range exponent, are given the first delay; reserved deliveries have at least one attempt.
- `Staging.NormalizedMode`: modes are the nine permission bits; platforms without them are not modelled.
- `FileSystem.Disk.FingerprintPath`: relative links, whose fingerprint depends on where they sit.
- `ApplyRun.Run.VerifyReceipts`: the reasons for a mismatch are not collected; the Runtime inventory check is an unknown outcome.
- `MutationPhases.StagePayload`: a link carries the directory found at its destination; `StoredLinkFaithful` says when that is the stored artifact.
- `MutationPhases.Prepare`: the control directory, the backup manifest and the containment checks.
- `BundleImport.BuildPreview`: message texts, and the lists of profile and binding changes that accompany the diagnostics.
- `Idempotency.Bridge.CreateResource`: source channels and sessions of a request; trimming knows ASCII whitespace only.
- The backup manifest and the other evidence written beside a backup, which rollback does not read.
- Containment checks on targets and control directories, and Skill name validation: single-step guards that refuse before anything is written.
- Planning, preflight, leases, confirmation nonces and the reconciliation of governance records: calls that may fail.
- The verification request of a finished run, and nonces and leases of a rollback request.
- The workspace path resolver, which would add one lexical lemma.
- Store, Runtime adapters, HTTP, JSON, processes, live events, metrics other than the delivery counters, and the web interface.
- UTF-8 details: paths and sizes are bytes, and a lossy conversion is taken as the identity on what is compared.
