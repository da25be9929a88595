/** The phases of a governed mutation on a disk that may fail at any operation
    (crates/cocli-api/src/skill_apply.rs). A crash leaves the disk in one of the states of its log. */
module MutationPhases {
  import opened Prelude
  import opened Artifact
  import opened Staging
  import opened FileSystem
  import opened Mutation

  function MakeReceipt(scope: Bytes, root: Bytes, name: Bytes, run: nat, action: nat,
                       before: Fingerprint, after: Fingerprint): Receipt {
    Receipt(
      Governed(root, name), before, after,
      if before == Missing then None else Some(Control(scope, run, action, BackupSlot)),
      if after == Missing then None else Some(StagingPath(root, name, action)),
      Control(scope, run, action, RollbackSlot))
  }

  /** The states logged since `from` are all recoverable ones. */
  ghost predicate MidSince(r: Receipt, a: Fs, log: seq<Fs>, from: nat) {
    forall k :: from <= k < |log| ==> Mid(r, a, log[k])
  }

  ghost predicate BegunSince(r: Receipt, a: Fs, log: seq<Fs>, from: nat, exact: bool) {
    forall k :: from <= k < |log| ==> Begun(r, a, log[k], exact)
  }

  ghost predicate ReachSince(r: Receipt, a: Fs, log: seq<Fs>, from: nat) {
    forall k :: from <= k < |log| ==> Reach(r, a, log[k])
  }

  /** Nothing is at the target; what was there is in the backup. */
  predicate Vacant(r: Receipt, a: Fs, b: Fs) {
    && r.target !in b
    && BackupOf(r, b) == Lookup(a, r.target)
    && r.rollbackNew !in b
  }

  /** The staging path holds the complete entry to install. */
  predicate FullyStaged(p: Prepared, fs: Fs) {
    p.receipt.staging.Some? ==>
      StagedEntry(p.payload).Some? && Lookup(fs, p.receipt.staging.value) == StagedEntry(p.payload)
  }

  /** `prepare_atomic_mutation` and `prepare_atomic_file_mutation`; the latter passes the fingerprint it expects. */
  method Prepare(disk: Disk, scope: Bytes, root: Bytes, name: Bytes, payload: Payload,
                 expectedBefore: Option<Fingerprint>, run: nat, action: nat)
    returns (p: Option<Prepared>)
    ensures p.Some? ==>
      && WellFormed(p.value.receipt, disk.entries)
      && p.value.payload == payload
      && Some(p.value.receipt.after) == ExpectedAfter(payload)
      && (expectedBefore.Some? ==> p.value.receipt.before == expectedBefore.value)
      && p.value.receipt
         == MakeReceipt(scope, root, name, run, action, p.value.receipt.before, p.value.receipt.after)
    ensures disk.reliable ==>
      (p.Some? <==>
        && FingerprintAt(disk.entries, Governed(root, name)).Some?
        && (expectedBefore.Some? ==> FingerprintAt(disk.entries, Governed(root, name)) == expectedBefore)
        && ExpectedAfter(payload).Some?)
  {
    var before := disk.FingerprintPath(Governed(root, name));
    if before.None? || (expectedBefore.Some? && before != expectedBefore) {
      return None;
    }
    var after := ExpectedAfter(payload);
    if after.None? {
      return None;
    }
    return Some(Prepared(MakeReceipt(scope, root, name, run, action, before.value, after.value), payload));
  }

  /** `backup_atomic_mutation` and `backup_atomic_file_mutation`. Others may write between the check
      and the rename; even then success means the backup has the announced fingerprint. */
  method Backup(disk: Disk, r: Receipt, ghost a: Fs) returns (ok: bool)
    requires disk.quiet ==>
      && WellFormed(r, a)
      && SameOutside(a, disk.entries, Paths(r)) && InPlace(r, a, disk.entries)
      && r.rollbackNew !in disk.entries
    modifies disk
    ensures ok && r.backup.Some? ==> FingerprintAt(disk.entries, r.backup.value) == Some(r.before)
    ensures disk.quiet ==>
      && old(disk.log) <= disk.log && MidSince(r, a, disk.log, |old(disk.log)|)
      && Mid(r, a, disk.entries)
      && (ok ==> SameOutside(a, disk.entries, Paths(r)) && Vacant(r, a, disk.entries))
      && (disk.reliable ==> ok)
      && (r.staging.Some? ==>
            Lookup(disk.entries, r.staging.value) == old(Lookup(disk.entries, r.staging.value)))
  {
    var current := disk.FingerprintPath(r.target);
    if current != Some(r.before) {
      return false;
    }
    if r.backup.Some? {
      var backup := r.backup.value;
      if backup in disk.entries {
        return false;
      }
      disk.Interfere();
      var moved := disk.Rename(r.target, backup);
      if !moved {
        return false;
      }
      var backedUp := disk.FingerprintPath(backup);
      if backedUp.None? {
        return false;
      }
      if backedUp != Some(r.before) {
        var _ := disk.Rename(backup, r.target);
        return false;
      }
    }
    return true;
  }

  /** Only the staging path may have changed since `from`. */
  ghost predicate OnlyStaging(staging: Path, from: Fs, log: seq<Fs>, start: nat) {
    forall k :: start <= k < |log| ==> SameOutside(from, log[k], {staging})
  }

  /** `write_copy_staging` on disk: file by file, a crash may leave any torn tree behind. */
  method StageCopy(disk: Disk, staging: Path, files: seq<ArtifactFile>) returns (ok: bool)
    modifies disk
    ensures old(disk.log) <= disk.log && OnlyStaging(staging, old(disk.entries), disk.log, |old(disk.log)|)
    ensures SameOutside(old(disk.entries), disk.entries, {staging})
    ensures ok ==>
      && Stage(files, MARKER_TEXT).Some?
      && Lookup(disk.entries, staging) == Some(DirEntry(Stage(files, MARKER_TEXT).value))
    ensures disk.reliable && staging !in old(disk.entries) ==> ok == Stage(files, MARKER_TEXT).Some?
  {
    if staging in disk.entries {
      return false;
    }
    ok := disk.Write(staging, DirEntry(Empty));
    if !ok {
      return;
    }
    var tree := Empty;
    for i := 0 to |files|
      invariant old(disk.log) <= disk.log && OnlyStaging(staging, old(disk.entries), disk.log, |old(disk.log)|)
      invariant SameOutside(old(disk.entries), disk.entries, {staging})
      invariant StageFiles(files[..i]) == Some(tree)
    {
      assert files[..i + 1][..i] == files[..i];
      var torn: Tree := *;
      ok := disk.Write(staging, DirEntry(torn));
      if !ok {
        return;
      }
      var next := StageFile(tree, files[i]);
      if next.None? {
        StageFailurePersists(files, i + 1);
        return false;
      }
      tree := next.value;
      ok := disk.Write(staging, DirEntry(tree));
      if !ok {
        return;
      }
    }
    assert files[..|files|] == files;
    var marked := Put(tree, [MANAGED_MARKER], DEFAULT_MODE, MARKER_TEXT);
    if marked.None? {
      return false;
    }
    ok := disk.Write(staging, DirEntry(marked.value));
  }

  /** `stage_atomic_mutation` and `stage_atomic_file_mutation` */
  method StagePayload(disk: Disk, p: Prepared, ghost a: Fs) returns (ok: bool)
    requires WellFormed(p.receipt, a) && Some(p.receipt.after) == ExpectedAfter(p.payload)
    requires SameOutside(a, disk.entries, Paths(p.receipt)) && Vacant(p.receipt, a, disk.entries)
    modifies disk
    ensures old(disk.log) <= disk.log && MidSince(p.receipt, a, disk.log, |old(disk.log)|)
    ensures SameOutside(a, disk.entries, Paths(p.receipt)) && Vacant(p.receipt, a, disk.entries)
    ensures ok ==> FullyStaged(p, disk.entries)
    ensures disk.reliable && p.receipt.staging.Some? && p.receipt.staging.value !in old(disk.entries) ==>
      ok == StagedEntry(p.payload).Some?
    ensures p.receipt.staging.None? ==> ok
  {
    var r := p.receipt;
    if r.staging.None? {
      return true;
    }
    var staging := r.staging.value;
    if p.payload.Copy? {
      ok := StageCopy(disk, staging, p.payload.bundle.files);
    } else {
      var entry := StagedEntry(p.payload);
      if staging in disk.entries || entry.None? {
        return false;
      }
      if p.payload.WriteBytes? {
        var torn: Bytes := *;
        ok := disk.Write(staging, FileEntry(torn));
        if !ok {
          return;
        }
      }
      ok := disk.Write(staging, entry.value);
    }
  }

  /** Renaming an entry into the vacant target activates it, or misplaces it when it has not the
      announced fingerprint. */
  lemma MoveActivates(r: Receipt, a: Fs, b: Fs)
    requires WellFormed(r, a) && r.staging.Some? && r.staging.value in b
    requires SameOutside(a, b, Paths(r)) && Vacant(r, a, b)
    ensures
      var moved := Moved(b, r.staging.value, r.target);
      && SameOutside(a, moved, Paths(r))
      && if FingerprintAt(b, r.staging.value) == Some(r.after) then Activated(r, a, moved) else Misplaced(r, a, moved)
  {
    var moved := Moved(b, r.staging.value, r.target);
    assert Lookup(moved, r.target) == Lookup(b, r.staging.value);
  }

  /** `activate_atomic_mutation` and `activate_atomic_file_mutation`. The entry is renamed into place
      before it is checked: only a faithful payload passes, and an unfaithful one is left misplaced. */
  method Activate(disk: Disk, p: Prepared, ghost a: Fs, ghost exact: bool) returns (ok: bool)
    requires WellFormed(p.receipt, a) && Some(p.receipt.after) == ExpectedAfter(p.payload)
    requires exact ==> Faithful(p.payload)
    requires SameOutside(a, disk.entries, Paths(p.receipt)) && Vacant(p.receipt, a, disk.entries)
    requires FullyStaged(p, disk.entries)
    modifies disk
    ensures old(disk.log) <= disk.log && BegunSince(p.receipt, a, disk.log, |old(disk.log)|, exact)
    ensures Begun(p.receipt, a, disk.entries, exact)
    ensures ok ==> Mid(p.receipt, a, disk.entries)
    ensures ok ==> FingerprintAt(disk.entries, p.receipt.target) == Some(p.receipt.after)
    ensures ok ==> BackupOf(p.receipt, disk.entries) == Lookup(a, p.receipt.target)
    ensures ok ==> p.receipt.rollbackNew !in disk.entries
    ensures ok && p.receipt.staging.Some? ==> Lookup(disk.entries, p.receipt.target) == StagedEntry(p.payload)
    ensures disk.reliable ==> ok == Faithful(p.payload)
    ensures disk.reliable && p.receipt.staging.Some? ==>
      Lookup(disk.entries, p.receipt.target) == StagedEntry(p.payload)
  {
    var r := p.receipt;
    if r.staging.Some? {
      MoveActivates(r, a, disk.entries);
      var moved := disk.Rename(r.staging.value, r.target);
      if !moved {
        return false;
      }
    }
    var fault := disk.Fault();
    if fault {
      return false;
    }
    var after := disk.FingerprintPath(r.target);
    return after == Some(r.after);
  }

  /** The interrupted states rollback may be called in and interrupted again. */
  ghost predicate Recoverable(r: Receipt, a: Fs, b: Fs) {
    WellFormed(r, a) && Mid(r, a, b) && (Decidable(r, b) || r.rollbackNew in b)
  }

  /** The applied entry is out of the way. */
  ghost predicate Cleared(r: Receipt, a: Fs, b: Fs) {
    && WellFormed(r, a) && Reach(r, a, b)
    && r.target !in b
    && (r.staging.Some? ==> r.staging.value !in b)
  }

  /** Everything logged since `from` is what an attempt to roll back can make of `x`. */
  ghost predicate AttemptedSince(r: Receipt, a: Fs, x: Fs, log: seq<Fs>, from: nat) {
    forall k :: from <= k < |log| ==> Attempted(r, a, x, log[k])
  }

  /** Nothing was done, or one move of a rollback. */
  predicate OneMove(r: Receipt, x: Fs, y: Fs, before: seq<Fs>, after: seq<Fs>) {
    (y == x && after == before) || (RollbackMove(r, x, y) && after == before + [y])
  }

  /** The last part of `rollback_atomic_mutation`: restore the backup and verify. */
  method RestoreBackup(disk: Disk, r: Receipt, ghost a: Fs) returns (ok: bool)
    modifies disk
    ensures old(Cleared(r, a, disk.entries)) ==>
      && old(disk.log) <= disk.log && ReachSince(r, a, disk.log, |old(disk.log)|)
      && Reach(r, a, disk.entries)
      && (ok ==> Restored(r, a, disk.entries))
    ensures old(Cleared(r, a, disk.entries) && Mid(r, a, disk.entries)) ==>
      MidSince(r, a, disk.log, |old(disk.log)|) && Mid(r, a, disk.entries)
    ensures disk.reliable ==>
      && ok == RestoreStep(r, old(disk.entries)).1
      && disk.entries == LastOf([old(disk.entries)] + RestoreStep(r, old(disk.entries)).0)
    ensures SeparatePaths(r) && r.target !in old(disk.entries) ==>
      && OneMove(r, old(disk.entries), disk.entries, old(disk.log), disk.log)
      && (ok ==> FingerprintAt(disk.entries, r.target) == Some(r.before))
      && (ok && r.backup.Some? ==> BackupOf(r, old(disk.entries)).Some? && BackupOf(r, disk.entries).None?)
  {
    if r.backup.Some? {
      var restored := disk.Rename(r.backup.value, r.target);
      if !restored {
        if Exists(disk.entries, r.rollbackNew) {
          var _ := disk.Rename(r.rollbackNew, r.target);
        }
        return false;
      }
    }
    var verified := disk.FingerprintPath(r.target);
    var fault := disk.Fault();
    return verified == Some(r.before) && !fault;
  }

  /** The first step of `rollback_atomic_mutation`: no staging entry may survive. */
  method ClearStaging(disk: Disk, r: Receipt, ghost a: Fs) returns (ok: bool)
    modifies disk
    ensures old(WellFormed(r, a) && Reach(r, a, disk.entries)) ==>
      ReachSince(r, a, disk.log, |old(disk.log)|) && Reach(r, a, disk.entries)
    ensures old(Recoverable(r, a, disk.entries)) ==>
      MidSince(r, a, disk.log, |old(disk.log)|) && Recoverable(r, a, disk.entries)
    ensures OneMove(r, old(disk.entries), disk.entries, old(disk.log), disk.log)
    ensures ok ==> disk.entries == Removed(old(disk.entries), r.staging)
    ensures disk.reliable ==> ok
  {
    ok := true;
    if r.staging.Some? {
      ok := disk.RemoveAny(r.staging.value);
    }
  }

  /** The decision of `rollback_atomic_mutation`: finished with a verdict, or the applied entry moved
      out of the way and the backup still to be restored (`None`). */
  method Decide(disk: Disk, r: Receipt, ghost a: Fs) returns (verdict: Option<bool>)
    requires r.staging.Some? ==> r.staging.value !in disk.entries
    modifies disk
    ensures old(WellFormed(r, a) && Reach(r, a, disk.entries)) ==>
      && old(disk.log) <= disk.log && ReachSince(r, a, disk.log, |old(disk.log)|)
      && Reach(r, a, disk.entries)
      && (verdict == Some(true) ==> Restored(r, a, disk.entries))
      && (verdict.None? ==> Cleared(r, a, disk.entries))
    ensures old(Recoverable(r, a, disk.entries)) ==>
      MidSince(r, a, disk.log, |old(disk.log)|) && Mid(r, a, disk.entries)
    ensures SeparatePaths(r) ==>
      && OneMove(r, old(disk.entries), disk.entries, old(disk.log), disk.log)
      && BackupOf(r, disk.entries) == old(BackupOf(r, disk.entries))
      && (verdict.None? ==> r.target !in disk.entries)
    ensures verdict == Some(true) ==>
      FingerprintAt(disk.entries, r.target) == Some(r.before) && (r.before != r.after || r.backup.None?)
    ensures disk.reliable ==>
      var steps := DecideSteps(r, old(disk.entries));
      match verdict
      case Some(ok) => steps == ([disk.entries], ok)
      case None =>
        var rest := RestoreStep(r, disk.entries);
        steps.1 == rest.1 && LastOf(steps.0) == LastOf([disk.entries] + rest.0)
  {
    var fingerprint := disk.FingerprintPath(r.target);
    if fingerprint.None? {
      return Some(false);
    }
    var current := fingerprint.value;
    if current == r.before && (r.before != r.after || r.backup.None?) {
      return Some(true);
    }
    var interruptedAfterBackup :=
      current == Missing && (r.before == Missing || (r.backup.Some? && r.backup.value in disk.entries));
    if current != r.after && !interruptedAfterBackup {
      return Some(false);
    }
    if current == r.after && current != Missing {
      if r.rollbackNew in disk.entries {
        return Some(false);
      }
      var quarantined := disk.Rename(r.target, r.rollbackNew);
      if !quarantined {
        return Some(false);
      }
    }
    return None;
  }

  lemma MaybeMoved(r: Receipt, a: Fs, x: Fs, y: Fs, z: Fs)
    requires SeparatePaths(r) ==> Attempted(r, a, x, y) && (z == y || RollbackMove(r, y, z))
    ensures SeparatePaths(r) ==> Attempted(r, a, x, z)
  {
    if SeparatePaths(r) && z != y {
      AttemptGoesOn(r, a, x, y, z);
    }
  }

  /** `rollback_atomic_mutation` once the staging entry is gone. */
  method DecideAndRestore(disk: Disk, r: Receipt, ghost a: Fs) returns (ok: bool)
    requires r.staging.Some? ==> r.staging.value !in disk.entries
    modifies disk
    ensures disk.reliable ==>
      ok == DecideSteps(r, old(disk.entries)).1 && disk.entries == LastOf(DecideSteps(r, old(disk.entries)).0)
    ensures old(WellFormed(r, a) && Reach(r, a, disk.entries)) ==>
      && old(disk.log) <= disk.log && ReachSince(r, a, disk.log, |old(disk.log)|)
      && Reach(r, a, disk.entries)
      && (ok ==> Restored(r, a, disk.entries))
    ensures old(Recoverable(r, a, disk.entries)) ==>
      MidSince(r, a, disk.log, |old(disk.log)|) && Mid(r, a, disk.entries)
    ensures SeparatePaths(r) ==>
      && old(disk.log) <= disk.log && AttemptedSince(r, a, old(disk.entries), disk.log, |old(disk.log)|)
      && Attempted(r, a, old(disk.entries), disk.entries)
      && (ok ==> RollbackEnds(r, old(disk.entries), disk.entries))
  {
    ghost var y := disk.entries;
    var verdict := Decide(disk, r, a);
    MaybeMoved(r, a, y, y, disk.entries);
    if verdict.Some? {
      return verdict.value;
    }
    ghost var z := disk.entries;
    ok := RestoreBackup(disk, r, a);
    MaybeMoved(r, a, y, z, disk.entries);
  }

  lemma AttemptsCompose(r: Receipt, a: Fs, x: Fs, y: Fs, z: Fs)
    requires Attempted(r, a, x, y) && Attempted(r, a, y, z)
    ensures Attempted(r, a, x, z)
  {
  }

  /** `rollback_atomic_mutation`. On a reliable disk it has exactly the outcome of `RollbackSteps`,
      whatever the disk holds. On a failing one it stays within the states it can reach, within the
      recoverable ones if it began in one, and reports success only when the original is back; in any
      state at all it only takes its own moves and ends with the target verified. */
  method Rollback(disk: Disk, r: Receipt, ghost a: Fs) returns (ok: bool)
    modifies disk
    ensures disk.reliable ==>
      ok == RollbackOk(r, old(disk.entries)) && disk.entries == RollbackResult(r, old(disk.entries))
    ensures old(WellFormed(r, a) && Reach(r, a, disk.entries)) ==>
      && old(disk.log) <= disk.log && ReachSince(r, a, disk.log, |old(disk.log)|)
      && Reach(r, a, disk.entries)
      && (ok ==> Restored(r, a, disk.entries))
    ensures old(Recoverable(r, a, disk.entries)) ==>
      MidSince(r, a, disk.log, |old(disk.log)|) && Mid(r, a, disk.entries)
    ensures SeparatePaths(r) ==>
      && old(disk.log) <= disk.log && AttemptedSince(r, a, old(disk.entries), disk.log, |old(disk.log)|)
      && Attempted(r, a, old(disk.entries), disk.entries)
      && (ok ==> RollbackEnds(r, old(disk.entries), disk.entries))
  {
    ghost var x, from := disk.entries, |disk.log|;
    var cleared := ClearStaging(disk, r, a);
    MaybeMoved(r, a, x, x, disk.entries);
    if !cleared {
      return false;
    }
    ghost var y, start := disk.entries, |disk.log|;
    ok := DecideAndRestore(disk, r, a);
    if SeparatePaths(r) {
      forall k | from <= k < |disk.log| ensures Attempted(r, a, x, disk.log[k]) {
        if k >= start {
          AttemptsCompose(r, a, x, y, disk.log[k]);
        }
      }
      AttemptsCompose(r, a, x, y, disk.entries);
    }
  }
}
