/** One governed mutation: prepare, backup, stage, activate, and the rollback of its receipt
    (crates/cocli-api/src/skill_apply.rs). */
module Mutation {
  import opened Prelude
  import opened Artifact
  import opened Staging
  import opened FileSystem

  datatype Receipt = Receipt(
    target: Path,
    before: Fingerprint,
    after: Fingerprint,
    backup: Option<Path>,
    staging: Option<Path>,
    rollbackNew: Path)

  /** What the mutation installs. `resolved` is the directory found at a link's destination. */
  datatype Payload =
    | Copy(bundle: ArtifactBundle)
    | Link(bundle: ArtifactBundle, resolved: Tree)
    | WriteBytes(bytes: Bytes)
    | Remove

  datatype Prepared = Prepared(receipt: Receipt, payload: Payload)

  /** "cocli-skill-governance-v1\n" */
  const MARKER_TEXT: Bytes :=
    [99, 111, 99, 108, 105, 45, 115, 107, 105, 108, 108, 45, 103, 111, 118, 101, 114, 110, 97, 110, 99, 101, 45,
     118, 49, 10]

  function ExpectedAfter(payload: Payload): Option<Fingerprint> {
    match payload
    case Copy(bundle) => Some(Of(bundle.contentDigest))
    case Link(bundle, _) =>
      if bundle.canonicalSource.None? then None
      else Some(Of(Sha256OfLink(bundle.canonicalSource.value, bundle.contentDigest, bundle.manifestDigest)))
    case WriteBytes(bytes) => Some(Of(Sha256(bytes)))
    case Remove => Some(Missing)
  }

  /** The complete staging entry; `None` when staging reports an error. */
  function StagedEntry(payload: Payload): Option<Entry> {
    match payload
    case Copy(bundle) =>
      var tree := Stage(bundle.files, MARKER_TEXT);
      if tree.None? then None else Some(DirEntry(tree.value))
    case Link(bundle, resolved) =>
      if bundle.canonicalSource.None? then None
      else Some(LinkEntry(bundle.canonicalSource.value, Some(resolved)))
    case WriteBytes(bytes) => Some(FileEntry(bytes))
    case Remove => None
  }

  /** Whatever gets staged completely has the fingerprint the receipt announces. */
  predicate Faithful(payload: Payload) {
    StagedEntry(payload).Some? ==> FingerprintOf(StagedEntry(payload)) == ExpectedAfter(payload)
  }

  // ---- States between start and end ---------------------------------------------------------

  /** A receipt as preparation writes it for the file system `a`. */
  predicate WellFormed(r: Receipt, a: Fs) {
    && r.target.Governed?
    && (r.staging.Some? ==> r.staging.value.StagingPath?)
    && (r.backup.Some? ==> r.backup.value.Control? && r.backup.value.slot.BackupSlot?)
    && r.rollbackNew.Control? && r.rollbackNew.slot.RollbackSlot?
    && FingerprintAt(a, r.target) == Some(r.before)
    && (r.backup.Some? <==> r.before != Missing)
    && (r.staging.Some? <==> r.after != Missing)
  }

  function Paths(r: Receipt): set<Path> {
    {r.target} + Aux(r)
  }

  /** The paths that belong to this one action. */
  function Aux(r: Receipt): set<Path> {
    {r.rollbackNew}
    + (if r.backup.Some? then {r.backup.value} else {})
    + (if r.staging.Some? then {r.staging.value} else {})
  }

  ghost predicate SameOutside(a: Fs, b: Fs, paths: set<Path>) {
    forall p :: p !in paths ==> Lookup(a, p) == Lookup(b, p)
  }

  function BackupOf(r: Receipt, fs: Fs): Option<Entry> {
    if r.backup.Some? then Lookup(fs, r.backup.value) else None
  }

  /** The original entry is in place. `rollbackNew` may hold a quarantined entry of an earlier rollback. */
  predicate InPlace(r: Receipt, a: Fs, b: Fs) {
    && Lookup(b, r.target) == Lookup(a, r.target)
    && BackupOf(r, b).None?
  }

  /** The original entry is in the backup and nothing is in its place; the quarantine holds at most
      the new entry. */
  predicate BackedUp(r: Receipt, a: Fs, b: Fs) {
    && r.backup.Some?
    && Lookup(b, r.target).None?
    && BackupOf(r, b) == Lookup(a, r.target)
    && (r.rollbackNew in b ==> r.after != Missing && FingerprintAt(b, r.rollbackNew) == Some(r.after))
  }

  /** The new entry is active, the original one in the backup, and nothing has been quarantined. */
  predicate Activated(r: Receipt, a: Fs, b: Fs) {
    && r.after != Missing
    && FingerprintAt(b, r.target) == Some(r.after)
    && BackupOf(r, b) == Lookup(a, r.target)
    && r.rollbackNew !in b
  }

  /** The states of the receipt's own paths in which a mutation that began at `a`, or a rollback of
      it, can be interrupted. */
  predicate Local(r: Receipt, a: Fs, b: Fs) {
    InPlace(r, a, b) || BackedUp(r, a, b) || Activated(r, a, b)
  }

  ghost predicate Mid(r: Receipt, a: Fs, b: Fs) {
    SameOutside(a, b, Paths(r)) && Local(r, a, b)
  }

  /** Activation put an entry in place that does not have the announced fingerprint; the original is
      in the backup. */
  predicate Misplaced(r: Receipt, a: Fs, b: Fs) {
    && r.target in b && FingerprintAt(b, r.target) != Some(r.after)
    && BackupOf(r, b) == Lookup(a, r.target)
    && r.rollbackNew !in b
  }

  /** The states in which a mutation can be interrupted. With an `exact` payload, one whose staged
      entry has the announced fingerprint, nothing is ever misplaced. */
  ghost predicate Begun(r: Receipt, a: Fs, b: Fs, exact: bool) {
    SameOutside(a, b, Paths(r)) && (Local(r, a, b) || (!exact && Misplaced(r, a, b)))
  }

  /** Wherever a mutation stops, the original entry is in exactly one of target and backup. */
  lemma OriginalInOnePlace(r: Receipt, a: Fs, b: Fs, exact: bool)
    requires WellFormed(r, a) && Begun(r, a, b, exact) && r.before != Missing
    ensures BackupOf(r, b) == Lookup(a, r.target) <==> !InPlace(r, a, b)
  {
  }

  /** The one bad place to stop: rollback moved the original itself into the quarantine. */
  predicate Stranded(r: Receipt, a: Fs, b: Fs) {
    && r.before == r.after && r.backup.Some?
    && r.target !in b && BackupOf(r, b).None?
    && Lookup(b, r.rollbackNew) == Lookup(a, r.target)
  }

  /** Everything a failing disk can lead to. */
  ghost predicate Reach(r: Receipt, a: Fs, b: Fs) {
    SameOutside(a, b, Paths(r)) && (Local(r, a, b) || Stranded(r, a, b))
  }

  // ---- Rollback -----------------------------------------------------------------------------

  /** Restores the backup, or puts the quarantined entry back when that fails: the state this leads
      to, if it changes anything, and the verdict. */
  function RestoreStep(r: Receipt, fs: Fs): (seq<Fs>, bool) {
    if r.backup.None? then ([], FingerprintAt(fs, r.target) == Some(r.before))
    else if !CanRename(fs, r.backup.value, r.target) then
      (if Exists(fs, r.rollbackNew) && CanRename(fs, r.rollbackNew, r.target)
       then [Moved(fs, r.rollbackNew, r.target)] else [], false)
    else
      var restored := Moved(fs, r.backup.value, r.target);
      ([restored], FingerprintAt(restored, r.target) == Some(r.before))
  }

  /** Rollback once the staging entry is gone. */
  function DecideSteps(r: Receipt, s: Fs): (steps: (seq<Fs>, bool))
    ensures steps.0 != [] && steps.0[0] == s
  {
    match FingerprintAt(s, r.target)
    case None => ([s], false)
    case Some(current) =>
      if current == r.before && (r.before != r.after || r.backup.None?) then ([s], true)
      else
        var interruptedAfterBackup :=
          current == Missing && (r.before == Missing || BackupOf(r, s).Some?);
        if current != r.after && !interruptedAfterBackup then ([s], false)
        else if current == r.after && current != Missing then
          if r.rollbackNew in s || !CanRename(s, r.target, r.rollbackNew) then ([s], false)
          else
            var quarantined := Moved(s, r.target, r.rollbackNew);
            var rest := RestoreStep(r, quarantined);
            ([s, quarantined] + rest.0, rest.1)
        else
          var rest := RestoreStep(r, s);
          ([s] + rest.0, rest.1)
  }

  /** `rollback_atomic_mutation` on a disk without faults: the states it leaves behind, and its verdict. */
  function RollbackSteps(r: Receipt, fs: Fs): (steps: (seq<Fs>, bool))
    ensures steps.0 != []
  {
    DecideSteps(r, Removed(fs, r.staging))
  }

  function LastOf(steps: seq<Fs>): Fs
    requires steps != []
  {
    steps[|steps| - 1]
  }

  function RollbackResult(r: Receipt, fs: Fs): Fs {
    LastOf(RollbackSteps(r, fs).0)
  }

  predicate RollbackOk(r: Receipt, fs: Fs) {
    RollbackSteps(r, fs).1
  }

  ghost predicate Restored(r: Receipt, a: Fs, b: Fs) {
    && SameOutside(a, b, Aux(r))
    && InPlace(r, a, b)
    && (r.staging.Some? ==> r.staging.value !in b)
  }

  /** What a caller can check before rolling back: the fingerprints differ, there was nothing to back
      up, or the backup is there. */
  predicate Decidable(r: Receipt, b: Fs) {
    r.before != r.after || r.backup.None? || BackupOf(r, b).Some?
  }

  /** From every interrupted state rollback puts the original entry back and removes the staging
      entry; it reports success exactly when the state is decidable. */
  lemma RollbackRestores(r: Receipt, a: Fs, b: Fs)
    requires WellFormed(r, a) && Mid(r, a, b)
    ensures Restored(r, a, RollbackResult(r, b))
    ensures RollbackOk(r, b) <==> Decidable(r, b)
  {
  }

  /** Every state rollback passes through is again one it recovers from, exactly when the starting
      state is decidable or the quarantine is taken. Otherwise one crash point strands the original. */
  lemma RollbackIsInterruptible(r: Receipt, a: Fs, b: Fs)
    requires WellFormed(r, a) && Mid(r, a, b)
    ensures (forall k :: 0 <= k < |RollbackSteps(r, b).0| ==> Mid(r, a, RollbackSteps(r, b).0[k]))
       <==> Decidable(r, b) || r.rollbackNew in b
  {
    var steps := RollbackSteps(r, b).0;
    if !Decidable(r, b) && r.rollbackNew !in b {
      var stranded := steps[1];
      assert !Mid(r, a, stranded);
    }
  }

  /** The stranded state: the target is gone, the original survives in the quarantine, and no
      further rollback brings it back. */
  lemma StrandedState(r: Receipt, a: Fs, b: Fs)
    requires WellFormed(r, a) && Mid(r, a, b)
    requires !Decidable(r, b) && r.rollbackNew !in b
    ensures
      var steps := RollbackSteps(r, b).0;
      && |steps| == 3
      && Stranded(r, a, steps[1])
      && RollbackSteps(r, steps[1]) == ([steps[1]], false)
  {
    var s := Removed(b, r.staging);
    var stranded := Moved(s, r.target, r.rollbackNew);
    assert Removed(stranded, r.staging) == stranded;
    assert RollbackSteps(r, b).0[1] == stranded;
  }

  /** Interrupting rollback anywhere and running it again ends in the same place; once more changes nothing. */
  lemma RollbackConverges(r: Receipt, a: Fs, b: Fs, k: nat)
    requires WellFormed(r, a) && Mid(r, a, b) && r.before != r.after
    requires k < |RollbackSteps(r, b).0|
    ensures
      var interrupted, final := RollbackSteps(r, b).0[k], RollbackResult(r, b);
      && RollbackOk(r, interrupted)
      && RollbackResult(r, interrupted) == final
      && RollbackSteps(r, final) == ([final], true)
  {
    var interrupted, final := RollbackSteps(r, b).0[k], RollbackResult(r, b);
    RollbackIsInterruptible(r, a, b);
    RollbackRestores(r, a, b);
    RollbackRestores(r, a, interrupted);
    assert Removed(interrupted, r.staging) == interrupted;
    assert Removed(final, r.staging) == final;
  }

  /** An undoable state is decidable and the target is missing or has one of the receipt's fingerprints. */
  predicate Undoable(r: Receipt, b: Fs) {
    Decidable(r, b) && FingerprintAt(b, r.target) in {Some(r.before), Some(r.after), Some(Missing)}
  }

  /** A misplaced entry stays where it is; rollback is content with it exactly when it happens to have
      the fingerprint of the original. */
  lemma MisplacedStays(r: Receipt, a: Fs, b: Fs)
    requires WellFormed(r, a) && Misplaced(r, a, b)
    ensures RollbackSteps(r, b) == ([Removed(b, r.staging)], Undoable(r, b))
    ensures Undoable(r, b) <==> FingerprintAt(b, r.target) == Some(r.before)
  {
  }

  // ---- Rollback among outside edits ----------------------------------------------------------

  /** The entries at the target, in the backup and in the quarantine. */
  datatype Trio = Trio(target: Option<Entry>, backup: Option<Entry>, quarantine: Option<Entry>)

  function Held(r: Receipt, fs: Fs): Trio {
    Trio(Lookup(fs, r.target), BackupOf(r, fs), Lookup(fs, r.rollbackNew))
  }

  predicate Permutes(x: Trio, y: Trio) {
    || y == x
    || y == Trio(x.backup, x.target, x.quarantine)
    || y == Trio(x.target, x.quarantine, x.backup)
    || y == Trio(x.quarantine, x.backup, x.target)
    || y == Trio(x.backup, x.quarantine, x.target)
    || y == Trio(x.quarantine, x.target, x.backup)
  }

  predicate SeparatePaths(r: Receipt) {
    && r.target.Governed?
    && r.rollbackNew.Control? && r.rollbackNew.slot.RollbackSlot?
    && (r.backup.Some? ==> r.backup.value.Control? && r.backup.value.slot.BackupSlot?)
    && (r.staging.Some? ==> r.staging.value.StagingPath?)
  }

  /** `fs` holds the same entries as `before`, some of them at another of the three paths. */
  ghost predicate Keeps(r: Receipt, before: Fs, fs: Fs) {
    Permutes(Held(r, before), Held(r, fs)) && SameOutside(before, fs, Paths(r))
  }

  lemma MoveKeeps(r: Receipt, before: Fs, fs: Fs, src: Path, dst: Path)
    requires SeparatePaths(r) && Keeps(r, before, fs)
    requires src in fs && dst !in fs
    requires
      || (src == r.target && dst == r.rollbackNew)
      || (src == r.rollbackNew && dst == r.target)
      || (Some(src) == r.backup && dst == r.target)
    ensures Keeps(r, before, Moved(fs, src, dst))
  {
    var h, m := Held(r, fs), Moved(fs, src, dst);
    assert Permutes(h, Held(r, m));
    assert SameOutside(fs, m, Paths(r));
  }

  lemma RestoreKeeps(r: Receipt, before: Fs, fs: Fs, k: nat)
    requires SeparatePaths(r) && Keeps(r, before, fs) && r.target !in fs
    requires k < |RestoreStep(r, fs).0|
    ensures Keeps(r, before, RestoreStep(r, fs).0[k])
  {
    if r.backup.Some? && r.backup.value in fs {
      MoveKeeps(r, before, fs, r.backup.value, r.target);
    } else if r.rollbackNew in fs {
      MoveKeeps(r, before, fs, r.rollbackNew, r.target);
    }
  }

  /** Whatever the disk holds, rollback loses nothing: the entries at target, backup and quarantine
      are only permuted, and everything else but the staging entry stays. */
  lemma RollbackLosesNothing(r: Receipt, fs: Fs, k: nat)
    requires SeparatePaths(r)
    requires k < |RollbackSteps(r, fs).0|
    ensures Keeps(r, fs, RollbackSteps(r, fs).0[k])
  {
    var s := Removed(fs, r.staging);
    assert Keeps(r, fs, s);
    if k > 0 {
      if r.target in s {
        var quarantined := Moved(s, r.target, r.rollbackNew);
        MoveKeeps(r, fs, s, r.target, r.rollbackNew);
        if k > 1 {
          RestoreKeeps(r, fs, quarantined, k - 2);
        }
      } else {
        RestoreKeeps(r, fs, s, k - 1);
      }
    }
  }

  /** An entry that is neither the original, nor the applied one, nor missing is left alone. */
  lemma RollbackSparesOutsideEdits(r: Receipt, fs: Fs)
    requires SeparatePaths(r)
    requires FingerprintAt(fs, r.target) !in {Some(r.before), Some(r.after), Some(Missing)}
    ensures RollbackSteps(r, fs) == ([Removed(fs, r.staging)], false)
  {
  }

  // ---- Rollback move by move, on a failing disk and in any state ---------------------------------

  /** One disk operation of a rollback: clear the staging entry, perhaps only in part, quarantine the
      applied entry, restore the backup, or put the quarantined entry back. */
  predicate RollbackMove(r: Receipt, x: Fs, y: Fs) {
    || (r.staging.Some? && y == Removed(x, r.staging))
    || (r.staging.Some? && Torn(x, y, r.staging.value))
    || (&& r.target in x && FingerprintAt(x, r.target) == Some(r.after)
        && r.rollbackNew !in x && y == Moved(x, r.target, r.rollbackNew))
    || (r.backup.Some? && r.backup.value in x && r.target !in x && y == Moved(x, r.backup.value, r.target))
    || (r.backup.Some? && r.rollbackNew in x && r.target !in x && y == Moved(x, r.rollbackNew, r.target))
  }

  /** A rollback that reports success has verified the target, and has used the backup when the
      fingerprint alone cannot tell. */
  predicate RollbackEnds(r: Receipt, x: Fs, y: Fs) {
    && FingerprintAt(y, r.target) == Some(r.before)
    && (r.before != r.after || r.backup.None? || (BackupOf(r, x).Some? && BackupOf(r, y).None?))
  }

  /** The backup holds the original if anything, the quarantine an entry like the applied one. */
  predicate AuxSound(r: Receipt, a: Fs, fs: Fs) {
    && (BackupOf(r, fs).Some? ==> BackupOf(r, fs) == Lookup(a, r.target))
    && (r.rollbackNew in fs ==> FingerprintAt(fs, r.rollbackNew) == Some(r.after))
  }

  /** What a mutation and rollbacks of it lead to when nothing else acts on the target. */
  predicate Settled(r: Receipt, a: Fs, fs: Fs) {
    WellFormed(r, a) && (Local(r, a, fs) || Stranded(r, a, fs))
  }

  /** The quarantine is taken while an entry like the applied one is in place. */
  predicate Blocked(r: Receipt, fs: Fs) {
    r.target in fs && FingerprintAt(fs, r.target) == Some(r.after) && r.rollbackNew in fs
  }

  /** The backup has been used up before its turn. */
  predicate Spent(r: Receipt, fs: Fs) {
    r.backup.Some? && BackupOf(r, fs).None? && (r.before == r.after || FingerprintAt(fs, r.target) != Some(r.before))
  }

  /** Nothing but this receipt acts on the target any more: it is settled, or no rollback of it will
      ever report success. */
  predicate Exposed(r: Receipt, a: Fs, fs: Fs) {
    || Settled(r, a, fs)
    || (WellFormed(r, a) && AuxSound(r, a, fs) && (Blocked(r, fs) || Spent(r, fs)))
  }

  /** What an attempt to roll back, interrupted or not, makes of a disk. */
  ghost predicate Attempted(r: Receipt, a: Fs, x: Fs, y: Fs) {
    && SameOutside(x, y, Paths(r))
    && (AuxSound(r, a, x) ==> AuxSound(r, a, y))
    && (Settled(r, a, x) ==> Settled(r, a, y))
    && (Exposed(r, a, x) ==> Exposed(r, a, y))
    && (Blocked(r, x) ==> Blocked(r, y) && BackupOf(r, y) == BackupOf(r, x))
  }

  lemma MoveKeepsAux(r: Receipt, a: Fs, x: Fs, y: Fs)
    requires SeparatePaths(r) && RollbackMove(r, x, y)
    ensures SameOutside(x, y, Paths(r))
    ensures AuxSound(r, a, x) ==> AuxSound(r, a, y)
    ensures Blocked(r, x) ==> Blocked(r, y) && BackupOf(r, y) == BackupOf(r, x)
  {
  }

  lemma MoveKeepsSettled(r: Receipt, a: Fs, x: Fs, y: Fs)
    requires RollbackMove(r, x, y) && Settled(r, a, x)
    ensures Settled(r, a, y)
  {
  }

  lemma MoveKeepsExposed(r: Receipt, a: Fs, x: Fs, y: Fs)
    requires SeparatePaths(r) && RollbackMove(r, x, y) && Exposed(r, a, x)
    ensures Exposed(r, a, y)
  {
    if Settled(r, a, x) {
      MoveKeepsSettled(r, a, x, y);
    } else {
      MoveKeepsAux(r, a, x, y);
    }
  }

  lemma AttemptGoesOn(r: Receipt, a: Fs, x: Fs, y: Fs, z: Fs)
    requires SeparatePaths(r) && Attempted(r, a, x, y) && RollbackMove(r, y, z)
    ensures Attempted(r, a, x, z)
  {
    MoveKeepsAux(r, a, y, z);
    if Settled(r, a, y) {
      MoveKeepsSettled(r, a, y, z);
    }
    if Exposed(r, a, y) {
      MoveKeepsExposed(r, a, y, z);
    }
  }

  /** Success from an exposed state puts the very original back. */
  lemma ExposedEnds(r: Receipt, a: Fs, x: Fs, y: Fs)
    requires Exposed(r, a, x) && Attempted(r, a, x, y) && RollbackEnds(r, x, y)
    ensures Lookup(y, r.target) == Lookup(a, r.target)
  {
    if !Settled(r, a, y) {
      assert Blocked(r, x) || Spent(r, x);
      if Blocked(r, x) {
        BlockedNeverEnds(r, a, x, y);
      } else {
        SpentNeverEnds(r, a, x, y);
      }
    }
    SettledEnds(r, a, y);
  }

  lemma SettledEnds(r: Receipt, a: Fs, y: Fs)
    requires Settled(r, a, y) && FingerprintAt(y, r.target) == Some(r.before)
    requires r.before != r.after || r.backup.None? || BackupOf(r, y).None?
    ensures Lookup(y, r.target) == Lookup(a, r.target)
  {
    assert !BackedUp(r, a, y) && !Stranded(r, a, y);
  }

  lemma BlockedNeverEnds(r: Receipt, a: Fs, x: Fs, y: Fs)
    requires WellFormed(r, a) && Blocked(r, x) && Attempted(r, a, x, y)
    ensures !RollbackEnds(r, x, y)
  {
    assert Blocked(r, y) && BackupOf(r, y) == BackupOf(r, x);
  }

  lemma SpentNeverEnds(r: Receipt, a: Fs, x: Fs, y: Fs)
    requires Spent(r, x) && Exposed(r, a, y) && !Settled(r, a, y)
    ensures !RollbackEnds(r, x, y)
  {
    assert Blocked(r, y) || Spent(r, y);
  }
}
