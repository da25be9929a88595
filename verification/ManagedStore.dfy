/** The content-addressed store of managed artifacts (crates/cocli-api/src/skill_apply.rs). */
module ManagedStore {
  import opened Prelude
  import opened Artifact
  import opened Staging
  import opened RelativePath
  import opened Sorting
  import opened StagingRoundTrip
  import opened FileSystem
  import opened Mutation
  import opened MutationPhases
  import opened Journal

  /** The entry name of a digest; the preimage stands for its hexadecimal text. */
  function EntryName(d: Digest): Option<Bytes> {
    if d.Sha256? then Some(d.preimage) else None
  }

  /** Every entry of the store has the digest it is named by. */
  ghost predicate ContentAddressed(fs: Fs, root: Bytes) {
    forall name :: Governed(root, name) in fs ==>
      FingerprintAt(fs, Governed(root, name)) == Some(Of(Sha256(name)))
  }

  /** No entry of the store is removed or rewritten. */
  ghost predicate Immutable(before: Fs, after: Fs, root: Bytes) {
    forall name :: Governed(root, name) in before ==>
      Lookup(after, Governed(root, name)) == Lookup(before, Governed(root, name))
  }

  ghost predicate Accepted(bundle: ArtifactBundle) {
    exists files, source :: Finish(files, source) == Ok(bundle)
  }

  /** A copy is faithful, when it can be staged at all, exactly for stageable bundles. */
  lemma CopyFaithfulExact(bundle: ArtifactBundle)
    requires Accepted(bundle)
    ensures StagedEntry(Copy(bundle)).Some? && Faithful(Copy(bundle)) <==> Stageable(bundle.files)
  {
    var files, source :| Finish(files, source) == Ok(bundle);
    StagedDigestExact(files, source, MARKER_TEXT, []);
  }

  lemma AcceptedDigest(bundle: ArtifactBundle)
    requires Accepted(bundle)
    ensures EntryName(bundle.contentDigest).Some?
    ensures bundle.contentDigest == Sha256(EntryName(bundle.contentDigest).value)
  {
  }

  /** The store at one moment of installations that began at `before`. Addresses are kept by bundles
      whose copies are faithful. */
  ghost predicate StoreKept(before: Fs, now: Fs, root: Bytes, exact: bool) {
    Immutable(before, now, root) && (exact && ContentAddressed(before, root) ==> ContentAddressed(now, root))
  }

  lemma BegunKeepsStore(r: Receipt, a: Fs, b: Fs, root: Bytes, name: Bytes, exact: bool)
    requires r.target == Governed(root, name) && r.before == Missing && r.after == Of(Sha256(name))
    requires WellFormed(r, a) && Begun(r, a, b, exact)
    ensures StoreKept(a, b, root, exact)
  {
    forall other | Governed(root, other) in a
      ensures Lookup(b, Governed(root, other)) == Lookup(a, Governed(root, other))
    {
      assert Governed(root, name) !in a;
    }
    if exact && ContentAddressed(a, root) {
      forall other | Governed(root, other) in b
        ensures FingerprintAt(b, Governed(root, other)) == Some(Of(Sha256(other)))
      {
        if other != name {
          assert Lookup(b, Governed(root, other)) == Lookup(a, Governed(root, other));
        }
      }
    }
  }

  /** A prepared installation of a new store entry, named by the digest of its bundle. */
  ghost predicate NewEntry(m: Prepared, fs: Fs, root: Bytes, run: nat, action: nat) {
    && m.payload.Copy? && Some(m.receipt.after) == ExpectedAfter(m.payload)
    && m.receipt.target.Governed? && m.receipt.target.root == root
    && m.receipt.after == Of(Sha256(m.receipt.target.name))
    && WellFormed(m.receipt, fs) && m.receipt.before == Missing
    && Named(m.receipt, run, action)
  }

  /** `prepare_managed_artifact_mutation`: nothing to do when the entry is there; an entry with another
      digest blocks. Nothing is written. */
  method PrepareManaged(store: Disk, scope: Bytes, root: Bytes, bundle: ArtifactBundle, run: nat, action: nat)
    returns (r: Result<Option<Prepared>, ()>)
    requires Accepted(bundle)
    ensures r.Ok? && r.value.Some? ==>
      NewEntry(r.value.value, store.entries, root, run, action) && r.value.value.payload == Copy(bundle)
    ensures
      var current := FingerprintAt(store.entries, Governed(root, bundle.contentDigest.preimage));
      && (r.Ok? && r.value.None? ==> current == Some(Of(bundle.contentDigest)))
      && (current !in {Some(Missing), Some(Of(bundle.contentDigest))} ==> r.Err?)
      && (store.reliable && current in {Some(Missing), Some(Of(bundle.contentDigest))} ==> r.Ok?)
  {
    AcceptedDigest(bundle);
    var name := EntryName(bundle.contentDigest).value;
    var current := store.FingerprintPath(Governed(root, name));
    if current.None? || (current != Some(Missing) && current != Some(Of(bundle.contentDigest))) {
      return Err(());
    }
    if current == Some(Of(bundle.contentDigest)) {
      return Ok(None);
    }
    var prepared := Prepare(store, scope, root, name, Copy(bundle), None, run, action);
    return if prepared.None? then Err(()) else Ok(prepared);
  }

  /** Backup, staging and activation of a new store entry. In every state the store goes through no
      existing entry has changed, and with a faithful copy every entry has the digest it is named by. */
  method InstallManaged(store: Disk, m: Prepared, root: Bytes, run: nat, action: nat, ghost exact: bool)
    returns (ok: bool)
    requires store.quiet && NewEntry(m, store.entries, root, run, action)
    requires FreshIds(store.entries, action) && (exact ==> Faithful(m.payload))
    modifies store
    ensures old(store.log) <= store.log
    ensures forall k :: |old(store.log)| <= k < |store.log| ==>
      StoreKept(old(store.entries), store.log[k], root, exact)
    ensures StoreKept(old(store.entries), store.entries, root, exact)
    ensures FreshIds(store.entries, action + 1)
    ensures ok ==> FingerprintAt(store.entries, m.receipt.target) == Some(m.receipt.after)
    ensures ok ==> Lookup(store.entries, m.receipt.target) == StagedEntry(m.payload)
    ensures store.reliable && StagedEntry(m.payload).Some? ==>
      ok == Faithful(m.payload) && Lookup(store.entries, m.receipt.target) == StagedEntry(m.payload)
  {
    ghost var a, r, start := store.entries, m.receipt, |store.log|;
    ok := Backup(store, m.receipt, a);
    if ok {
      ok := StagePayload(store, m, a);
      if ok {
        ok := Activate(store, m, a, exact);
      }
    }
    forall k | start <= k < |store.log| ensures StoreKept(a, store.log[k], root, exact) {
      BegunKeepsStore(r, a, store.log[k], root, r.target.name, exact);
    }
    BegunKeepsStore(r, a, store.entries, root, r.target.name, exact);
    FreshAfter(r, a, store.entries, run, action);
  }

  lemma StoreKeptTransitive(a: Fs, b: Fs, c: Fs, root: Bytes, exact: bool)
    requires StoreKept(a, b, root, exact) && StoreKept(b, c, root, exact)
    ensures StoreKept(a, c, root, exact)
  {
    forall name | Governed(root, name) in a
      ensures Lookup(c, Governed(root, name)) == Lookup(a, Governed(root, name))
    {
      assert Lookup(b, Governed(root, name)) == Lookup(a, Governed(root, name));
    }
  }

  /** The entry of an accepted bundle that is not stageable but can be staged has neither its digest nor is
      it missing. */
  lemma MisfitSpoilsEntry(bundle: ArtifactBundle, fs: Fs, root: Bytes)
    requires Accepted(bundle) && !Stageable(bundle.files)
    requires StagedEntry(Copy(bundle)).Some?
    ensures
      var path := Governed(root, bundle.contentDigest.preimage);
      var spoiled := fs[path := StagedEntry(Copy(bundle)).value];
      && FingerprintAt(spoiled, path) != Some(Of(bundle.contentDigest))
      && FingerprintAt(spoiled, path) != Some(Missing)
      && !ContentAddressed(spoiled, root)
  {
    CopyFaithfulExact(bundle);
    AcceptedDigest(bundle);
    var path := Governed(root, bundle.contentDigest.preimage);
    var spoiled := fs[path := StagedEntry(Copy(bundle)).value];
    assert Lookup(spoiled, path) == StagedEntry(Copy(bundle));
  }

  /** Such a bundle spoils its store entry for good: even on a disk without faults the installation
      renames it into place before its check fails, and preparing the same artifact again is refused. */
  method InstallMisfit(store: Disk, scope: Bytes, root: Bytes, bundle: ArtifactBundle, run: nat, action: nat)
    returns (installed: bool, again: Result<Option<Prepared>, ()>)
    requires store.reliable && store.quiet && FreshIds(store.entries, action)
    requires Accepted(bundle) && !Stageable(bundle.files) && StagedEntry(Copy(bundle)).Some?
    requires Governed(root, bundle.contentDigest.preimage) !in store.entries
    modifies store
    ensures !installed && again.Err?
    ensures Lookup(store.entries, Governed(root, bundle.contentDigest.preimage)) == StagedEntry(Copy(bundle))
    ensures !ContentAddressed(store.entries, root)
  {
    ghost var path := Governed(root, bundle.contentDigest.preimage);
    AcceptedDigest(bundle);
    CopyFaithfulExact(bundle);
    var prepared := PrepareManaged(store, scope, root, bundle, run, action);
    var m := prepared.value.value;
    assert m.receipt.target == path;
    installed := InstallManaged(store, m, root, run, action, false);
    MisfitSpoilsEntry(bundle, store.entries, root);
    assert store.entries[path := StagedEntry(Copy(bundle)).value] == store.entries;
    again := PrepareManaged(store, scope, root, bundle, run, action + 1);
  }

  /** A link to a freshly stored artifact is faithful: the directory found at its destination has the
      digests that the link announces. */
  lemma StoredLinkFaithful(bundle: ArtifactBundle, destination: Bytes, stored: Entry)
    requires Accepted(bundle) && Some(stored) == StagedEntry(Copy(bundle))
    requires FingerprintOf(Some(stored)) == Some(Of(bundle.contentDigest))
    ensures stored.DirEntry?
    ensures Faithful(Link(bundle.(canonicalSource := Some(destination)), stored.tree))
  {
    CopyFaithfulExact(bundle);
    var files, source :| Finish(files, source) == Ok(bundle);
    StagedTreeLoads(files, source, MARKER_TEXT, destination);
  }

  /** A Skill with a root file named like the marker. */
  function MarkedFiles(manifest: Bytes, content: Bytes): seq<ArtifactFile> {
    [ArtifactFile(SKILL_MD, DEFAULT_MODE, manifest), ArtifactFile(MANAGED_MARKER, DEFAULT_MODE, content)]
  }

  lemma MarkedAccepted(manifest: Bytes, content: Bytes, source: Option<Bytes>)
    requires |manifest| + |content| <= MAX_ARTIFACT_BYTES
    ensures Finish(MarkedFiles(manifest, content), source).Ok?
  {
    var files := MarkedFiles(manifest, content);
    assert files[..1] == [files[0]] && files[..1][..0] == [];
    assert TotalBytes(files[..1]) == |manifest|;
    assert files[0].relativePath == SKILL_MD;
    FinishExact(files, source);
  }

  lemma MarkedStages(files: seq<ArtifactFile>, manifest: Bytes, content: Bytes)
    requires multiset(files) == multiset(MarkedFiles(manifest, content))
    ensures Stage(files, MARKER_TEXT).Some?
  {
    var marked := MarkedFiles(manifest, content);
    SameElements(files, marked);
    forall i | 0 <= i < |files| ensures ValidName(files[i].relativePath) && NulFree(files[i].relativePath) {
      assert files[i] in marked;
    }
    FlatStages(files);
    FlatPut(StageFiles(files).value, MANAGED_MARKER, DEFAULT_MODE, MARKER_TEXT);
  }

  lemma MarkedMisfit(files: seq<ArtifactFile>, manifest: Bytes, content: Bytes)
    requires multiset(files) == multiset(MarkedFiles(manifest, content))
    ensures !Stageable(files)
  {
    var marked := MarkedFiles(manifest, content);
    SameElements(files, marked);
    assert marked[1] in files;
    var i :| 0 <= i < |files| && files[i] == marked[1];
    ComponentsUndoJoin([MANAGED_MARKER]);
    assert MANAGED_MARKER in Components(files[i].relativePath);
  }

  /** Whatever the two files hold, such a Skill is accepted, can be staged, and spoils its store entry. */
  lemma MarkerFileSpoilsEntry(manifest: Bytes, content: Bytes, source: Option<Bytes>, fs: Fs, root: Bytes)
    requires |manifest| + |content| <= MAX_ARTIFACT_BYTES
    ensures
      var finished := Finish(MarkedFiles(manifest, content), source);
      && finished.Ok? && Accepted(finished.value) && !Stageable(finished.value.files)
      && StagedEntry(Copy(finished.value)).Some?
      && !ContentAddressed(fs[Governed(root, finished.value.contentDigest.preimage)
                              := StagedEntry(Copy(finished.value)).value], root)
  {
    var files := MarkedFiles(manifest, content);
    MarkedAccepted(manifest, content, source);
    FinishAccepts(files, source);
    var bundle := Finish(files, source).value;
    MarkedStages(bundle.files, manifest, content);
    MarkedMisfit(bundle.files, manifest, content);
    MisfitSpoilsEntry(bundle, fs, root);
  }
}
