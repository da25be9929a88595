/** When walking a staged tree gives back the staged files, and when it does not. */
module StagingRoundTrip {
  import opened Prelude
  import opened Sorting
  import opened RelativePath
  import opened Artifact
  import opened Staging

  /** What one file must satisfy: a normal, marker-free, NUL-free path and a normalised mode. */
  predicate StageableFile(f: ArtifactFile) {
    && IsSafe(f.relativePath)
    && NulFree(f.relativePath)
    && Join(Components(f.relativePath)) == f.relativePath
    && MANAGED_MARKER !in Components(f.relativePath)
    && NormalizedMode(f.mode) == f.mode
  }

  predicate Unrelated(a: seq<Name>, b: seq<Name>) {
    !(a <= b) && !(b <= a)
  }

  /** ... and no path may be a directory prefix of another. */
  predicate Stageable(files: seq<ArtifactFile>) {
    && (forall i :: 0 <= i < |files| ==> StageableFile(files[i]))
    && (forall i, j :: 0 <= i < j < |files| ==>
          Unrelated(Components(files[i].relativePath), Components(files[j].relativePath)))
  }

  /** The component paths of the files below a directory. */
  function LeafPaths(prefix: seq<Name>, t: Tree): set<seq<Name>>
    decreases t
  {
    if t.Empty? then {}
    else if t.File? then {prefix + [t.name]} + LeafPaths(prefix, t.rest)
    else if t.Dir? then LeafPaths(prefix + [t.name], t.entries) + LeafPaths(prefix, t.rest)
    else LeafPaths(prefix, t.rest)
  }

  /** A tree holding only files and non-empty directories, none of them named as the marker. */
  predicate Clean(t: Tree) {
    t.Empty? || (
      && t.name != MANAGED_MARKER
      && (t.File? || (t.Dir? && !t.entries.Empty? && Clean(t.entries)))
      && Clean(t.rest))
  }

  // ---- Stageable lists survive the round trip -----------------------------------------------

  lemma {:induction false} CleanHasLeaf(prefix: seq<Name>, t: Tree) returns (p: seq<Name>)
    requires Clean(t) && !t.Empty?
    ensures p in LeafPaths(prefix, t) && prefix < p
    decreases t
  {
    if t.Dir? {
      p := CleanHasLeaf(prefix + [t.name], t.entries);
    } else {
      p := prefix + [t.name];
    }
  }

  function NewFile(path: seq<Name>, mode: nat, content: Bytes): ArtifactFile {
    ArtifactFile(Join(path), NormalizedMode(mode), content)
  }

  lemma {:induction false} ChainAddsFile(prefix: seq<Name>, path: seq<Name>, mode: nat, content: Bytes, rest: Tree)
    requires path != [] && MANAGED_MARKER !in path && Clean(rest)
    ensures
      var t := Chain(path, mode, content, rest);
      && !t.Empty? && Clean(t)
      && LeafPaths(prefix, t) == LeafPaths(prefix, rest) + {prefix + path}
      && Leaves(prefix, t) == [NewFile(prefix + path, mode, content)] + Leaves(prefix, rest)
    decreases |path|
  {
    if |path| == 1 {
      assert path == [path[0]];
    } else {
      ChainAddsFile(prefix + [path[0]], path[1..], mode, content, Empty);
      assert prefix + [path[0]] + path[1..] == prefix + path;
    }
  }

  /** What a successful write adds. */
  ghost predicate Adds(prefix: seq<Name>, t: Tree, r: Option<Tree>, path: seq<Name>, file: ArtifactFile) {
    && r.Some? && !r.value.Empty? && Clean(r.value)
    && LeafPaths(prefix, r.value) == LeafPaths(prefix, t) + {path}
    && multiset(Leaves(prefix, r.value)) == multiset(Leaves(prefix, t)) + multiset{file}
  }

  ghost predicate Fresh(prefix: seq<Name>, t: Tree, path: seq<Name>) {
    forall p :: p in LeafPaths(prefix, t) ==> Unrelated(p, path)
  }

  /** An entry with the first name of a fresh path is a directory that has to be entered. */
  lemma FreshEntersDirectory(prefix: seq<Name>, t: Tree, path: seq<Name>)
    requires path != [] && Clean(t) && !t.Empty? && path[0] == t.name
    requires Fresh(prefix, t, prefix + path)
    ensures t.Dir? && |path| > 1 && Fresh(prefix + [t.name], t.entries, prefix + [t.name] + path[1..])
  {
    var here := prefix + [t.name];
    assert here <= prefix + path;
    if t.File? {
      assert here in LeafPaths(prefix, t);
      assert false;
    }
    assert LeafPaths(here, t.entries) <= LeafPaths(prefix, t);
    if |path| == 1 {
      assert prefix + path == here;
      var p := CleanHasLeaf(here, t.entries);
      assert false;
    }
    assert here + path[1..] == prefix + path;
  }

  /** What is added below a directory, or behind the first entry, is added to the tree. */
  lemma AddsBelow(prefix: seq<Name>, t: Tree, r: Option<Tree>, path: seq<Name>, file: ArtifactFile)
    requires t.Dir? && Clean(t) && Adds(prefix + [t.name], t.entries, r, path, file)
    ensures Adds(prefix, t, Some(Dir(t.name, r.value, t.rest)), path, file)
  {
  }

  lemma AddsBehind(prefix: seq<Name>, t: Tree, r: Option<Tree>, path: seq<Name>, file: ArtifactFile)
    requires (t.File? || t.Dir?) && Clean(t) && Adds(prefix, t.rest, r, path, file)
    ensures t.File? ==> Adds(prefix, t, Some(File(t.name, t.mode, t.content, r.value)), path, file)
    ensures t.Dir? ==> Adds(prefix, t, Some(Dir(t.name, t.entries, r.value)), path, file)
  {
  }

  /** Writing a file whose path is unrelated to all others succeeds and adds exactly that file. */
  lemma {:induction false} PutAddsFile(prefix: seq<Name>, t: Tree, path: seq<Name>, mode: nat, content: Bytes)
    requires path != [] && MANAGED_MARKER !in path && Clean(t)
    requires Fresh(prefix, t, prefix + path)
    ensures Adds(prefix, t, Put(t, path, mode, content), prefix + path, NewFile(prefix + path, mode, content))
    decreases t
  {
    if t.Empty? || (path[0] != t.name && LexLe(path[0], t.name)) {
      ChainAddsFile(prefix, path, mode, content, t);
    } else if path[0] == t.name {
      FreshEntersDirectory(prefix, t, path);
      var here := prefix + [t.name];
      PutAddsFile(here, t.entries, path[1..], mode, content);
      assert here + path[1..] == prefix + path;
      AddsBelow(prefix, t, Put(t.entries, path[1..], mode, content), prefix + path,
                NewFile(prefix + path, mode, content));
    } else {
      assert LeafPaths(prefix, t.rest) <= LeafPaths(prefix, t);
      PutAddsFile(prefix, t.rest, path, mode, content);
      AddsBehind(prefix, t, Put(t.rest, path, mode, content), prefix + path, NewFile(prefix + path, mode, content));
    }
  }

  ghost function PathsOf(files: seq<ArtifactFile>): set<seq<Name>> {
    set f | f in files :: Components(f.relativePath)
  }

  ghost predicate Holds(t: Tree, files: seq<ArtifactFile>) {
    && Clean(t)
    && LeafPaths([], t) == PathsOf(files)
    && multiset(Leaves([], t)) == multiset(files)
  }

  lemma StageFileHolds(t: Tree, files: seq<ArtifactFile>, last: ArtifactFile)
    requires Stageable(files + [last]) && Holds(t, files)
    ensures StageFile(t, last).Some? && Holds(StageFile(t, last).value, files + [last])
  {
    var path := Components(last.relativePath);
    var all := files + [last];
    assert all[|files|] == last;
    assert StageableFile(last);
    SafeComponents(last.relativePath);
    ComponentsUndoJoin(path);
    assert [] + path == path;
    forall p | p in LeafPaths([], t) ensures Unrelated(p, path) {
      var f :| f in files && p == Components(f.relativePath);
      var k :| 0 <= k < |files| && files[k] == f;
      assert all[k] == f;
    }
    PutAddsFile([], t, path, NormalizedMode(last.mode), last.content);
    assert PathsOf(all) == PathsOf(files) + {path};
    assert NewFile(path, NormalizedMode(last.mode), last.content) == last;
  }

  lemma {:induction false} StageFilesHolds(files: seq<ArtifactFile>)
    requires Stageable(files)
    ensures StageFiles(files).Some? && Holds(StageFiles(files).value, files)
  {
    if files != [] {
      var init, last := files[..|files| - 1], files[|files| - 1];
      assert files == init + [last];
      assert Stageable(init);
      StageFilesHolds(init);
      StageFileHolds(StageFiles(init).value, init, last);
    }
  }

  lemma {:induction false} CleanWalkable(t: Tree)
    requires Clean(t)
    ensures Walkable(t)
    decreases t
  {
    if !t.Empty? {
      CleanWalkable(t.rest);
      if t.Dir? {
        CleanWalkable(t.entries);
      }
    }
  }

  /** The marker file is invisible to the walk. */
  lemma {:induction false} MarkerInvisible(t: Tree, marker: Bytes)
    requires Clean(t)
    ensures
      var r := Put(t, [MANAGED_MARKER], DEFAULT_MODE, marker);
      r.Some? && Walkable(r.value) && Leaves([], r.value) == Leaves([], t)
  {
    CleanWalkable(t);
    if !t.Empty? {
      MarkerInvisible(t.rest, marker);
    }
  }

  // ---- Only stageable lists do ---------------------------------------------------------------

  predicate Below(n: Name, t: Tree) {
    t.Empty? || (n != t.name && LexLe(n, t.name))
  }

  /** Names a file system can hold, strictly ascending in every directory. */
  predicate Ordered(t: Tree) {
    t.Empty? || (
      && ValidName(t.name) && NulFree(t.name)
      && Below(t.name, t.rest) && Ordered(t.rest)
      && (t.Dir? ==> Ordered(t.entries)))
  }

  predicate GoodNames(path: seq<Name>) {
    ValidNames(path) && forall i :: 0 <= i < |path| ==> NulFree(path[i])
  }

  lemma {:induction false} ChainOrdered(path: seq<Name>, mode: nat, content: Bytes, rest: Tree)
    requires path != [] && GoodNames(path) && Ordered(rest) && Below(path[0], rest)
    ensures Ordered(Chain(path, mode, content, rest))
    decreases |path|
  {
    if |path| > 1 {
      ChainOrdered(path[1..], mode, content, Empty);
    }
  }

  lemma {:induction false} PutOrdered(t: Tree, path: seq<Name>, mode: nat, content: Bytes)
    requires path != [] && GoodNames(path) && Ordered(t)
    requires Put(t, path, mode, content).Some?
    ensures Ordered(Put(t, path, mode, content).value)
    ensures !Put(t, path, mode, content).value.Empty?
    ensures Put(t, path, mode, content).value.name == path[0]
      || (!t.Empty? && Put(t, path, mode, content).value.name == t.name)
    decreases t
  {
    if t.Empty? || (path[0] != t.name && LexLe(path[0], t.name)) {
      ChainOrdered(path, mode, content, t);
    } else if path[0] == t.name {
      if |path| > 1 {
        PutOrdered(t.entries, path[1..], mode, content);
      }
    } else {
      PutOrdered(t.rest, path, mode, content);
      LexTotal(path[0], t.name);
    }
  }

  lemma {:induction false} PieceNulFree(s: Bytes)
    requires NulFree(s)
    ensures forall p :: p in Split(s) ==> NulFree(p)
  {
    if s != [] {
      PieceNulFree(s[1..]);
      var r := Split(s[1..]);
      assert r[0] in r;
      forall p | p in Split(s) ensures NulFree(p) {
        assert p == [] || p == [s[0]] + r[0] || p in r;
      }
    }
  }

  lemma {:induction false} StageFilesOrdered(files: seq<ArtifactFile>)
    requires StageFiles(files).Some?
    ensures Ordered(StageFiles(files).value)
  {
    if files != [] {
      var init, last := files[..|files| - 1], files[|files| - 1];
      StageFilesOrdered(init);
      SafeComponents(last.relativePath);
      PieceNulFree(last.relativePath);
      var path := Components(last.relativePath);
      forall i | 0 <= i < |path| ensures NulFree(path[i]) {
        assert path[i] in Normal(Split(last.relativePath));
      }
      PutOrdered(StageFiles(init).value, path, NormalizedMode(last.mode), last.content);
    }
  }

  lemma StageOrdered(files: seq<ArtifactFile>, marker: Bytes)
    requires Stage(files, marker).Some?
    ensures Ordered(Stage(files, marker).value)
  {
    StageFilesOrdered(files);
    PutOrdered(StageFiles(files).value, [MANAGED_MARKER], DEFAULT_MODE, marker);
  }

  lemma {:induction false} JoinNulFree(path: seq<Name>)
    requires GoodNames(path)
    ensures NulFree(Join(path))
  {
    if |path| > 1 {
      JoinNulFree(path[1..]);
    }
  }

  /** A walked file sits below `prefix`, in an entry not before the first one. */
  ghost predicate WalkedFrom(prefix: seq<Name>, t: Tree, f: ArtifactFile) {
    var c := Components(f.relativePath);
    && StageableFile(f)
    && prefix < c
    && !t.Empty? && LexLe(t.name, c[|prefix|])
  }

  lemma WalkedFile(prefix: seq<Name>, t: Tree)
    requires GoodNames(prefix) && MANAGED_MARKER !in prefix && Ordered(t)
    requires t.File? && t.name != MANAGED_MARKER
    ensures WalkedFrom(prefix, t, NewFile(prefix + [t.name], t.mode, t.content))
  {
    var path := prefix + [t.name];
    assert GoodNames(path);
    ComponentsUndoJoin(path);
    JoinNulFree(path);
    LexTotal(t.name, t.name);
  }

  /** Every file the walk reports is stageable. */
  lemma {:induction false} LeavesStageable(prefix: seq<Name>, t: Tree)
    requires GoodNames(prefix) && MANAGED_MARKER !in prefix && Ordered(t)
    ensures forall f :: f in Leaves(prefix, t) ==> WalkedFrom(prefix, t, f)
    decreases t
  {
    if !t.Empty? {
      LeavesStageable(prefix, t.rest);
      forall f | f in Leaves(prefix, t) ensures WalkedFrom(prefix, t, f) {
        if f in Leaves(prefix, t.rest) {
          LexTransitive(t.name, t.rest.name, Components(f.relativePath)[|prefix|]);
        } else if t.File? {
          WalkedFile(prefix, t);
        } else {
          LeavesStageable(prefix + [t.name], t.entries);
          assert f in Leaves(prefix + [t.name], t.entries);
          LexTotal(t.name, t.name);
        }
      }
    }
  }

  ghost predicate PairwiseUnrelated(fs: seq<ArtifactFile>) {
    forall i, j :: 0 <= i < j < |fs| ==>
      Unrelated(Components(fs[i].relativePath), Components(fs[j].relativePath))
  }

  ghost predicate CrossUnrelated(fs: seq<ArtifactFile>, gs: seq<ArtifactFile>) {
    forall f, g :: f in fs && g in gs ==> Unrelated(Components(f.relativePath), Components(g.relativePath))
  }

  lemma ConcatUnrelated(fs: seq<ArtifactFile>, gs: seq<ArtifactFile>)
    requires PairwiseUnrelated(fs) && PairwiseUnrelated(gs) && CrossUnrelated(fs, gs)
    ensures PairwiseUnrelated(fs + gs)
  {
  }

  /** The files of the first entry, and those of the entries after it, differ in one component. */
  lemma FirstEntryApart(prefix: seq<Name>, t: Tree, first: seq<ArtifactFile>)
    requires GoodNames(prefix) && MANAGED_MARKER !in prefix && Ordered(t) && !t.Empty?
    requires forall f :: f in first ==> prefix + [t.name] <= Components(f.relativePath)
    ensures CrossUnrelated(first, Leaves(prefix, t.rest))
  {
    LeavesStageable(prefix, t.rest);
    forall f, g | f in first && g in Leaves(prefix, t.rest)
      ensures Unrelated(Components(f.relativePath), Components(g.relativePath))
    {
      var c, d := Components(f.relativePath), Components(g.relativePath);
      assert c[|prefix|] == (prefix + [t.name])[|prefix|] == t.name;
      LexTotal(t.name, t.rest.name);
      assert d[|prefix|] != t.name;
    }
  }

  /** No walked file is a directory prefix of another. */
  lemma {:induction false} LeavesUnrelated(prefix: seq<Name>, t: Tree)
    requires GoodNames(prefix) && MANAGED_MARKER !in prefix && Ordered(t)
    ensures PairwiseUnrelated(Leaves(prefix, t))
    decreases t
  {
    if !t.Empty? {
      LeavesUnrelated(prefix, t.rest);
      if t.name != MANAGED_MARKER {
        var here := prefix + [t.name];
        if t.File? {
          var first := [NewFile(here, t.mode, t.content)];
          ComponentsUndoJoin(here);
          FirstEntryApart(prefix, t, first);
          ConcatUnrelated(first, Leaves(prefix, t.rest));
        } else if t.Dir? {
          LeavesUnrelated(here, t.entries);
          LeavesStageable(here, t.entries);
          FirstEntryApart(prefix, t, Leaves(here, t.entries));
          ConcatUnrelated(Leaves(here, t.entries), Leaves(prefix, t.rest));
        }
      }
    }
  }

  lemma UnrelatedIsOrderFree(fs: seq<ArtifactFile>, gs: seq<ArtifactFile>)
    requires multiset(fs) == multiset(gs) && PairwiseUnrelated(fs)
    ensures PairwiseUnrelated(gs)
  {
    SameElements(fs, gs);
    forall i, j | 0 <= i < j < |gs|
      ensures Unrelated(Components(gs[i].relativePath), Components(gs[j].relativePath))
    {
      if gs[i] == gs[j] {
        DuplicateCounts(gs, i, j);
        var k, l := TwoPositions(fs, gs[i]);
        assert false;
      }
      assert gs[i] in fs && gs[j] in fs;
      var k :| 0 <= k < |fs| && fs[k] == gs[i];
      var l :| 0 <= l < |fs| && fs[l] == gs[j];
    }
  }

  // ---- Flat bundles ----------------------------------------------------------------------------

  /** A directory that holds regular files only. */
  predicate Flat(t: Tree) {
    t.Empty? || (t.File? && Flat(t.rest))
  }

  lemma {:induction false} FlatPut(t: Tree, name: Name, mode: nat, content: Bytes)
    requires Flat(t)
    ensures Put(t, [name], mode, content).Some? && Flat(Put(t, [name], mode, content).value)
  {
    if !t.Empty? {
      FlatPut(t.rest, name, mode, content);
    }
  }

  /** Files directly in the root, whatever their names, can always be staged. */
  lemma {:induction false} FlatStages(files: seq<ArtifactFile>)
    requires forall i :: 0 <= i < |files| ==> ValidName(files[i].relativePath) && NulFree(files[i].relativePath)
    ensures StageFiles(files).Some? && Flat(StageFiles(files).value)
  {
    if files != [] {
      var last := files[|files| - 1];
      FlatStages(files[..|files| - 1]);
      ComponentsUndoJoin([last.relativePath]);
      FlatPut(StageFiles(files[..|files| - 1]).value, last.relativePath, NormalizedMode(last.mode), last.content);
    }
  }

  // ---- The round trip ------------------------------------------------------------------------

  ghost predicate RoundTrips(files: seq<ArtifactFile>, marker: Bytes) {
    var staged := Stage(files, marker);
    && staged.Some?
    && Walkable(staged.value)
    && multiset(Leaves([], staged.value)) == multiset(files)
  }

  /** Staging then walking gives back the same files exactly when the list is stageable. */
  lemma RoundTripExact(files: seq<ArtifactFile>, marker: Bytes)
    ensures RoundTrips(files, marker) <==> Stageable(files)
  {
    if Stageable(files) {
      StageFilesHolds(files);
      MarkerInvisible(StageFiles(files).value, marker);
    }
    if RoundTrips(files, marker) {
      var t := Stage(files, marker).value;
      StageOrdered(files, marker);
      LeavesStageable([], t);
      LeavesUnrelated([], t);
      UnrelatedIsOrderFree(Leaves([], t), files);
      SameElements(Leaves([], t), files);
      forall i | 0 <= i < |files| ensures StageableFile(files[i]) {
        assert files[i] in Leaves([], t);
      }
    }
  }

  /** The fingerprint check after activation: a staged tree loads with the bundle's own digest
      exactly when the bundle is stageable. */
  lemma StagedDigestExact(files: seq<ArtifactFile>, source: Option<Bytes>, marker: Bytes, at: Bytes)
    requires Finish(files, source).Ok?
    ensures
      var b := Finish(files, source).value;
      var staged := Stage(b.files, marker);
      (staged.Some? && Load(staged.value, at).Some?
        && Load(staged.value, at).value.contentDigest == b.contentDigest)
      <==> Stageable(b.files)
  {
    var b := Finish(files, source).value;
    FinishAccepts(files, source);
    RoundTripExact(b.files, marker);
    var staged := Stage(b.files, marker);
    if Stageable(b.files) {
      StagedLoads(files, source, Leaves([], staged.value), at);
    } else if staged.Some? && Load(staged.value, at).Some?
           && Load(staged.value, at).value.contentDigest == b.contentDigest {
      StageOrdered(b.files, marker);
      LeavesStageable([], staged.value);
      StagedNulFree(b.files);
      FinishIdempotent(files, source);
      ContentDigestIdentifiesFiles(Leaves([], staged.value), b.files, Some(at), source);
      assert false;
    }
  }

  lemma {:induction false} StagedNulFree(files: seq<ArtifactFile>)
    requires StageFiles(files).Some?
    ensures NulFreePaths(files)
  {
    if files != [] {
      StagedNulFree(files[..|files| - 1]);
      assert files == files[..|files| - 1] + [files[|files| - 1]];
    }
  }

  lemma FinishIdempotent(files: seq<ArtifactFile>, source: Option<Bytes>)
    requires Finish(files, source).Ok?
    ensures Finish(Finish(files, source).value.files, source) == Finish(files, source)
  {
    var sorted := SortByPath(files);
    assert SortByPath(sorted) == sorted by {
      FinishAccepts(files, source);
      PathOrder();
      DistinctSeparates(sorted);
      SortFixpoint(sorted, PathLe);
    }
  }

  /** A permutation of an accepted list is accepted with the same files and digests. */
  lemma StagedLoads(files: seq<ArtifactFile>, source: Option<Bytes>, leaves: seq<ArtifactFile>, at: Bytes)
    requires Finish(files, source).Ok?
    requires multiset(leaves) == multiset(Finish(files, source).value.files)
    ensures Finish(leaves, Some(at)) == Ok(Finish(files, source).value.(canonicalSource := Some(at)))
  {
    var b := Finish(files, source).value;
    FinishAccepts(files, source);
    FinishIdempotent(files, source);
    PermutationSorts(leaves, b.files);
    SourceAside(SortByPath(b.files), source, Some(at));
  }

  lemma PermutationSorts(xs: seq<ArtifactFile>, ys: seq<ArtifactFile>)
    requires multiset(xs) == multiset(ys) && DistinctPaths(ys)
    ensures SortByPath(xs) == SortByPath(ys)
  {
    PathOrder();
    DistinctSeparates(ys);
    SortIsCanonical(ys, xs, PathLe);
  }

  /** Where files come from changes nothing else. */
  lemma SourceAside(sorted: seq<ArtifactFile>, one: Option<Bytes>, other: Option<Bytes>)
    requires FinishSorted(sorted, one).Ok?
    ensures FinishSorted(sorted, other) == Ok(FinishSorted(sorted, one).value.(canonicalSource := other))
  {
  }

  /** A staged tree of a stageable bundle loads as that bundle, from wherever it is found. */
  lemma StagedTreeLoads(files: seq<ArtifactFile>, source: Option<Bytes>, marker: Bytes, at: Bytes)
    requires Finish(files, source).Ok? && Stageable(Finish(files, source).value.files)
    ensures
      var b := Finish(files, source).value;
      var staged := Stage(b.files, marker);
      staged.Some? && Load(staged.value, at) == Some(b.(canonicalSource := Some(at)))
  {
    var b := Finish(files, source).value;
    RoundTripExact(b.files, marker);
    StagedLoads(files, source, Leaves([], Stage(b.files, marker).value), at);
  }
}
