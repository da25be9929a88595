/** Directory trees, the copy-staging writer and the walk that reads a Skill back
    (crates/cocli-api/src/skill_apply.rs). */
module Staging {
  import opened Prelude
  import opened Sorting
  import opened RelativePath
  import opened Artifact

  /** ".cocli-managed" */
  const MANAGED_MARKER: Name := [46, 99, 111, 99, 108, 105, 45, 109, 97, 110, 97, 103, 101, 100]
  const DEFAULT_MODE: nat := 0x1A4  // 0o644

  /** The entries of one directory, in the order of their names. */
  datatype Tree =
    | Empty
    | File(name: Name, mode: nat, content: Bytes, rest: Tree)
    | Dir(name: Name, entries: Tree, rest: Tree)
    | Other(name: Name, isSymlink: bool, rest: Tree)

  function NormalizedMode(mode: nat): (r: nat)
    ensures 0 < r < 0x200
    ensures mode % 0x200 != 0 ==> r == mode % 0x200
    ensures mode % 0x200 == 0 ==> r == DEFAULT_MODE
  {
    if mode % 0x200 == 0 then DEFAULT_MODE else mode % 0x200
  }

  // ---- Reading ------------------------------------------------------------------------------

  /** The regular files below a directory, marker entries skipped at every level. */
  function Leaves(prefix: seq<Name>, t: Tree): seq<ArtifactFile>
    decreases t
  {
    if t.Empty? then []
    else if t.name == MANAGED_MARKER then Leaves(prefix, t.rest)
    else if t.File? then
      [ArtifactFile(Join(prefix + [t.name]), NormalizedMode(t.mode), t.content)] + Leaves(prefix, t.rest)
    else if t.Dir? then Leaves(prefix + [t.name], t.entries) + Leaves(prefix, t.rest)
    else Leaves(prefix, t.rest)
  }

  /** No entry the walk would visit is a symlink or a special file. */
  predicate Walkable(t: Tree) {
    t.Empty? || (
      && (t.name == MANAGED_MARKER || t.File? || (t.Dir? && Walkable(t.entries)))
      && Walkable(t.rest))
  }

  datatype WalkError = NeedsManualReview | UnsupportedType | TooManyFiles

  /** `walk_local_artifact`: visits the entries in order and pushes every file it meets. */
  method WalkLocalArtifact(prefix: seq<Name>, current: Tree, files: seq<ArtifactFile>)
    returns (r: Result<seq<ArtifactFile>, WalkError>)
    requires |files| <= MAX_ARTIFACT_FILES
    ensures r.Ok? <==> Walkable(current) && |files + Leaves(prefix, current)| <= MAX_ARTIFACT_FILES
    ensures r.Ok? ==> r.value == files + Leaves(prefix, current)
    decreases current
  {
    var entries, pushed := current, files;
    while !entries.Empty?
      invariant Walkable(current) <==> Walkable(entries)
      invariant pushed + Leaves(prefix, entries) == files + Leaves(prefix, current)
      invariant |pushed| <= MAX_ARTIFACT_FILES
      invariant entries == current || entries < current
      decreases entries
    {
      var entry := entries;
      if entry.name != MANAGED_MARKER {
        if entry.Other? {
          return if entry.isSymlink then Err(NeedsManualReview) else Err(UnsupportedType);
        } else if entry.Dir? {
          var sub := WalkLocalArtifact(prefix + [entry.name], entry.entries, pushed);
          if sub.Err? {
            return sub;
          }
          pushed := sub.value;
        } else {
          pushed := pushed
            + [ArtifactFile(Join(prefix + [entry.name]), NormalizedMode(entry.mode), entry.content)];
          if |pushed| > MAX_ARTIFACT_FILES {
            return Err(WalkError.TooManyFiles);
          }
        }
      }
      entries := entry.rest;
    }
    return Ok(pushed);
  }

  /** `load_local_artifact` on a directory; `None` for every way it can fail. */
  function Load(t: Tree, source: Bytes): Option<ArtifactBundle> {
    if !Walkable(t) then None
    else
      match Finish(Leaves([], t), Some(source))
      case Ok(bundle) => Some(bundle)
      case Err(_) => None
  }

  // ---- Writing ------------------------------------------------------------------------------

  /** A new file with its new parent directories, put in front of `rest`. */
  function Chain(path: seq<Name>, mode: nat, content: Bytes, rest: Tree): Tree
    requires path != []
    decreases |path|
  {
    if |path| == 1 then File(path[0], mode, content, rest)
    else Dir(path[0], Chain(path[1..], mode, content, Empty), rest)
  }

  /** Creates missing parents, then creates or truncates the file; `None` when a parent is not a
      directory or the file name is taken by something else. */
  function Put(t: Tree, path: seq<Name>, mode: nat, content: Bytes): Option<Tree>
    requires path != []
    decreases t
  {
    if t.Empty? then Some(Chain(path, mode, content, t))
    else if path[0] == t.name then
      if |path| == 1 then
        if t.File? then Some(File(t.name, mode, content, t.rest)) else None
      else if !t.Dir? then None
      else
        match Put(t.entries, path[1..], mode, content)
        case None => None
        case Some(entries) => Some(Dir(t.name, entries, t.rest))
    else if LexLe(path[0], t.name) then Some(Chain(path, mode, content, t))
    else
      match Put(t.rest, path, mode, content)
      case None => None
      case Some(rest) => Some(t.(rest := rest))
  }

  /** One staged file: unsafe paths are refused, and no file can be created at a path with a NUL byte or
      with a slash or a dot at its end. */
  function StageFile(t: Tree, file: ArtifactFile): Option<Tree> {
    if !IsSafe(file.relativePath) || !NulFree(file.relativePath) || !EndsInName(file.relativePath) then None
    else
      SafeComponents(file.relativePath);
      Put(t, Components(file.relativePath), NormalizedMode(file.mode), file.content)
  }

  function StageFiles(files: seq<ArtifactFile>): Option<Tree> {
    if files == [] then Some(Empty)
    else
      match StageFiles(files[..|files| - 1])
      case None => None
      case Some(t) => StageFile(t, files[|files| - 1])
  }

  function Stage(files: seq<ArtifactFile>, marker: Bytes): Option<Tree> {
    match StageFiles(files)
    case None => None
    case Some(t) => Put(t, [MANAGED_MARKER], DEFAULT_MODE, marker)
  }

  /** `write_copy_staging` into a fresh directory. */
  method WriteCopyStaging(files: seq<ArtifactFile>, marker: Bytes) returns (r: Option<Tree>)
    ensures r == Stage(files, marker)
  {
    var staging := Empty;
    for i := 0 to |files|
      invariant StageFiles(files[..i]) == Some(staging)
    {
      assert files[..i + 1][..i] == files[..i];
      var next := StageFile(staging, files[i]);
      if next.None? {
        StageFailurePersists(files, i + 1);
        return None;
      }
      staging := next.value;
    }
    assert files[..|files|] == files;
    r := Put(staging, [MANAGED_MARKER], DEFAULT_MODE, marker);
  }

  lemma {:induction false} StageFailurePersists(files: seq<ArtifactFile>, n: nat)
    requires n <= |files| && StageFiles(files[..n]).None?
    ensures StageFiles(files).None?
  {
    if n < |files| {
      assert files[..|files| - 1][..n] == files[..n];
      StageFailurePersists(files[..|files| - 1], n);
    } else {
      assert files[..n] == files;
    }
  }
}
