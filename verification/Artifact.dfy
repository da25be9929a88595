/** Skill artifacts and their canonical byte string (crates/cocli-api/src/skill_apply.rs). */
module Artifact {
  import opened Prelude
  import opened Sorting
  import opened Digits

  const MAX_ARTIFACT_FILES: nat := 5_000
  const MAX_ARTIFACT_BYTES: nat := 50 * 1024 * 1024
  const USIZE_MAX: nat := 0xFFFF_FFFF_FFFF_FFFF

  /** "SKILL.md" */
  const SKILL_MD: Bytes := [83, 75, 73, 76, 76, 46, 109, 100]

  datatype ArtifactFile = ArtifactFile(relativePath: Bytes, mode: nat, content: Bytes)

  datatype ArtifactBundle = ArtifactBundle(
    files: seq<ArtifactFile>,
    canonicalSource: Option<Bytes>,
    contentDigest: Digest,
    manifestDigest: Digest)

  datatype ArtifactError = TooManyFiles | DuplicatePaths | SizeOverflow | TooLarge | NoManifest

  predicate PathLe(left: ArtifactFile, right: ArtifactFile) {
    LexLe(left.relativePath, right.relativePath)
  }

  function SortByPath(files: seq<ArtifactFile>): (r: seq<ArtifactFile>)
    ensures multiset(r) == multiset(files) && |r| == |files|
  {
    Sort(files, PathLe)
  }

  predicate NulFree(s: Bytes) {
    0 !in s
  }

  predicate NulFreePaths(files: seq<ArtifactFile>) {
    forall f :: f in files ==> NulFree(f.relativePath)
  }

  ghost predicate DistinctPaths(files: seq<ArtifactFile>) {
    forall i, j :: 0 <= i < j < |files| ==> files[i].relativePath != files[j].relativePath
  }

  // ---- The printer -------------------------------------------------------------------------

  function EncodeFile(f: ArtifactFile): Bytes {
    f.relativePath + [0] + Print(f.mode, Octal) + [0] + Print(|f.content|, Decimal) + [0] + f.content + [0xff]
  }

  function EncodeAll(files: seq<ArtifactFile>): Bytes {
    if files == [] then [] else EncodeFile(files[0]) + EncodeAll(files[1..])
  }

  /** What `finish_artifact` hashes: the files in path order, one frame after another. */
  function CanonicalBytes(files: seq<ArtifactFile>): Bytes {
    EncodeAll(SortByPath(files))
  }

  // ---- A parser that undoes it -------------------------------------------------------------

  /** Splits at the first NUL. */
  function TakeField(s: Bytes): (r: Option<(Bytes, Bytes)>)
    ensures r.Some? ==> |r.value.1| < |s|
  {
    if s == [] then None
    else if s[0] == 0 then Some(([], s[1..]))
    else
      var r := TakeField(s[1..]);
      if r.None? then None else Some(([s[0]] + r.value.0, r.value.1))
  }

  function ParseFile(s: Bytes): (r: Option<(ArtifactFile, Bytes)>)
    ensures r.Some? ==> |r.value.1| < |s|
  {
    var p := TakeField(s);
    if p.None? then None else
    var m := TakeField(p.value.1);
    if m.None? then None else
    var l := TakeField(m.value.1);
    if l.None? then None else
    var mode, len, rest := Value(m.value.0, Octal), Value(l.value.0, Decimal), l.value.1;
    if mode < 0 || len < 0 || |rest| <= len || rest[len] != 0xff then None
    else Some((ArtifactFile(p.value.0, mode, rest[..len]), rest[len + 1..]))
  }

  function ParseAll(s: Bytes): Option<seq<ArtifactFile>>
    decreases |s|
  {
    if s == [] then Some([]) else
    var f := ParseFile(s);
    if f.None? then None else
    var rest := ParseAll(f.value.1);
    if rest.None? then None else Some([f.value.0] + rest.value)
  }

  lemma {:induction false} TakeFieldUndoes(field: Bytes, rest: Bytes)
    requires NulFree(field)
    ensures TakeField(field + [0] + rest) == Some((field, rest))
  {
    var s := field + [0] + rest;
    if field != [] {
      TakeFieldUndoes(field[1..], rest);
      assert s[1..] == field[1..] + [0] + rest;
      assert field == [field[0]] + field[1..];
    } else {
      assert s[1..] == rest;
    }
  }

  lemma ParseFileUndoes(f: ArtifactFile, tail: Bytes)
    requires NulFree(f.relativePath)
    ensures ParseFile(EncodeFile(f) + tail) == Some((f, tail))
  {
    var mode, len := Print(f.mode, Octal), Print(|f.content|, Decimal);
    var body := f.content + [0xff] + tail;
    var afterPath := mode + [0] + (len + [0] + body);
    assert EncodeFile(f) + tail == f.relativePath + [0] + afterPath;
    TakeFieldUndoes(f.relativePath, afterPath);
    TakeFieldUndoes(mode, len + [0] + body);
    TakeFieldUndoes(len, body);
    ValueOfPrint(f.mode, Octal);
    ValueOfPrint(|f.content|, Decimal);
    assert body[..|f.content|] == f.content && body[|f.content| + 1..] == tail;
  }

  /** The parser reads back every list of files, whatever their contents hold. */
  lemma {:induction false} ParseUndoesEncode(files: seq<ArtifactFile>)
    requires NulFreePaths(files)
    ensures ParseAll(EncodeAll(files)) == Some(files)
  {
    if files != [] {
      ParseFileUndoes(files[0], EncodeAll(files[1..]));
      ParseUndoesEncode(files[1..]);
      assert files == [files[0]] + files[1..];
    }
  }

  lemma PathOrder()
    ensures TotalPreorder(PathLe)
  {
    forall x, y ensures PathLe(x, y) || PathLe(y, x) {
      LexTotal(x.relativePath, y.relativePath);
    }
    forall x, y, z | PathLe(x, y) && PathLe(y, z) ensures PathLe(x, z) {
      LexTransitive(x.relativePath, y.relativePath, z.relativePath);
    }
  }

  lemma DistinctSeparates(files: seq<ArtifactFile>)
    requires DistinctPaths(files)
    ensures Separates(files, PathLe)
  {
    forall x, y | x in files && y in files && PathLe(x, y) && PathLe(y, x) ensures x == y {
      LexTotal(x.relativePath, y.relativePath);
    }
  }

  /** Distinct NUL-free paths: equal canonical bytes exactly for permutations of one file list. */
  lemma CanonicalBytesInjective(xs: seq<ArtifactFile>, ys: seq<ArtifactFile>)
    requires NulFreePaths(xs) && NulFreePaths(ys) && DistinctPaths(xs)
    ensures CanonicalBytes(xs) == CanonicalBytes(ys) <==> multiset(xs) == multiset(ys)
  {
    var sx, sy := SortByPath(xs), SortByPath(ys);
    SameElements(sx, xs);
    SameElements(sy, ys);
    ParseUndoesEncode(sx);
    ParseUndoesEncode(sy);
    PathOrder();
    DistinctSeparates(xs);
    SortIsCanonical(xs, ys, PathLe);
  }

  // ---- finish_artifact ---------------------------------------------------------------------

  function TotalBytes(files: seq<ArtifactFile>): nat {
    if files == [] then 0 else TotalBytes(files[..|files| - 1]) + |files[|files| - 1].content|
  }

  function FindPath(files: seq<ArtifactFile>, path: Bytes): (r: Option<ArtifactFile>)
    ensures r.Some? ==> r.value in files && r.value.relativePath == path
    ensures r.None? ==> forall f :: f in files ==> f.relativePath != path
  {
    if files == [] then None
    else if files[0].relativePath == path then Some(files[0])
    else FindPath(files[1..], path)
  }

  predicate AdjacentDuplicate(files: seq<ArtifactFile>) {
    exists i :: 0 <= i < |files| - 1 && files[i].relativePath == files[i + 1].relativePath
  }

  /** The verdict of `finish_artifact` on the sorted list, in the order the code checks. */
  function FinishSorted(sorted: seq<ArtifactFile>, source: Option<Bytes>): Result<ArtifactBundle, ArtifactError> {
    if |sorted| > MAX_ARTIFACT_FILES then Err(TooManyFiles)
    else if AdjacentDuplicate(sorted) then Err(DuplicatePaths)
    else if TotalBytes(sorted) > USIZE_MAX then Err(SizeOverflow)
    else if TotalBytes(sorted) > MAX_ARTIFACT_BYTES then Err(TooLarge)
    else
      match FindPath(sorted, SKILL_MD)
      case None => Err(NoManifest)
      case Some(manifest) =>
        Ok(ArtifactBundle(sorted, source, Sha256(EncodeAll(sorted)), Sha256(manifest.content)))
  }

  function Finish(files: seq<ArtifactFile>, source: Option<Bytes>): Result<ArtifactBundle, ArtifactError> {
    FinishSorted(SortByPath(files), source)
  }

  lemma {:induction false} EncodeAppend(files: seq<ArtifactFile>, f: ArtifactFile)
    ensures EncodeAll(files + [f]) == EncodeAll(files) + EncodeFile(f)
  {
    if files == [] {
      assert files + [f] == [f] && [f][1..] == [];
    } else {
      EncodeAppend(files[1..], f);
      assert (files + [f])[1..] == files[1..] + [f];
    }
  }

  lemma {:induction false} TotalBytesMonotone(files: seq<ArtifactFile>, n: nat)
    requires n <= |files|
    ensures TotalBytes(files[..n]) <= TotalBytes(files)
  {
    if n < |files| {
      TotalBytesMonotone(files[..|files| - 1], n);
      assert files[..|files| - 1][..n] == files[..n];
    } else {
      assert files[..n] == files;
    }
  }

  method HasAdjacentDuplicate(sorted: seq<ArtifactFile>) returns (found: bool)
    ensures found <==> AdjacentDuplicate(sorted)
  {
    var w := 0;
    while w + 1 < |sorted|
      invariant forall k :: 0 <= k < w && k + 1 < |sorted| ==> sorted[k].relativePath != sorted[k + 1].relativePath
    {
      if sorted[w].relativePath == sorted[w + 1].relativePath {
        return true;
      }
      w := w + 1;
    }
    return false;
  }

  /** The checked sum: `None` when a machine word overflows. */
  method CheckedTotal(files: seq<ArtifactFile>) returns (total: Option<nat>)
    ensures total == if TotalBytes(files) > USIZE_MAX then None else Some(TotalBytes(files))
  {
    var sum := 0;
    for i := 0 to |files|
      invariant sum == TotalBytes(files[..i])
      invariant sum <= USIZE_MAX
    {
      assert files[..i + 1][..i] == files[..i];
      if sum + |files[i].content| > USIZE_MAX {
        TotalBytesMonotone(files, i + 1);
        return None;
      }
      sum := sum + |files[i].content|;
    }
    assert files[..|files|] == files;
    return Some(sum);
  }

  method Serialize(files: seq<ArtifactFile>) returns (canonical: Bytes)
    ensures canonical == EncodeAll(files)
  {
    canonical := [];
    for i := 0 to |files|
      invariant canonical == EncodeAll(files[..i])
    {
      var file := files[i];
      EncodeAppend(files[..i], file);
      assert files[..i + 1] == files[..i] + [file];
      var frame: Bytes := file.relativePath + [0];
      frame := frame + Print(file.mode, Octal) + [0];
      frame := frame + Print(|file.content|, Decimal) + [0];
      frame := frame + file.content + [0xff];
      canonical := canonical + frame;
    }
    assert files[..|files|] == files;
  }

  method FinishArtifact(files: seq<ArtifactFile>, source: Option<Bytes>)
    returns (r: Result<ArtifactBundle, ArtifactError>)
    ensures r == Finish(files, source)
  {
    if |files| > MAX_ARTIFACT_FILES {
      return Err(TooManyFiles);
    }
    var sorted := SortByPath(files);
    var duplicate := HasAdjacentDuplicate(sorted);
    if duplicate {
      return Err(DuplicatePaths);
    }
    var total := CheckedTotal(sorted);
    if total.None? {
      return Err(SizeOverflow);
    }
    if total.value > MAX_ARTIFACT_BYTES {
      return Err(TooLarge);
    }
    var manifest := FindPath(sorted, SKILL_MD);
    if manifest.None? {
      return Err(NoManifest);
    }
    var canonical := Serialize(sorted);
    r := Ok(ArtifactBundle(sorted, source, Sha256(canonical), Sha256(manifest.value.content)));
  }

  /** The adjacent comparison after sorting finds every repeated path. */
  lemma AdjacentFindsDuplicates(files: seq<ArtifactFile>)
    ensures AdjacentDuplicate(SortByPath(files)) <==> !DistinctPaths(SortByPath(files))
  {
    var s := SortByPath(files);
    PathOrder();
    SortSorts(files, PathLe);
    if !AdjacentDuplicate(s) {
      forall i, j | 0 <= i < j < |s| ensures s[i].relativePath != s[j].relativePath {
        assert PathLe(s[i], s[i + 1]);
        if s[i].relativePath == s[j].relativePath {
          assert i + 1 < j ==> PathLe(s[i + 1], s[j]);
          LexTotal(s[i].relativePath, s[i + 1].relativePath);
          assert false;
        }
      }
    }
  }

  /** What an accepted artifact holds: its files in strict path order and the digest of their canonical bytes. */
  lemma FinishAccepts(files: seq<ArtifactFile>, source: Option<Bytes>)
    requires Finish(files, source).Ok?
    ensures
      var b := Finish(files, source).value;
      && multiset(b.files) == multiset(files)
      && SortedBy(b.files, PathLe) && DistinctPaths(b.files)
      && b.contentDigest == Sha256(CanonicalBytes(b.files))
      && CanonicalBytes(b.files) == CanonicalBytes(files)
  {
    PathOrder();
    AdjacentFindsDuplicates(files);
    SortSorts(files, PathLe);
    DistinctSeparates(SortByPath(files));
    SortFixpoint(SortByPath(files), PathLe);
  }

  lemma {:induction false} TotalBytesConcat(xs: seq<ArtifactFile>, ys: seq<ArtifactFile>)
    ensures TotalBytes(xs + ys) == TotalBytes(xs) + TotalBytes(ys)
  {
    if ys == [] {
      assert xs + ys == xs;
    } else {
      TotalBytesConcat(xs, ys[..|ys| - 1]);
      assert (xs + ys)[..|xs + ys| - 1] == xs + ys[..|ys| - 1];
    }
  }

  lemma TotalBytesWithout(files: seq<ArtifactFile>, j: nat)
    requires j < |files|
    ensures TotalBytes(files) == TotalBytes(files[..j] + files[j + 1..]) + |files[j].content|
  {
    TotalBytesConcat(files[..j], files[j + 1..]);
    TotalBytesConcat(files[..j + 1], files[j + 1..]);
    assert files[..j + 1] + files[j + 1..] == files;
    assert files[..j + 1][..j] == files[..j];
  }

  lemma TotalBytesHead(files: seq<ArtifactFile>)
    requires files != []
    ensures TotalBytes(files) == |files[0].content| + TotalBytes(files[1..])
  {
    TotalBytesWithout(files, 0);
    assert files[..0] + files[1..] == files[1..];
  }

  lemma {:induction false} TotalBytesPermutes(xs: seq<ArtifactFile>, ys: seq<ArtifactFile>)
    requires multiset(xs) == multiset(ys)
    ensures TotalBytes(xs) == TotalBytes(ys)
    decreases |xs|
  {
    if xs == [] {
      SameElements(xs, ys);
    } else {
      var j := PickOut(xs, ys);
      var rest := ys[..j] + ys[j + 1..];
      TotalBytesHead(xs);
      TotalBytesWithout(ys, j);
      TotalBytesPermutes(xs[1..], rest);
    }
  }

  lemma DistinctPermutes(xs: seq<ArtifactFile>, ys: seq<ArtifactFile>)
    requires multiset(xs) == multiset(ys) && DistinctPaths(xs)
    ensures DistinctPaths(ys)
  {
    SameElements(xs, ys);
    forall i, j | 0 <= i < j < |ys| ensures ys[i].relativePath != ys[j].relativePath {
      if ys[i] == ys[j] {
        DuplicateCounts(ys, i, j);
        var k, l := TwoPositions(xs, ys[i]);
        assert false;
      }
      assert ys[i] in xs && ys[j] in xs;
    }
  }

  predicate HasManifest(files: seq<ArtifactFile>) {
    exists i :: 0 <= i < |files| && files[i].relativePath == SKILL_MD
  }

  lemma ManifestPermutes(xs: seq<ArtifactFile>, ys: seq<ArtifactFile>)
    requires multiset(xs) == multiset(ys) && HasManifest(xs)
    ensures HasManifest(ys)
  {
    SameElements(xs, ys);
    var i :| 0 <= i < |xs| && xs[i].relativePath == SKILL_MD;
    assert xs[i] in ys;
  }

  /** Acceptance, read off the list in any order. */
  ghost predicate Acceptable(files: seq<ArtifactFile>) {
    && |files| <= MAX_ARTIFACT_FILES
    && DistinctPaths(files)
    && TotalBytes(files) <= MAX_ARTIFACT_BYTES
    && HasManifest(files)
  }

  lemma AcceptablePermutes(xs: seq<ArtifactFile>, ys: seq<ArtifactFile>)
    requires multiset(xs) == multiset(ys) && Acceptable(xs)
    ensures Acceptable(ys)
  {
    SameElements(xs, ys);
    DistinctPermutes(xs, ys);
    TotalBytesPermutes(xs, ys);
    ManifestPermutes(xs, ys);
  }

  /** Which lists are accepted does not depend on their order: distinct paths, a manifest, both limits kept. */
  lemma FinishExact(files: seq<ArtifactFile>, source: Option<Bytes>)
    ensures Finish(files, source).Ok? <==> Acceptable(files)
  {
    var s := SortByPath(files);
    AdjacentFindsDuplicates(files);
    assert FindPath(s, SKILL_MD).Some? <==> HasManifest(s);
    if Acceptable(files) {
      AcceptablePermutes(files, s);
    }
    if Acceptable(s) {
      AcceptablePermutes(s, files);
    }
  }

  /** The digest of accepted artifacts identifies their files, as a collection without order. */
  lemma ContentDigestIdentifiesFiles(xs: seq<ArtifactFile>, ys: seq<ArtifactFile>, sx: Option<Bytes>, sy: Option<Bytes>)
    requires NulFreePaths(xs) && NulFreePaths(ys)
    requires Finish(xs, sx).Ok? && Finish(ys, sy).Ok?
    ensures Finish(xs, sx).value.contentDigest == Finish(ys, sy).value.contentDigest
       <==> multiset(xs) == multiset(ys)
  {
    var b, c := Finish(xs, sx).value, Finish(ys, sy).value;
    FinishAccepts(xs, sx);
    FinishAccepts(ys, sy);
    SameElements(b.files, xs);
    SameElements(c.files, ys);
    CanonicalBytesInjective(b.files, c.files);
  }

  // ---- Paths with NUL bytes ------------------------------------------------------------------------

  function ForgedPath(path: Bytes, mode: nat, inner: Bytes): Bytes {
    path + [0] + Print(mode, Octal) + [0] + Print(|inner|, Decimal)
  }

  function InnerContent(mode: nat, content: Bytes): Bytes {
    Print(mode, Octal) + [0] + Print(|content|, Decimal) + [0] + content
  }

  /** A file whose content starts like a frame, and the file whose path has swallowed that start. */
  function Plain(path: Bytes, mode: nat, content: Bytes): ArtifactFile {
    ArtifactFile(path, mode, InnerContent(mode, content))
  }

  function Forged(path: Bytes, mode: nat, content: Bytes): ArtifactFile {
    ArtifactFile(ForgedPath(path, mode, InnerContent(mode, content)), mode, content)
  }

  lemma FramesCollide(path: Bytes, mode: nat, content: Bytes)
    ensures EncodeFile(Forged(path, mode, content)) == EncodeFile(Plain(path, mode, content))
  {
    var inner := InnerContent(mode, content);
    var head := ForgedPath(path, mode, inner);
    assert EncodeFile(Forged(path, mode, content)) == head + [0] + inner + [0xff];
    assert EncodeFile(Plain(path, mode, content)) == head + [0] + inner + [0xff];
  }

  lemma {:induction false} LexExtends(a: Bytes, more: Bytes)
    ensures LexLe(a, a + more)
  {
    if a != [] {
      LexExtends(a[1..], more);
      assert (a + more)[1..] == a[1..] + more;
    }
  }

  lemma PairSorted(first: ArtifactFile, second: ArtifactFile)
    requires first.relativePath != second.relativePath && LexLe(first.relativePath, second.relativePath)
    ensures SortByPath([first, second]) == [first, second]
  {
    PathOrder();
    DistinctSeparates([first, second]);
    SortFixpoint([first, second], PathLe);
  }

  lemma PairAcceptable(manifest: ArtifactFile, file: ArtifactFile)
    requires manifest.relativePath == SKILL_MD && file.relativePath != SKILL_MD
    requires |manifest.content| + |file.content| <= MAX_ARTIFACT_BYTES
    ensures Acceptable([manifest, file])
  {
    var files := [manifest, file];
    assert files[..1] == [manifest] && files[..1][..0] == [];
    assert TotalBytes(files[..1]) == |manifest.content|;
    assert files[0].relativePath == SKILL_MD;
  }

  lemma PairEncoded(first: ArtifactFile, second: ArtifactFile)
    ensures EncodeAll([first, second]) == EncodeFile(first) + EncodeFile(second)
  {
    assert [first, second][1..] == [second] && [second][1..] == [];
    assert EncodeAll([second]) == EncodeFile(second) + EncodeAll([]);
  }

  /** A manifest and one file behind it are a bundle whose digest is that of the two frames. */
  lemma PairAccepted(manifest: ArtifactFile, file: ArtifactFile, source: Option<Bytes>)
    requires manifest.relativePath == SKILL_MD && file.relativePath != SKILL_MD && LexLe(SKILL_MD, file.relativePath)
    requires |manifest.content| + |file.content| <= MAX_ARTIFACT_BYTES
    ensures
      var finished := Finish([manifest, file], source);
      finished.Ok? && finished.value.contentDigest == Sha256(EncodeFile(manifest) + EncodeFile(file))
  {
    PairAcceptable(manifest, file);
    FinishExact([manifest, file], source);
    PairSorted(manifest, file);
    PairEncoded(manifest, file);
  }

  /** NUL-freedom is needed: for every manifest, path behind it, mode and content within the limits there
      are two accepted artifacts with different files and the same digest. */
  lemma NulPathCollides(text: Bytes, path: Bytes, mode: nat, content: Bytes, source: Option<Bytes>)
    requires path != SKILL_MD && LexLe(SKILL_MD, path)
    requires |text| + |InnerContent(mode, content)| <= MAX_ARTIFACT_BYTES
    ensures
      var manifest := ArtifactFile(SKILL_MD, mode, text);
      var one, other := [manifest, Plain(path, mode, content)], [manifest, Forged(path, mode, content)];
      && Finish(one, source).Ok? && Finish(other, source).Ok?
      && multiset(one) != multiset(other)
      && Finish(one, source).value.contentDigest == Finish(other, source).value.contentDigest
  {
    var manifest := ArtifactFile(SKILL_MD, mode, text);
    var plain, forged := Plain(path, mode, content), Forged(path, mode, content);
    FramesCollide(path, mode, content);
    ForgedBehind(path, mode, InnerContent(mode, content));
    PairAccepted(manifest, plain, source);
    PairAccepted(manifest, forged, source);
    SameOrNot(manifest, plain, forged);
  }

  lemma ForgedBehind(path: Bytes, mode: nat, inner: Bytes)
    requires path != SKILL_MD && LexLe(SKILL_MD, path)
    ensures
      var forged := ForgedPath(path, mode, inner);
      forged != path && forged != SKILL_MD && LexLe(SKILL_MD, forged)
  {
    var more := [0] + Print(mode, Octal) + [0] + Print(|inner|, Decimal);
    var forged := ForgedPath(path, mode, inner);
    assert forged == path + more;
    LexExtends(path, more);
    LexTransitive(SKILL_MD, path, forged);
    if forged == SKILL_MD {
      LexTotal(path, SKILL_MD);
      assert false;
    }
  }

  lemma SameOrNot(manifest: ArtifactFile, x: ArtifactFile, y: ArtifactFile)
    requires x != y
    ensures multiset([manifest, x]) != multiset([manifest, y])
  {
    assert multiset([manifest, x]) - multiset{manifest} == multiset{x};
    assert multiset([manifest, y]) - multiset{manifest} == multiset{y};
    assert x in multiset{x} && x !in multiset{y};
  }
}
