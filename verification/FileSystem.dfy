/** The file system as the governance code sees it: entries, fingerprints, renames. */
module FileSystem {
  import opened Prelude
  import opened Staging

  datatype Slot = BackupSlot | RollbackSlot

  /** Governed entries, and the paths derived from fresh run and action ids. */
  datatype Path =
    | Governed(root: Bytes, name: Bytes)
    | StagingPath(root: Bytes, name: Bytes, action: nat)
    | Control(scope: Bytes, run: nat, action: nat, slot: Slot)

  /** A link carries its canonical destination and the directory found there, `None` when broken. */
  datatype Entry =
    | FileEntry(bytes: Bytes)
    | DirEntry(tree: Tree)
    | LinkEntry(destination: Bytes, resolved: Option<Tree>)
    | SpecialEntry

  datatype Fingerprint = Missing | Of(digest: Digest)

  type Fs = map<Path, Entry>

  function Lookup(fs: Fs, p: Path): Option<Entry> {
    if p in fs then Some(fs[p]) else None
  }

  /** `fingerprint_path`; `None` is its error: a broken link, a directory that is no Skill, a device. */
  function FingerprintOf(e: Option<Entry>): Option<Fingerprint> {
    match e
    case None => Some(Missing)
    case Some(FileEntry(bytes)) => Some(Of(Sha256(bytes)))
    case Some(DirEntry(tree)) =>
      (match Load(tree, [])
       case None => None
       case Some(bundle) => Some(Of(bundle.contentDigest)))
    case Some(LinkEntry(destination, Some(tree))) =>
      (match Load(tree, destination)
       case None => None
       case Some(bundle) => Some(Of(Sha256OfLink(destination, bundle.contentDigest, bundle.manifestDigest))))
    case Some(_) => None
  }

  function FingerprintAt(fs: Fs, p: Path): Option<Fingerprint> {
    FingerprintOf(Lookup(fs, p))
  }

  /** A rename needs its source, and replaces only a non-directory by a non-directory or an empty
      directory by a directory. */
  predicate CanRename(fs: Fs, src: Path, dst: Path) {
    && src in fs
    && (dst in fs ==>
          if fs[src].DirEntry? then fs[dst] == DirEntry(Empty) else !fs[dst].DirEntry?)
  }

  function Moved(fs: Fs, src: Path, dst: Path): Fs
    requires src in fs
  {
    (fs - {src})[dst := fs[src]]
  }

  function Removed(fs: Fs, p: Option<Path>): Fs {
    if p.Some? then fs - {p.value} else fs
  }

  /** The directory at `p` was removed in part. */
  predicate Torn(before: Fs, after: Fs, p: Path) {
    && p in before && before[p].DirEntry? && p in after && after[p].DirEntry?
    && after == before[p := after[p]]
  }

  /** `Path::exists` follows links. */
  predicate Exists(fs: Fs, p: Path) {
    p in fs && !(fs[p].LinkEntry? && fs[p].resolved.None?)
  }

  /** A disk whose operations may fail unless it is `reliable`, and which others may write to unless
      it is `quiet`. `log` holds every state it went through. */
  class Disk {
    var entries: Fs
    const reliable: bool
    const quiet: bool
    ghost var log: seq<Fs>

    constructor (entries: Fs, reliable: bool, quiet: bool)
      ensures this.entries == entries && this.reliable == reliable && this.quiet == quiet && log == [entries]
    {
      this.entries, this.reliable, this.quiet, log := entries, reliable, quiet, [entries];
    }

    /** A moment in which other programs may write. */
    method Interfere()
      modifies this
      ensures quiet ==> entries == old(entries) && log == old(log)
    {
      if !quiet {
        entries := *;
        log := log + [entries];
      }
    }

    method Fault() returns (fault: bool)
      ensures reliable ==> !fault
    {
      fault := *;
      fault := fault && !reliable;
    }

    method FingerprintPath(p: Path) returns (r: Option<Fingerprint>)
      ensures r.Some? ==> r == FingerprintAt(entries, p)
      ensures reliable ==> r == FingerprintAt(entries, p)
    {
      var fault := Fault();
      r := if fault then None else FingerprintAt(entries, p);
    }

    method Rename(src: Path, dst: Path) returns (ok: bool)
      modifies this
      ensures ok ==> CanRename(old(entries), src, dst) && entries == Moved(old(entries), src, dst)
      ensures ok ==> log == old(log) + [entries]
      ensures !ok ==> entries == old(entries) && log == old(log)
      ensures reliable ==> ok == CanRename(old(entries), src, dst)
    {
      var fault := Fault();
      if fault || !CanRename(entries, src, dst) {
        return false;
      }
      entries := Moved(entries, src, dst);
      log := log + [entries];
      return true;
    }

    method Write(p: Path, e: Entry) returns (ok: bool)
      modifies this
      ensures ok ==> entries == old(entries)[p := e] && log == old(log) + [entries]
      ensures !ok ==> entries == old(entries) && log == old(log)
      ensures reliable ==> ok
    {
      var fault := Fault();
      if fault {
        return false;
      }
      entries := entries[p := e];
      log := log + [entries];
      return true;
    }

    /** `remove_any`: a missing path is fine. The removal of a directory may fail half way. */
    method RemoveAny(p: Path) returns (ok: bool)
      modifies this
      ensures ok ==> entries == old(entries) - {p} && log == old(log) + [entries]
      ensures !ok ==>
        || (entries == old(entries) && log == old(log))
        || (Torn(old(entries), entries, p) && log == old(log) + [entries])
      ensures reliable ==> ok
    {
      var fault := Fault();
      if fault {
        if p in entries && entries[p].DirEntry? {
          var torn: Tree := *;
          entries := entries[p := DirEntry(torn)];
          log := log + [entries];
        }
        return false;
      }
      entries := entries - {p};
      log := log + [entries];
      return true;
    }
  }
}
