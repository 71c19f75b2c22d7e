/**
 Files as synchronization sees them, and the decision whether a file needs an update
 (object/sync/options.go, object/sync/sync.go).

 A tree is the part of a backend below a base path, keyed by relative path.  Module Paths justifies this
 view; the two trees of a synchronization do not overlap.
 */
module SyncModel {
  import opened Wrappers

  type Time = int

  datatype Object = Object(data: Bytes, modTime: Time, hash: string, isDir: bool)

  type Tree = map<string, Object>

  ghost predicate Same(a: Tree, b: Tree, p: string) {
    (p in a <==> p in b) && (p in a ==> a[p] == b[p])
  }

  ghost predicate HasBytes(tree: Tree, p: string, data: Bytes) {
    p in tree && tree[p].data == data && !tree[p].isDir
  }

  /** Two trees with the same files and the same bytes in them. */
  ghost predicate SameBytes(a: Tree, b: Tree) {
    a.Keys == b.Keys && forall p | p in a :: a[p].data == b[p].data && a[p].isDir == b[p].isDir
  }

  /**
   What copying `p` of one tree to `q` of another may do to the second: nothing but `q` changes, and a copy that
   reports success leaves the bytes there.  A failed copy leaves anything there, or nothing.
   */
  ghost predicate CopyResult(from: Tree, p: string, to: Tree, to': Tree, q: string, ok: bool) {
    && (forall r | r != q :: Same(to', to, r))
    && (ok ==> p in from && !from[p].isDir && HasBytes(to', q, from[p].data))
  }

  datatype FileInfo = FileInfo(path: string, size: nat, modTime: Time, hash: string, isDir: bool)

  /**
   The filter and the timestamp comparison (with its tolerance) are parameters.  An empty hash is one that
   the backend does not provide.
   */
  datatype Options = Options(
    deleteExtra: bool,
    dryRun: bool,
    checksum: bool,
    ignoreExisting: bool,
    ignoreSize: bool,
    ignoreTime: bool,
    sizeOnly: bool,
    maxErrors: int,
    concurrency: int,
    filter: Option<(string, nat, Time) -> bool>,
    timeEqual: (Time, Time) -> bool)

  datatype FileError = FileError(path: string, op: string)

  /** How a call returns: normally, with the caller's context cancelled, or because a listing failed. */
  datatype Status = Finished | Cancelled | ListingFailed

  /**
   What may go wrong around a call: whether all listings work, whether the caller cancels, and the paths at which
   a backend may fail.
   */
  datatype Ambient = Ambient(lists: bool, cancels: bool, broken: set<string>)

  /** An operation fails where a backend is broken, or because the caller cancelled. */
  predicate MayFail(ambient: Ambient, p: string) {
    p in ambient.broken || ambient.cancels
  }

  function Info(path: string, obj: Object, opts: Options): FileInfo {
    FileInfo(path, if obj.isDir then 0 else |obj.data|, obj.modTime, if opts.checksum then obj.hash else "", obj.isDir)
  }

  predicate Accepted(fi: FileInfo, opts: Options) {
    opts.filter.None? || fi.isDir || opts.filter.value(fi.path, fi.size, fi.modTime)
  }

  predicate NeedsUpdate(src: FileInfo, dst: FileInfo, opts: Options) {
    if opts.sizeOnly then src.size != dst.size
    else if opts.checksum && src.hash != "" && dst.hash != "" then src.hash != dst.hash
    else if !opts.ignoreSize && src.size != dst.size then true
    else if !opts.ignoreTime && !opts.timeEqual(src.modTime, dst.modTime) then true
    else false
  }

  type Scan = map<string, FileInfo>

  /** The accepted files of a tree. */
  function ScanOf(tree: Tree, opts: Options): Scan {
    map p | p in tree && Accepted(Info(p, tree[p], opts), opts) :: Info(p, tree[p], opts)
  }

  /** A listing names every file of the scan once. */
  ghost predicate IsScan(files: seq<FileInfo>, scan: Scan) {
    && (forall i, j | 0 <= i < j < |files| :: files[i].path != files[j].path)
    && (forall i | 0 <= i < |files| :: files[i].path in scan && scan[files[i].path] == files[i])
    && (forall p | p in scan :: scan[p] in files)
    && forall p | p in scan :: scan[p].path == p
  }

  function Part(tree: Tree, paths: set<string>): Tree {
    map p | p in tree && p in paths :: tree[p]
  }

  /** A backend seen through a base path. */
  class Subtree {
    var files: Tree

    constructor (files: Tree)
      ensures this.files == files
    {
      this.files := files;
    }

    /** Lists in no particular order, stats each file, and applies the filter to all but directories. */
    method ListFiles(opts: Options) returns (r: seq<FileInfo>)
      ensures IsScan(r, ScanOf(files, opts))
    {
      r := [];
      var left := files.Keys;
      while left != {}
        invariant left <= files.Keys
        invariant IsScan(r, ScanOf(Part(files, files.Keys - left), opts))
        decreases |left|
      {
        var p :| p in left;
        ghost var before := Part(files, files.Keys - left);
        left := left - {p};
        assert Part(files, files.Keys - left) == before[p := files[p]];
        var fi := Info(p, files[p], opts);
        if opts.filter.Some? && !fi.isDir && !opts.filter.value(fi.path, fi.size, fi.modTime) {
          assert ScanOf(before[p := files[p]], opts) == ScanOf(before, opts);
          continue;
        }
        assert ScanOf(before[p := files[p]], opts) == ScanOf(before, opts)[p := fi];
        ScanOneMore(r, ScanOf(before, opts), fi);
        r := r + [fi];
      }
      assert Part(files, files.Keys - left) == files;
    }
  }

  lemma ScanOneMore(r: seq<FileInfo>, scan: Scan, fi: FileInfo)
    requires IsScan(r, scan) && fi.path !in scan
    ensures IsScan(r + [fi], scan[fi.path := fi])
  {
    var r', scan' := r + [fi], scan[fi.path := fi];
    assert r'[|r|] == fi;
    forall p | p in scan'
      ensures scan'[p] in r'
    {
      if p != fi.path {
        assert scan[p] in r;
        var k :| 0 <= k < |r| && r[k] == scan[p];
        assert r'[k] == scan[p];
      }
    }
  }
}
