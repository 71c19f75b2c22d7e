/** The comparison phase of a one-way synchronization (object/sync/sync.go): what to copy and what to delete. */
module SyncPlan {
  import opened SyncModel

  datatype Action = Action(file: FileInfo, isUpdate: bool)

  datatype Plan = Plan(toCopy: seq<Action>, toDelete: seq<string>, skipped: nat)

  /** A source file is copied when the destination lacks it, or has an outdated file that may be replaced. */
  predicate Copies(src: Scan, dst: Scan, opts: Options, p: string) {
    && p in src && !src[p].isDir
    && (p !in dst || (!dst[p].isDir && NeedsUpdate(src[p], dst[p], opts) && !opts.ignoreExisting))
  }

  /** A destination file is extra when the source has no file of that path. */
  predicate Deletes(src: Scan, dst: Scan, opts: Options, p: string) {
    opts.deleteExtra && p in dst && !dst[p].isDir && (p !in src || src[p].isDir)
  }

  function SourceFiles(src: Scan): set<string> {
    set p | p in src && !src[p].isDir
  }

  function CopySet(src: Scan, dst: Scan, opts: Options): set<string> {
    set p | p in src && Copies(src, dst, opts, p)
  }

  function DeleteSet(src: Scan, dst: Scan, opts: Options): set<string> {
    set p | p in dst && Deletes(src, dst, opts, p)
  }

  predicate Distinct(paths: seq<string>) {
    forall i, j | 0 <= i < j < |paths| :: paths[i] != paths[j]
  }

  predicate DistinctActions(actions: seq<Action>) {
    forall i, j | 0 <= i < j < |actions| :: actions[i].file.path != actions[j].file.path
  }

  function PathsOf(actions: seq<Action>): set<string> {
    set i | 0 <= i < |actions| :: actions[i].file.path
  }

  ghost predicate IsPlan(src: Scan, dst: Scan, opts: Options, plan: Plan) {
    && DistinctActions(plan.toCopy)
    && PathsOf(plan.toCopy) == CopySet(src, dst, opts)
    && (forall i | 0 <= i < |plan.toCopy| ::
          var a := plan.toCopy[i];
          a.file.path in src && a.file == src[a.file.path] && a.isUpdate == (a.file.path in dst))
    && Distinct(plan.toDelete)
    && (forall p :: p in plan.toDelete <==> p in DeleteSet(src, dst, opts))
    && |plan.toCopy| + plan.skipped == |SourceFiles(src)|
  }

  method MakePlan(srcFiles: seq<FileInfo>, dstFiles: seq<FileInfo>, opts: Options,
                  ghost src: Scan, ghost dst: Scan) returns (plan: Plan)
    requires IsScan(srcFiles, src) && IsScan(dstFiles, dst)
    ensures IsPlan(src, dst, opts, plan)
  {
    var dstMap := ScanMap(dstFiles, dst);
    var toCopy, skipped;
    toCopy, skipped, dstMap := Compare(srcFiles, dstMap, opts);
    PlannedIsAll(src, dst, opts, srcFiles);
    var toDelete: seq<string> := [];
    if opts.deleteExtra {
      toDelete := Extras(dstMap);
    }
    return Plan(toCopy, toDelete, skipped);
  }

  /** All entries of a listing, by path. */
  method ScanMap(files: seq<FileInfo>, ghost scan: Scan) returns (m: Scan)
    requires IsScan(files, scan)
    ensures m == scan
  {
    m := map[];
    for i := 0 to |files|
      invariant forall p | p in m :: p in scan && m[p] == scan[p]
      invariant forall k | 0 <= k < i :: files[k].path in m
    {
      m := m[files[i].path := files[i]];
    }
    forall p | p in scan
      ensures p in m
    {
      assert scan[p] in files;
    }
  }

  /** The files of a listing, by path. */
  method FileMap(files: seq<FileInfo>, ghost scan: Scan) returns (m: Scan)
    requires IsScan(files, scan)
    ensures m.Keys == SourceFiles(scan) && forall p | p in m :: m[p] == scan[p]
  {
    m := map[];
    for i := 0 to |files|
      invariant forall p | p in m :: p in scan && m[p] == scan[p] && !scan[p].isDir
      invariant forall k | 0 <= k < i && !files[k].isDir :: files[k].path in m
    {
      if !files[i].isDir {
        m := m[files[i].path := files[i]];
      }
    }
    forall p | p in SourceFiles(scan)
      ensures p in m
    {
      assert scan[p] in files;
    }
  }

  lemma PlannedIsAll(src: Scan, dst: Scan, opts: Options, files: seq<FileInfo>)
    requires IsScan(files, src)
    ensures FilesIn(files) == SourceFiles(src)
    ensures CopyPart(Planned(dst, opts, files), src, dst, opts, SourceFiles(src))
    ensures CopiesAmong(src, dst, opts, SourceFiles(src)) == CopySet(src, dst, opts)
  {
    AllFiles(files, src);
    PlannedIsPart(src, dst, opts, files);
  }

  /** Goes over the source listing; what remains of the map afterwards has no source file. */
  method Compare(srcFiles: seq<FileInfo>, dst: Scan, opts: Options) returns (toCopy: seq<Action>, skipped: nat, dstMap: Scan)
    requires DistinctFiles(srcFiles)
    ensures toCopy == Planned(dst, opts, srcFiles)
    ensures |toCopy| + skipped == |FilesIn(srcFiles)|
    ensures dstMap == dst - FilesIn(srcFiles)
  {
    toCopy, skipped, dstMap := [], 0, dst;
    ghost var done: set<string> := {};
    for i := 0 to |srcFiles|
      invariant done == FilesIn(srcFiles[..i])
      invariant toCopy == Planned(dst, opts, srcFiles[..i])
      invariant |toCopy| + skipped == |done|
      invariant dstMap == dst - done
    {
      var f := srcFiles[i];
      OneMoreFile(srcFiles, i);
      PlannedOneMore(dst, opts, srcFiles, i);
      if f.isDir {
        continue;
      }
      var present := f.path in dstMap;
      var copy := !present;
      if present && !dstMap[f.path].isDir && NeedsUpdate(f, dstMap[f.path], opts) {
        copy := !opts.ignoreExisting;
      }
      RestOneLess(dst, done, f.path);
      if copy {
        toCopy := toCopy + [Action(f, present)];
      } else {
        skipped := skipped + 1;
      }
      dstMap := dstMap - {f.path};
      done := done + {f.path};
    }
    assert srcFiles[..|srcFiles|] == srcFiles;
  }

  predicate DistinctFiles(files: seq<FileInfo>) {
    forall i, j | 0 <= i < j < |files| :: files[i].path != files[j].path
  }

  /** The decision on one source file, against all destination files. */
  predicate Wanted(f: FileInfo, dst: Scan, opts: Options) {
    && !f.isDir
    && (f.path !in dst || (!dst[f.path].isDir && NeedsUpdate(f, dst[f.path], opts) && !opts.ignoreExisting))
  }

  /** The copies decided on for a list of source files. */
  function Planned(dst: Scan, opts: Options, files: seq<FileInfo>): seq<Action> {
    if files == [] then []
    else
      var n := |files| - 1;
      Planned(dst, opts, files[..n]) + if Wanted(files[n], dst, opts) then [Action(files[n], files[n].path in dst)] else []
  }

  lemma PlannedOneMore(dst: Scan, opts: Options, files: seq<FileInfo>, i: nat)
    requires i < |files|
    ensures Planned(dst, opts, files[..i + 1]) ==
            if Wanted(files[i], dst, opts) then Planned(dst, opts, files[..i]) + [Action(files[i], files[i].path in dst)]
            else Planned(dst, opts, files[..i])
  {
    assert files[..i + 1][..i] == files[..i];
  }

  /** The files are entries of the scan. */
  ghost predicate Entries(files: seq<FileInfo>, src: Scan) {
    forall k | 0 <= k < |files| :: files[k].path in src && src[files[k].path] == files[k]
  }

  lemma {:induction false} PlannedIsPart(src: Scan, dst: Scan, opts: Options, files: seq<FileInfo>)
    requires DistinctFiles(files) && Entries(files, src)
    ensures CopyPart(Planned(dst, opts, files), src, dst, opts, FilesIn(files))
  {
    if files != [] {
      var n := |files| - 1;
      var before, f := files[..n], files[n];
      PlannedIsPart(src, dst, opts, before);
      NewFile(files);
      PartOneMore(src, dst, opts, Planned(dst, opts, before), FilesIn(before), f);
      PlannedLast(dst, opts, files);
    }
  }

  lemma PlannedLast(dst: Scan, opts: Options, files: seq<FileInfo>)
    requires files != []
    ensures
      var n := |files| - 1;
      Planned(dst, opts, files) ==
      if Wanted(files[n], dst, opts) then Planned(dst, opts, files[..n]) + [Action(files[n], files[n].path in dst)]
      else Planned(dst, opts, files[..n])
  {
  }

  lemma PartOneMore(src: Scan, dst: Scan, opts: Options, toCopy: seq<Action>, done: set<string>, f: FileInfo)
    requires CopyPart(toCopy, src, dst, opts, done)
    requires f.path in src && src[f.path] == f && f.path !in done
    ensures CopyPart(if Wanted(f, dst, opts) then toCopy + [Action(f, f.path in dst)] else toCopy, src, dst, opts,
                     if f.isDir then done else done + {f.path})
  {
    assert Wanted(f, dst, opts) <==> !f.isDir && Copies(src, dst, opts, f.path);
    CopyOneMore(toCopy, src, dst, opts, done, Action(f, f.path in dst));
  }

  /** The paths of a listing that are not directories. */
  function FilesIn(files: seq<FileInfo>): set<string> {
    if files == [] then {}
    else
      var n := |files| - 1;
      FilesIn(files[..n]) + if files[n].isDir then {} else {files[n].path}
  }

  lemma {:induction false} InFiles(files: seq<FileInfo>, p: string)
    ensures p in FilesIn(files) <==> exists k :: 0 <= k < |files| && !files[k].isDir && files[k].path == p
  {
    if files != [] {
      var n := |files| - 1;
      InFiles(files[..n], p);
      if p in FilesIn(files[..n]) {
        var k :| 0 <= k < n && !files[..n][k].isDir && files[..n][k].path == p;
        assert files[k].path == p && !files[k].isDir;
      }
      if k :| 0 <= k < n && !files[k].isDir && files[k].path == p {
        assert files[..n][k].path == p;
      }
    }
  }

  lemma NewFile(files: seq<FileInfo>)
    requires files != [] && DistinctFiles(files)
    ensures files[|files| - 1].path !in FilesIn(files[..|files| - 1])
  {
    InFiles(files[..|files| - 1], files[|files| - 1].path);
  }

  function CopiesAmong(src: Scan, dst: Scan, opts: Options, done: set<string>): set<string> {
    set p | p in done && Copies(src, dst, opts, p)
  }

  lemma CopiesAmongOneMore(src: Scan, dst: Scan, opts: Options, done: set<string>, p: string)
    ensures CopiesAmong(src, dst, opts, done + {p}) ==
            CopiesAmong(src, dst, opts, done) + if Copies(src, dst, opts, p) then {p} else {}
  {
  }

  /** `toCopy` is what must be copied among the files `done`. */
  ghost predicate CopyPart(toCopy: seq<Action>, src: Scan, dst: Scan, opts: Options, done: set<string>) {
    && DistinctActions(toCopy)
    && PathsOf(toCopy) == CopiesAmong(src, dst, opts, done)
    && forall i | 0 <= i < |toCopy| ::
         var a := toCopy[i];
         a.file.path in src && a.file == src[a.file.path] && a.isUpdate == (a.file.path in dst)
  }

  lemma RestOneLess(scan: Scan, done: set<string>, p: string)
    ensures scan - (done + {p}) == scan - done - {p}
  {
  }

  lemma CopyOneMore(toCopy: seq<Action>, src: Scan, dst: Scan, opts: Options, done: set<string>, a: Action)
    requires CopyPart(toCopy, src, dst, opts, done) && a.file.path !in done
    requires a.file.path in src && a.file == src[a.file.path] && a.isUpdate == (a.file.path in dst)
    ensures CopyPart(if Copies(src, dst, opts, a.file.path) then toCopy + [a] else toCopy, src, dst, opts, done + {a.file.path})
  {
    AppendPath(toCopy, a);
    CopiesAmongOneMore(src, dst, opts, done, a.file.path);
    forall i | 0 <= i < |toCopy|
      ensures toCopy[i].file.path != a.file.path
    {
      assert toCopy[i].file.path in PathsOf(toCopy);
    }
  }

  lemma OneMoreFile(files: seq<FileInfo>, i: nat)
    requires DistinctFiles(files) && i < |files|
    ensures FilesIn(files[..i + 1]) == if files[i].isDir then FilesIn(files[..i]) else FilesIn(files[..i]) + {files[i].path}
    ensures files[i].path !in FilesIn(files[..i])
  {
    var upTo := files[..i + 1];
    assert upTo[..i] == files[..i] && upTo[i] == files[i];
    NewFile(upTo);
  }

  lemma AllFiles(files: seq<FileInfo>, scan: Scan)
    requires IsScan(files, scan)
    ensures FilesIn(files) == SourceFiles(scan)
  {
    forall p
      ensures p in FilesIn(files) <==> p in SourceFiles(scan)
    {
      InFiles(files, p);
      if p in SourceFiles(scan) {
        assert scan[p] in files;
        var k :| 0 <= k < |files| && files[k] == scan[p];
        assert files[k].path == p && !files[k].isDir;
      }
    }
  }

  lemma AppendPath(actions: seq<Action>, a: Action)
    ensures PathsOf(actions + [a]) == PathsOf(actions) + {a.file.path}
  {
    forall i | 0 <= i < |actions|
      ensures actions[i].file.path in PathsOf(actions + [a])
    {
      assert (actions + [a])[i] == actions[i];
    }
    assert (actions + [a])[|actions|] == a;
  }

  /** The files left over, in no particular order. */
  method Extras(dstMap: Scan) returns (toDelete: seq<string>)
    ensures Distinct(toDelete)
    ensures forall p :: p in toDelete <==> p in dstMap && !dstMap[p].isDir
  {
    toDelete := [];
    var left := dstMap.Keys;
    while left != {}
      invariant left <= dstMap.Keys
      invariant Distinct(toDelete)
      invariant forall p :: p in toDelete <==> p in dstMap && p !in left && !dstMap[p].isDir
      decreases |left|
    {
      var p :| p in left;
      left := left - {p};
      if !dstMap[p].isDir {
        toDelete := toDelete + [p];
      }
    }
  }
}
