/** Comparing two trees (object/sync/check.go). */
module Check {
  import opened Wrappers
  import opened SyncModel
  import opened SyncPlan
  import opened CheckModel
  import opened SyncMeaning

  datatype CheckResult = CheckResult(
    matching: seq<string>,
    differing: seq<string>,
    srcOnly: seq<string>,
    dstOnly: seq<string>,
    errors: seq<FileError>)

  predicate InSync(r: CheckResult) {
    |r.differing| == 0 && |r.srcOnly| == 0 && |r.dstOnly| == 0
  }

  const TIME_TOLERANCE := 1_000_000_000

  function TimeDistance(a: Time, b: Time): nat {
    if a < b then b - a else a - b
  }

  /** What decides whether two files match: hashes, the times, the bytes, or no more than the sizes. */
  predicate Alike(src: Tree, dst: Tree, opts: Options, p: string)
    requires p in src && p in dst
  {
    var f, g := Info(p, src[p], opts), Info(p, dst[p], opts);
    && (!opts.ignoreSize ==> f.size == g.size)
    && (opts.checksum && f.hash != "" && g.hash != "" ==> f.hash == g.hash)
    && (opts.checksum && (f.hash == "" || g.hash == "") ==> src[p].data == dst[p].data)
    && (!opts.checksum && !opts.ignoreTime ==> TimeDistance(f.modTime, g.modTime) <= TIME_TOLERANCE)
  }

  /** By content: with checksums on and no hashes stored, files are alike exactly when their bytes are. */
  lemma AlikeIsEquality(src: Tree, dst: Tree, opts: Options, p: string)
    requires p in src && p in dst && !src[p].isDir && !dst[p].isDir
    requires opts.checksum && (src[p].hash == "" || dst[p].hash == "")
    ensures Alike(src, dst, opts, p) <==> src[p].data == dst[p].data
  {
  }

  /** Opens and reads both files; `srcReads` and `dstReads` are what the backends give. */
  method CompareContent(srcReads: Readings, dstReads: Readings, p: string) returns (r: Result<bool, ReadError>)
    ensures r == OpenedVerdict(srcReads(p), dstReads(p))
  {
    var a := srcReads(p);
    if a.Refused? {
      return Err(Failed);
    }
    var b := dstReads(p);
    if b.Refused? {
      return Err(Failed);
    }
    var srcReader := new Reader(a.stream);
    var dstReader := new Reader(b.stream);
    r := CompareStreams(srcReader, dstReader);
  }

  /** The pair has to be read: checksums are on, a hash is missing, and the sizes do not decide already. */
  predicate ByContent(src: Tree, dst: Tree, opts: Options, p: string)
    requires p in src && p in dst
  {
    var f, g := Info(p, src[p], opts), Info(p, dst[p], opts);
    opts.checksum && (f.hash == "" || g.hash == "") && (opts.ignoreSize || f.size == g.size)
  }

  /** The answer on a pair of files: by their attributes, or by what can be read of them. */
  function Answer(src: Tree, dst: Tree, opts: Options, srcReads: Readings, dstReads: Readings, p: string): Result<bool, ReadError>
    requires p in src && p in dst
  {
    if ByContent(src, dst, opts, p) then OpenedVerdict(srcReads(p), dstReads(p)) else Ok(Alike(src, dst, opts, p))
  }

  method FilesMatch(src: Subtree, dst: Subtree, f: FileInfo, g: FileInfo, opts: Options, srcReads: Readings, dstReads: Readings)
    returns (r: Result<bool, ReadError>)
    requires f.path == g.path && f.path in src.files && f.path in dst.files
    requires f == Info(f.path, src.files[f.path], opts) && g == Info(g.path, dst.files[g.path], opts)
    requires !f.isDir && !g.isDir
    ensures r == Answer(src.files, dst.files, opts, srcReads, dstReads, f.path)
  {
    if !opts.ignoreSize && f.size != g.size {
      return Ok(false);
    }
    if opts.checksum && f.hash != "" && g.hash != "" {
      return Ok(f.hash == g.hash);
    }
    if !opts.ignoreTime && !opts.checksum {
      var timeDiff := f.modTime - g.modTime;
      if timeDiff < 0 {
        timeDiff := -timeDiff;
      }
      if timeDiff > TIME_TOLERANCE {
        return Ok(false);
      }
    }
    if opts.checksum {
      r := CompareContent(srcReads, dstReads, f.path);
      return;
    }
    return Ok(true);
  }

  /** What the backends give are the files, up to failures. */
  ghost predicate ReadsTree(readings: Readings, tree: Tree) {
    forall p | p in tree :: ReadsOf(readings(p), tree[p].data)
  }

  /** The answer is right whenever nothing fails that has to be read, and never a false match. */
  lemma AnswerIsAlike(src: Tree, dst: Tree, opts: Options, srcReads: Readings, dstReads: Readings, p: string)
    requires p in src && p in dst && ReadsTree(srcReads, src) && ReadsTree(dstReads, dst)
    ensures (ByContent(src, dst, opts, p) ==> Sound(srcReads(p)) && Sound(dstReads(p))) ==>
              Answer(src, dst, opts, srcReads, dstReads, p) == Ok(Alike(src, dst, opts, p))
    ensures Answer(src, dst, opts, srcReads, dstReads, p) == Ok(true) ==> Alike(src, dst, opts, p)
  {
    SoundVerdict(srcReads(p), dstReads(p), src[p].data, dst[p].data);
  }

  // ----- the partition -----

  function ErrorPaths(errors: seq<FileError>): (r: seq<string>)
    ensures |r| == |errors| && forall i | 0 <= i < |errors| :: r[i] == errors[i].path
  {
    seq(|errors|, i requires 0 <= i < |errors| => errors[i].path)
  }

  /** All paths the result lists, as often as it lists them. */
  function Listed(r: CheckResult): multiset<string> {
    multiset(r.matching) + multiset(r.differing) + multiset(r.srcOnly) + multiset(r.dstOnly) + multiset(ErrorPaths(r.errors))
  }

  /** The files of both sides found the same, and those whose comparison failed. */
  function SameFiles(src: Tree, dst: Tree, opts: Options, srcReads: Readings, dstReads: Readings): set<string> {
    set p | p in src && p in dst && Answer(src, dst, opts, srcReads, dstReads, p) == Ok(true)
  }

  function FailedFiles(src: Tree, dst: Tree, opts: Options, srcReads: Readings, dstReads: Readings): set<string> {
    set p | p in src && p in dst && Answer(src, dst, opts, srcReads, dstReads, p).Err?
  }

  /**
   Every path is in the list it belongs to: `s` and `d` are the paths of the two sides, `same` those found the
   same, and `failed` those whose comparison failed.
   */
  ghost predicate Right(s: set<string>, d: set<string>, same: set<string>, failed: set<string>, r: CheckResult) {
    forall p :: RightAt(s, d, same, failed, r, p)
  }

  ghost predicate RightAt(s: set<string>, d: set<string>, same: set<string>, failed: set<string>, r: CheckResult, p: string) {
    && (p in r.matching ==> p in s && p in d && p in same)
    && (p in r.differing ==> p in s && p in d && p !in same && p !in failed)
    && (p in ErrorPaths(r.errors) ==> p in s && p in d && p in failed)
    && (p in r.srcOnly ==> p in s && p !in d)
    && (p in r.dstOnly ==> p in d && p !in s)
  }

  datatype List = Matching | Differing | SourceOnly | Errors

  function Put(r: CheckResult, list: List, p: string): CheckResult {
    match list
    case Matching => r.(matching := r.matching + [p])
    case Differing => r.(differing := r.differing + [p])
    case SourceOnly => r.(srcOnly := r.srcOnly + [p])
    case Errors => r.(errors := r.errors + [FileError(p, "compare")])
  }

  /** The list a source path belongs on. */
  predicate Fits(d: set<string>, same: set<string>, failed: set<string>, list: List, p: string) {
    match list
    case Matching => p in d && p in same
    case Differing => p in d && p !in same && p !in failed
    case SourceOnly => p !in d
    case Errors => p in d && p in failed
  }

  lemma PutKeepsRight(s: set<string>, d: set<string>, same: set<string>, failed: set<string>, r: CheckResult, list: List, p: string)
    requires Right(s, d, same, failed, r) && p in s && Fits(d, same, failed, list, p)
    ensures Right(s, d, same, failed, Put(r, list, p))
    ensures Listed(Put(r, list, p)) == Listed(r) + multiset{p}
  {
    assert ErrorPaths(r.errors + [FileError(p, "compare")]) == ErrorPaths(r.errors) + [p];
    var r' := Put(r, list, p);
    forall q
      ensures RightAt(s, d, same, failed, r', q)
    {
      assert RightAt(s, d, same, failed, r, q);
    }
  }

  lemma RestKeepsRight(s: set<string>, d: set<string>, same: set<string>, failed: set<string>, r: CheckResult, rest: seq<string>)
    requires Right(s, d, same, failed, r) && r.dstOnly == []
    requires multiset(rest) == multiset(d - s) && Listed(r) == multiset(s)
    ensures Right(s, d, same, failed, r.(dstOnly := rest))
    ensures Listed(r.(dstOnly := rest)) == multiset(s + d)
  {
    assert multiset(s) + multiset(d - s) == multiset(s + d);
    var r' := r.(dstOnly := rest);
    forall q
      ensures RightAt(s, d, same, failed, r', q)
    {
      assert RightAt(s, d, same, failed, r, q);
      assert q in rest ==> q in multiset(rest);
    }
  }

  function FilesOf(tree: Tree, opts: Options): set<string> {
    SourceFiles(ScanOf(tree, opts))
  }

  /** The result on two trees, given what can be read of them. */
  ghost predicate IsCheck(src: Tree, dst: Tree, opts: Options, srcReads: Readings, dstReads: Readings, r: CheckResult) {
    && Listed(r) == multiset(FilesOf(src, opts) + FilesOf(dst, opts))
    && Right(FilesOf(src, opts), FilesOf(dst, opts), SameFiles(src, dst, opts, srcReads, dstReads),
             FailedFiles(src, dst, opts, srcReads, dstReads), r)
  }

  /**
   Check.  The five lists hold every file of either side once, each on the list where it belongs; there is no
   result exactly when a listing fails.
   */
  method Check(src: Subtree, dst: Subtree, opts: Options, srcReads: Readings, dstReads: Readings, lists: bool)
    returns (r: Option<CheckResult>)
    ensures r.Some? <==> lists
    ensures r.Some? ==> IsCheck(src.files, dst.files, opts, srcReads, dstReads, r.value)
  {
    if !lists {
      return None;
    }
    var srcFiles := src.ListFiles(opts);
    var dstFiles := dst.ListFiles(opts);
    var dstMap := FileMap(dstFiles, ScanOf(dst.files, opts));
    assert IsFileMap(dst.files, opts, dstMap);
    AllDescribed(src.files, dst.files, opts, srcReads, dstReads, srcFiles, dstMap);
    ghost var s, d := FilesOf(src.files, opts), FilesOf(dst.files, opts);
    ghost var same := SameFiles(src.files, dst.files, opts, srcReads, dstReads);
    ghost var failed := FailedFiles(src.files, dst.files, opts, srcReads, dstReads);
    var result;
    result, dstMap := CheckFiles(src, dst, srcFiles, dstMap, opts, srcReads, dstReads, ScanOf(src.files, opts), s, d, same, failed);
    var rest := Remaining(dstMap);
    RestKeepsRight(s, d, same, failed, result, rest);
    return Some(result.(dstOnly := rest));
  }

  ghost predicate IsFileMap(tree: Tree, opts: Options, m: Scan) {
    m.Keys == FilesOf(tree, opts) && forall p | p in m :: p in tree && !tree[p].isDir && m[p] == Info(p, tree[p], opts)
  }

  /** What the loop over the listing needs to know about a source file. */
  ghost predicate Described(src: Tree, dst: Tree, opts: Options, srcReads: Readings, dstReads: Readings,
                            s: set<string>, same: set<string>, failed: set<string>, dstAll: Scan, f: FileInfo) {
    && f.path in src && f == Info(f.path, src[f.path], opts)
    && (!f.isDir ==> f.path in s)
    && (f.path in dstAll ==>
          && f.path in dst && dstAll[f.path] == Info(f.path, dst[f.path], opts) && !dst[f.path].isDir
          && (f.path in same <==> Answer(src, dst, opts, srcReads, dstReads, f.path) == Ok(true))
          && (f.path in failed <==> Answer(src, dst, opts, srcReads, dstReads, f.path).Err?))
  }

  lemma AllDescribed(src: Tree, dst: Tree, opts: Options, srcReads: Readings, dstReads: Readings,
                     srcFiles: seq<FileInfo>, dstAll: Scan)
    requires IsScan(srcFiles, ScanOf(src, opts)) && IsFileMap(dst, opts, dstAll)
    ensures forall i | 0 <= i < |srcFiles| ::
              Described(src, dst, opts, srcReads, dstReads, FilesOf(src, opts), SameFiles(src, dst, opts, srcReads, dstReads),
                        FailedFiles(src, dst, opts, srcReads, dstReads), dstAll, srcFiles[i])
  {
    var same, failed := SameFiles(src, dst, opts, srcReads, dstReads), FailedFiles(src, dst, opts, srcReads, dstReads);
    forall i | 0 <= i < |srcFiles|
      ensures Described(src, dst, opts, srcReads, dstReads, FilesOf(src, opts), same, failed, dstAll, srcFiles[i])
    {
      assert srcFiles[i].path in ScanOf(src, opts);
    }
  }

  /** Goes over the source listing; what remains of the map afterwards is only in the destination. */
  method CheckFiles(src: Subtree, dst: Subtree, srcFiles: seq<FileInfo>, dstAll: Scan, opts: Options,
                    srcReads: Readings, dstReads: Readings,
                    ghost scan: Scan, ghost s: set<string>, ghost d: set<string>, ghost same: set<string>, ghost failed: set<string>)
    returns (r: CheckResult, dstMap: Scan)
    requires IsScan(srcFiles, scan) && SourceFiles(scan) == s && dstAll.Keys == d
    requires forall i | 0 <= i < |srcFiles| ::
               Described(src.files, dst.files, opts, srcReads, dstReads, s, same, failed, dstAll, srcFiles[i])
    ensures Listed(r) == multiset(s) && r.dstOnly == []
    ensures Right(s, d, same, failed, r)
    ensures dstMap.Keys == d - s
  {
    r, dstMap := CheckResult([], [], [], [], []), dstAll;
    ghost var done: set<string> := {};
    for i := 0 to |srcFiles|
      invariant done == FilesIn(srcFiles[..i])
      invariant Listed(r) == multiset(done) && r.dstOnly == []
      invariant Right(s, d, same, failed, r)
      invariant dstMap == dstAll - done
    {
      var f := srcFiles[i];
      OneMoreFile(srcFiles, i);
      if f.isDir {
        continue;
      }
      assert Described(src.files, dst.files, opts, srcReads, dstReads, s, same, failed, dstAll, f);
      RestOneLess(dstAll, done, f.path);
      r := CheckOne(src, dst, f, dstMap, opts, srcReads, dstReads, r, s, d, same, failed, done);
      dstMap := dstMap - {f.path};
      done := done + {f.path};
    }
    assert srcFiles[..|srcFiles|] == srcFiles;
    AllFiles(srcFiles, scan);
  }

  lemma OneMoreMember(done: set<string>, p: string)
    ensures p !in done ==> multiset(done + {p}) == multiset(done) + multiset{p}
  {
  }

  /** Puts one source file on its list. */
  method CheckOne(src: Subtree, dst: Subtree, f: FileInfo, dstMap: Scan, opts: Options, srcReads: Readings, dstReads: Readings,
                  r: CheckResult, ghost s: set<string>, ghost d: set<string>, ghost same: set<string>, ghost failed: set<string>,
                  ghost done: set<string>)
    returns (r': CheckResult)
    requires f.path in s && (f.path in dstMap <==> f.path in d) && !f.isDir
    requires Described(src.files, dst.files, opts, srcReads, dstReads, s, same, failed, dstMap, f)
    requires Right(s, d, same, failed, r) && Listed(r) == multiset(done) && f.path !in done
    ensures Right(s, d, same, failed, r') && r'.dstOnly == r.dstOnly
    ensures Listed(r') == multiset(done + {f.path})
  {
    ghost var list: List;
    if f.path !in dstMap {
      r', list := r.(srcOnly := r.srcOnly + [f.path]), SourceOnly;
    } else {
      var answer := FilesMatch(src, dst, f, dstMap[f.path], opts, srcReads, dstReads);
      match answer {
        case Err(_) =>
          r', list := r.(errors := r.errors + [FileError(f.path, "compare")]), Errors;
        case Ok(true) =>
          r', list := r.(matching := r.matching + [f.path]), Matching;
        case Ok(false) =>
          r', list := r.(differing := r.differing + [f.path]), Differing;
      }
    }
    PutKeepsRight(s, d, same, failed, r, list, f.path);
    assert r' == Put(r, list, f.path);
    OneMoreMember(done, f.path);
  }

  /** What is left of the destination, in no particular order. */
  method Remaining(dstMap: Scan) returns (paths: seq<string>)
    ensures multiset(paths) == multiset(dstMap.Keys)
  {
    paths := [];
    var left := dstMap.Keys;
    while left != {}
      invariant left <= dstMap.Keys
      invariant multiset(paths) + multiset(left) == multiset(dstMap.Keys)
      decreases |left|
    {
      var p :| p in left;
      assert multiset(left) == multiset(left - {p}) + multiset{p};
      left := left - {p};
      paths := paths + [p];
    }
  }

  // ----- what a result means -----

  /** The partition: a path of either side is on one list, once. */
  lemma OnOneList(s: set<string>, d: set<string>, r: CheckResult, p: string)
    requires Listed(r) == multiset(s + d)
    ensures p in s + d <==> p in r.matching || p in r.differing || p in r.srcOnly || p in r.dstOnly || p in ErrorPaths(r.errors)
    ensures p in r.matching ==> p !in ErrorPaths(r.errors)
    ensures p in r.differing ==> p !in r.matching && p !in ErrorPaths(r.errors)
    ensures p in r.srcOnly ==> p !in r.matching && p !in r.differing && p !in ErrorPaths(r.errors)
    ensures p in r.dstOnly ==> p !in r.matching && p !in r.differing && p !in ErrorPaths(r.errors) && p !in r.srcOnly
  {
    assert multiset(s + d)[p] <= 1;
    assert Listed(r)[p] == multiset(r.matching)[p] + multiset(r.differing)[p] + multiset(r.srcOnly)[p]
                           + multiset(r.dstOnly)[p] + multiset(ErrorPaths(r.errors))[p];
  }

  /** A path is on a list exactly when it belongs there. */
  lemma ListsAreExact(s: set<string>, d: set<string>, same: set<string>, failed: set<string>, r: CheckResult, p: string)
    requires Right(s, d, same, failed, r) && Listed(r) == multiset(s + d) && same !! failed
    ensures p in r.matching <==> p in s && p in d && p in same
    ensures p in r.differing <==> p in s && p in d && p !in same && p !in failed
    ensures p in ErrorPaths(r.errors) <==> p in s && p in d && p in failed
    ensures p in r.srcOnly <==> p in s && p !in d
    ensures p in r.dstOnly <==> p in d && p !in s
  {
    OnOneList(s, d, r, p);
    assert RightAt(s, d, same, failed, r, p);
  }

  /**
   By content: with checksums on and a hash missing, a common path that both backends read to the end is on the
   matching list exactly when its bytes are equal, and otherwise on the differing list.
   */
  lemma MatchMeansEqualBytes(src: Tree, dst: Tree, opts: Options, srcReads: Readings, dstReads: Readings, r: CheckResult, p: string)
    requires IsCheck(src, dst, opts, srcReads, dstReads, r) && ReadsTree(srcReads, src) && ReadsTree(dstReads, dst)
    requires p in FilesOf(src, opts) && p in FilesOf(dst, opts)
    requires opts.checksum && (src[p].hash == "" || dst[p].hash == "")
    requires Sound(srcReads(p)) && Sound(dstReads(p))
    ensures p in r.matching <==> src[p].data == dst[p].data
    ensures p in r.differing <==> src[p].data != dst[p].data
  {
    ListsAreExact(FilesOf(src, opts), FilesOf(dst, opts), SameFiles(src, dst, opts, srcReads, dstReads),
                  FailedFiles(src, dst, opts, srcReads, dstReads), r, p);
    AnswerIsAlike(src, dst, opts, srcReads, dstReads, p);
    AlikeIsEquality(src, dst, opts, p);
  }

  /** Whatever fails, what is on the matching list is alike. */
  lemma MatchIsNeverFalse(src: Tree, dst: Tree, opts: Options, srcReads: Readings, dstReads: Readings, r: CheckResult, p: string)
    requires IsCheck(src, dst, opts, srcReads, dstReads, r) && ReadsTree(srcReads, src) && ReadsTree(dstReads, dst)
    requires p in r.matching
    ensures p in src && p in dst && Alike(src, dst, opts, p)
  {
    assert RightAt(FilesOf(src, opts), FilesOf(dst, opts), SameFiles(src, dst, opts, srcReads, dstReads),
                   FailedFiles(src, dst, opts, srcReads, dstReads), r, p);
    AnswerIsAlike(src, dst, opts, srcReads, dstReads, p);
  }

  /**
   InSync does not look at the errors: it holds exactly when both sides have the same paths and every one of
   them was found the same or could not be compared.
   */
  lemma InSyncMeans(s: set<string>, d: set<string>, same: set<string>, failed: set<string>, r: CheckResult)
    requires Right(s, d, same, failed, r) && Listed(r) == multiset(s + d)
    ensures InSync(r) <==> s == d && forall p | p in s :: p in same || p in failed
  {
    forall p
      ensures p in r.differing || p in r.srcOnly || p in r.dstOnly ==>
                p in s + d && (p !in s || p !in d || (p !in same && p !in failed))
      ensures InSync(r) && (p in s || p in d) ==> p in s && p in d && (p in same || p in failed)
    {
      OnOneList(s, d, r, p);
      assert RightAt(s, d, same, failed, r, p);
    }
    assert !InSync(r) ==>
        (r.differing != [] && r.differing[0] in r.differing) || (r.srcOnly != [] && r.srcOnly[0] in r.srcOnly)
        || (r.dstOnly != [] && r.dstOnly[0] in r.dstOnly);
  }

  // ----- in terms of the files -----

  /** What two files are alike in, case by case. */
  lemma AlikeMeans(src: Tree, dst: Tree, opts: Options, p: string)
    requires p in src && p in dst && !src[p].isDir && !dst[p].isDir
    ensures
      var a, b := src[p], dst[p];
      var sizesAgree := opts.ignoreSize || |a.data| == |b.data|;
      Alike(src, dst, opts, p) <==>
        if BothHashed(opts, a, b) then sizesAgree && a.hash == b.hash
        else if opts.checksum then a.data == b.data
        else sizesAgree && (opts.ignoreTime || (a.modTime <= b.modTime + 1_000_000_000 && b.modTime <= a.modTime + 1_000_000_000))
  {
  }

  /** All that has to be read can be read to the end. */
  ghost predicate AllReadable(src: Tree, dst: Tree, opts: Options, srcReads: Readings, dstReads: Readings) {
    && ReadsTree(srcReads, src) && ReadsTree(dstReads, dst)
    && forall p | p in src && p in dst && !src[p].isDir && !dst[p].isDir ::
         opts.checksum && !BothHashed(opts, src[p], dst[p]) ==> Sound(srcReads(p)) && Sound(dstReads(p))
  }

  /** Where nothing fails each file that a side offers is on its list: matching, differing, or of one side only. */
  lemma ListsMean(src: Tree, dst: Tree, opts: Options, srcReads: Readings, dstReads: Readings, r: CheckResult, p: string)
    requires IsCheck(src, dst, opts, srcReads, dstReads, r) && AllReadable(src, dst, opts, srcReads, dstReads)
    ensures p in r.matching <==> Offers(src, opts, p) && Offers(dst, opts, p) && Alike(src, dst, opts, p)
    ensures p in r.differing <==> Offers(src, opts, p) && Offers(dst, opts, p) && !Alike(src, dst, opts, p)
    ensures p in r.srcOnly <==> Offers(src, opts, p) && !Offers(dst, opts, p)
    ensures p in r.dstOnly <==> Offers(dst, opts, p) && !Offers(src, opts, p)
    ensures p !in ErrorPaths(r.errors)
  {
    PlanMeans(src, dst, opts, p);
    PlanMeans(dst, src, opts, p);
    ListsAreExact(FilesOf(src, opts), FilesOf(dst, opts), SameFiles(src, dst, opts, srcReads, dstReads),
                  FailedFiles(src, dst, opts, srcReads, dstReads), r, p);
    if Offers(src, opts, p) && Offers(dst, opts, p) {
      AnswerIsAlike(src, dst, opts, srcReads, dstReads, p);
    }
  }

  /** A tree checked against itself is in sync, under any options, and all its files match. */
  lemma OwnCopyMatches(tree: Tree, opts: Options, srcReads: Readings, dstReads: Readings, r: CheckResult)
    requires IsCheck(tree, tree, opts, srcReads, dstReads, r) && AllReadable(tree, tree, opts, srcReads, dstReads)
    ensures InSync(r) && r.errors == [] && forall p :: p in r.matching <==> Offers(tree, opts, p)
  {
    forall p
      ensures p in r.matching <==> Offers(tree, opts, p)
      ensures p !in r.differing && p !in r.srcOnly && p !in r.dstOnly && p !in ErrorPaths(r.errors)
    {
      ListsMean(tree, tree, opts, srcReads, dstReads, r, p);
      if Offers(tree, opts, p) {
        AlikeMeans(tree, tree, opts, p);
      }
    }
    NoElement(r.differing);
    NoElement(r.srcOnly);
    NoElement(r.dstOnly);
    NoElement(ErrorPaths(r.errors));
  }

  lemma NoElement(list: seq<string>)
    ensures (forall p :: p !in list) ==> list == []
  {
    assert list != [] ==> list[0] in list;
  }

  /** With stored checksums that tell contents apart a common file is on the matching list exactly when its bytes are equal. */
  lemma HashesTell(src: Tree, dst: Tree, opts: Options, srcReads: Readings, dstReads: Readings, r: CheckResult,
                   hash: Bytes -> string, p: string)
    requires IsCheck(src, dst, opts, srcReads, dstReads, r) && ReadsTree(srcReads, src) && ReadsTree(dstReads, dst)
    requires opts.checksum && Faithful(hash, src, dst) && Offers(src, opts, p) && Offers(dst, opts, p)
    ensures p in r.matching <==> src[p].data == dst[p].data
    ensures p in r.differing <==> src[p].data != dst[p].data
  {
    ListsMean(src, dst, opts, srcReads, dstReads, r, p);
    AlikeMeans(src, dst, opts, p);
  }
}
