/** Moves (object/sync/sync.go), and what the contract of Sync says about whole calls. */
module SyncMove {
  import opened Wrappers
  import opened SyncModel
  import opened SyncPlan
  import opened SyncPool
  import opened SyncPoolSafety
  import opened SyncEngine
  import opened SyncMeaning

  function NoDeletes(opts: Options): Options {
    opts.(deleteExtra := false)
  }

  /** The files a move is about. */
  function Movable(src: Tree, opts: Options): set<string> {
    SourceFiles(ScanOf(src, NoDeletes(opts)))
  }

  /** Files of `src'` are files of `src`, and whatever is gone was movable and is named by the destination. */
  ghost predicate OnlyMoved(src: Tree, src': Tree, dst': Tree, movable: set<string>) {
    && (forall p | p in src' :: Same(src', src, p))
    && forall p | p in src && p !in src' :: p in movable && p in dst'
  }

  /** The files of a listing that are not directories, among the first `i`. */
  predicate SweptFiles(files: seq<FileInfo>, i: nat, src': Tree) {
    forall k | 0 <= k < i && k < |files| && !files[k].isDir :: files[k].path !in src'
  }

  const SOURCE_OPS: set<string> := {"verify", "delete-source"}

  /** The second half of a move: deletes the source files whose path the destination has. */
  method DeleteSources(src: Subtree, dst: Subtree, opts: Options, ambient: Ambient, before: seq<FileError>)
    returns (errors: seq<FileError>, status: Status)
    requires src != dst
    modifies src
    ensures before <= errors && CopyCount(errors) == CopyCount(before)
    ensures forall i | |before| <= i < |errors| :: MayFail(ambient, errors[i].path)
    ensures !status.ListingFailed? && (status.Cancelled? ==> ambient.cancels)
    ensures OnlyMoved(old(src.files), src.files, dst.files, SourceFiles(ScanOf(old(src.files), opts)))
    ensures status.Finished? && errors == before && SourceFiles(ScanOf(old(src.files), opts)) <= dst.files.Keys ==>
              AllGone(src.files, SourceFiles(ScanOf(old(src.files), opts)))
  {
    ghost var src0 := src.files;
    ghost var movable := SourceFiles(ScanOf(src0, opts));
    var files := src.ListFiles(opts);
    AllFiles(files, ScanOf(src0, opts));
    forall k | 0 <= k < |files| && !files[k].isDir
      ensures files[k].path in movable
    {
      InFiles(files, files[k].path);
    }
    errors, status := DeleteListed(src, dst, files, opts, ambient, before, movable);
    FaultsAddedMeans(before, errors, SOURCE_OPS, movable, ambient);
    if status.Finished? && errors == before && movable <= dst.files.Keys {
      AllSwept(files, ScanOf(src0, opts), src.files);
    }
  }

  method DeleteListed(src: Subtree, dst: Subtree, files: seq<FileInfo>, opts: Options, ambient: Ambient, before: seq<FileError>,
                      ghost movable: set<string>)
    returns (errors: seq<FileError>, status: Status)
    requires src != dst && forall k | 0 <= k < |files| && !files[k].isDir :: files[k].path in movable
    modifies src
    ensures FaultsAdded(before, errors, SOURCE_OPS, movable, ambient)
    ensures !status.ListingFailed? && (status.Cancelled? ==> ambient.cancels)
    ensures OnlyMoved(old(src.files), src.files, dst.files, movable)
    ensures status.Finished? && errors == before && movable <= dst.files.Keys ==> SweptFiles(files, |files|, src.files)
  {
    errors, status := before, Finished;
    for i := 0 to |files|
      invariant |before| <= |errors| && FaultsAdded(before, errors, SOURCE_OPS, movable, ambient)
      invariant OnlyMoved(old(src.files), src.files, dst.files, movable)
      invariant |errors| == |before| && movable <= dst.files.Keys ==> SweptFiles(files, i, src.files)
    {
      var f := files[i];
      if f.isDir {
        continue;
      }
      var cancelled: bool := *;
      if cancelled && ambient.cancels {
        status := Cancelled;
        break;
      }
      ghost var before' := src.files;
      var e, failedDelete := MoveOne(src, dst, f.path, MayFail(ambient, f.path));
      SweptOneMore(files, i, old(src.files), before', src.files, dst.files, movable);
      if e.Some? {
        OneFaultAdded(before, errors, e.value, SOURCE_OPS, movable, ambient);
        errors := errors + [e.value];
        if failedDelete && opts.maxErrors > 0 && |errors| >= opts.maxErrors {
          break;
        }
      }
    }
  }

  /** Deletes one source file if the destination has its path. */
  method MoveOne(src: Subtree, dst: Subtree, p: string, mayFail: bool) returns (e: Option<FileError>, failedDelete: bool)
    requires src != dst
    modifies src
    ensures src.files == old(src.files) || (src.files == old(src.files) - {p} && p in dst.files)
    ensures e.Some? ==> mayFail && e.value == FileError(p, if failedDelete then "delete-source" else "verify")
    ensures e.None? && p in dst.files ==> p !in src.files
  {
    var unknown: bool := *;
    if unknown && mayFail {
      return Some(FileError(p, "verify")), false;
    }
    if p !in dst.files {
      // not copied: the source is kept
      return None, false;
    }
    var ok := Delete(src, p, mayFail);
    return if ok then None else Some(FileError(p, "delete-source")), !ok;
  }

  lemma SweptOneMore(files: seq<FileInfo>, i: nat, src: Tree, src1: Tree, src2: Tree, dst: Tree, movable: set<string>)
    requires i < |files| && files[i].path in movable
    requires src2 == src1 || (src2 == src1 - {files[i].path} && files[i].path in dst)
    requires OnlyMoved(src, src1, dst, movable)
    ensures OnlyMoved(src, src2, dst, movable)
    ensures SweptFiles(files, i, src1) && files[i].path !in src2 ==> SweptFiles(files, i + 1, src2)
  {
  }

  lemma AllSwept(files: seq<FileInfo>, scan: Scan, src': Tree)
    requires IsScan(files, scan) && SweptFiles(files, |files|, src')
    ensures AllGone(src', SourceFiles(scan))
  {
    AllFiles(files, scan);
    forall p | p in SourceFiles(scan)
      ensures p !in src'
    {
      InFiles(files, p);
    }
  }

  /** Where the content of a moved file is afterwards. */
  ghost predicate Landed(src: Tree, dst: Tree, dst': Tree, errors: seq<FileError>, copies: set<string>, p: string) {
    || (p in src && HasBytes(dst', p, src[p].data))
    || FileError(p, "copy") in errors
    || (p !in copies && Same(dst', dst, p))
  }

  /**
   What every move guarantees of the paths: none is lost, only movable files go, and each that is gone holds the
   source bytes, or its failed copy is reported, or it is what the destination had; the last only where it was not
   to be copied, unless failed copies reached the limit.
   */
  ghost predicate MovedSafely(src: Tree, src': Tree, dst: Tree, dst': Tree, opts: Options, errors: seq<FileError>) {
    var copies := CopyPaths(src, dst, NoDeletes(opts));
    && src.Keys <= src'.Keys + dst'.Keys
    && OnlyMoved(src, src', dst', Movable(src, opts))
    && Untouched(dst, dst', copies)
    && (opts.dryRun ==> src' == src && dst' == dst)
    && (forall p | p in src && p !in src' :: CopyEffect(src, dst, dst', errors, p))
    && (!LimitReached(opts, errors) ==> forall p | p in src && p !in src' :: Landed(src, dst, dst', errors, copies, p))
  }

  /**
   Move.  A move without errors empties the source of its movable files and leaves the destination of an
   error-free synchronization; and a move in which nothing goes wrong is one.
   */
  method Move(src: Subtree, dst: Subtree, opts: Options, ambient: Ambient) returns (r: SyncResult, status: Status)
    requires src != dst
    modifies src, dst
    ensures MovedSafely(old(src.files), src.files, old(dst.files), dst.files, opts, r.errors)
    ensures status.ListingFailed? ==> !ambient.lists && src.files == old(src.files)
    ensures status.Cancelled? ==> ambient.cancels
    ensures ErrorsCaused(opts, ambient, r.errors)
    ensures status.Finished? ==> MoveCounts(old(src.files), old(dst.files), opts, r, r.errors)
    ensures status.Finished? && r.errors == [] ==> Tells(old(src.files), old(dst.files), NoDeletes(opts), r)
    ensures status.Finished? && r.errors == [] && !opts.dryRun ==>
              CleanMove(old(src.files), src.files, old(dst.files), dst.files, opts)
  {
    ghost var src0, dst0 := src.files, dst.files;
    var o := opts.(deleteExtra := false);
    r, status := Sync(src, dst, o, ambient);
    Settled(src0, dst0, dst.files, opts, r, r.errors, status.Finished?);
    if !status.Finished? || o.dryRun {
      return;
    }
    if !ambient.lists {
      var listed: bool := *;
      if !listed {
        status := ListingFailed;
        return;
      }
    }
    r, status := SweepSources(src, dst, opts, ambient, r, dst0);
  }

  /** The rest of a move, after its copies. */
  method SweepSources(src: Subtree, dst: Subtree, opts: Options, ambient: Ambient, copied: SyncResult, ghost dst0: Tree)
    returns (r: SyncResult, status: Status)
    requires src != dst && !opts.dryRun
    requires SafeOutcome(src.files, dst0, dst.files, NoDeletes(opts), copied)
    requires FullOutcome(src.files, dst0, dst.files, NoDeletes(opts), copied)
    requires ErrorsCaused(NoDeletes(opts), ambient, copied.errors)
    modifies src
    ensures MovedSafely(old(src.files), src.files, dst0, dst.files, opts, r.errors)
    ensures !status.ListingFailed? && (status.Cancelled? ==> ambient.cancels)
    ensures ErrorsCaused(opts, ambient, r.errors)
    ensures MoveCounts(old(src.files), dst0, opts, r, r.errors)
    ensures copied.errors <= r.errors && r == copied.(errors := r.errors)
    ensures status.Finished? && r.errors == [] ==> CleanMove(old(src.files), src.files, dst0, dst.files, opts)
  {
    ghost var src0 := src.files;
    if copied.errors == [] {
      AllNamed(src0, dst0, dst.files, NoDeletes(opts));
    }
    var errors;
    errors, status := DeleteSources(src, dst, NoDeletes(opts), ambient, copied.errors);
    Settled(src0, dst0, dst.files, opts, copied, errors, true);
    CausesAdded(opts, ambient, copied.errors, errors);
    r := copied.(errors := errors);
    if status.Finished? && errors == [] {
      AllMoved(src0, src.files, dst0, dst.files, opts);
    }
  }

  /** What a move is for: the source keeps only what it does not offer, and the destination is what the options ask for. */
  ghost predicate Moved(src: Tree, src': Tree, dst: Tree, dst': Tree, opts: Options) {
    && AsAsked(src, dst, NoDeletes(opts), dst')
    && forall p :: if Offers(src, opts, p) then p !in src' else Same(src', src, p)
  }

  ghost predicate CleanMove(src: Tree, src': Tree, dst: Tree, dst': Tree, opts: Options) {
    && AllGone(src', Movable(src, opts)) && Synced(src, dst, NoDeletes(opts), dst')
    && Moved(src, src', dst, dst', opts)
  }

  lemma AllMoved(src: Tree, src': Tree, dst: Tree, dst': Tree, opts: Options)
    requires OnlyMoved(src, src', dst', Movable(src, opts)) && AllGone(src', Movable(src, opts))
    requires Synced(src, dst, NoDeletes(opts), dst')
    ensures CleanMove(src, src', dst, dst', opts)
  {
    SyncedAsAsked(src, dst, NoDeletes(opts), dst');
    forall p
      ensures if Offers(src, opts, p) then p !in src' else Same(src', src, p)
    {
      PlanMeans(src, dst, NoDeletes(opts), p);
      assert p in Movable(src, opts) <==> Offers(src, opts, p);
    }
  }

  /** What the copies of a move leave at each path, with any errors that follow theirs. */
  lemma Settled(src: Tree, dst: Tree, dst': Tree, opts: Options, r: SyncResult, errors: seq<FileError>, finished: bool)
    requires SafeOutcome(src, dst, dst', NoDeletes(opts), r)
    requires finished ==> FullOutcome(src, dst, dst', NoDeletes(opts), r)
    requires r.errors <= errors && CopyCount(errors) == CopyCount(r.errors)
    ensures finished ==> MoveCounts(src, dst, opts, r, errors)
    ensures Untouched(dst, dst', CopyPaths(src, dst, NoDeletes(opts)))
    ensures forall p | p in src :: CopyEffect(src, dst, dst', errors, p)
    ensures finished && !opts.dryRun && !LimitReached(opts, errors) ==>
              forall p | p in src :: Landed(src, dst, dst', errors, CopyPaths(src, dst, NoDeletes(opts)), p)
  {
    var copies := CopyPaths(src, dst, NoDeletes(opts));
    assert DeletePaths(src, dst, NoDeletes(opts)) == {};
    forall p | p in src
      ensures CopyEffect(src, dst, dst', errors, p)
      ensures finished && !opts.dryRun && !LimitReached(opts, errors) ==> Landed(src, dst, dst', errors, copies, p)
    {
      Kept(src, dst, dst', r.errors, errors, copies, p);
    }
  }

  lemma CausesAdded(opts: Options, ambient: Ambient, errors: seq<FileError>, errors': seq<FileError>)
    requires ErrorsCaused(NoDeletes(opts), ambient, errors) && errors <= errors' && CopyCount(errors') == CopyCount(errors)
    requires forall i | |errors| <= i < |errors'| :: MayFail(ambient, errors'[i].path)
    ensures ErrorsCaused(opts, ambient, errors')
  {
  }

  /** The counters of a move are those of its copies. */
  ghost predicate MoveCounts(src: Tree, dst: Tree, opts: Options, r: SyncResult, errors: seq<FileError>) {
    && (!LimitReached(opts, errors) ==>
          r.copied + r.updated + r.skipped + CopyCount(errors) == |Movable(src, opts)|)
    && (errors == [] ==> Counts(r.copied, r.updated, r.deleted, r.skipped, r.bytes) == Predicted(src, dst, NoDeletes(opts)))
  }

  lemma Kept(src: Tree, dst: Tree, dst': Tree, errors: seq<FileError>, errors': seq<FileError>, copies: set<string>, p: string)
    requires CopyEffects(src, dst, dst', errors, copies) && Untouched(dst, dst', copies) && errors <= errors'
    ensures CopyEffect(src, dst, dst', errors', p)
    ensures AllAttempted(src, dst', errors, copies) ==> Landed(src, dst, dst', errors', copies, p)
  {
    if FileError(p, "copy") in errors {
      var k :| 0 <= k < |errors| && errors[k] == FileError(p, "copy");
      assert errors'[k] == FileError(p, "copy");
    }
  }

  lemma AllNamed(src: Tree, dst: Tree, dst': Tree, opts: Options)
    requires Synced(src, dst, opts, dst') && !opts.deleteExtra
    ensures SourceFiles(ScanOf(src, opts)) <= dst'.Keys
  {
    var s, d := ScanOf(src, opts), ScanOf(dst, opts);
    assert DeletePaths(src, dst, opts) == {};
    forall p | p in SourceFiles(s)
      ensures p in dst'
    {
      if p !in CopyPaths(src, dst, opts) {
        assert p in d && p in dst;
        assert Same(dst', dst, p);
      }
    }
  }

  /** The destination has no such file, or one that differs and may be replaced. */
  predicate Replaced(src: Tree, dst: Tree, opts: Options, p: string)
    requires p in src
  {
    Missing(dst, opts, p) || (!opts.ignoreExisting && p in dst && !dst[p].isDir && Differing(opts, src[p], dst[p]))
  }

  /**
   When a move without errors keeps the contents: exactly when every movable file is one the plan copies, or is
   already there with the same bytes.  It is not enough that the comparison finds nothing to update.
   */
  lemma MoveKeepsContents(src: Tree, dst: Tree, opts: Options, dst': Tree)
    requires Synced(src, dst, NoDeletes(opts), dst')
    ensures (forall p | Offers(src, opts, p) :: HasBytes(dst', p, src[p].data)) <==>
            (forall p | Offers(src, opts, p) :: Replaced(src, dst, opts, p) || HasBytes(dst, p, src[p].data))
  {
    var copies := CopyPaths(src, dst, NoDeletes(opts));
    assert DeletePaths(src, dst, NoDeletes(opts)) == {};
    forall p | Offers(src, opts, p)
      ensures HasBytes(dst', p, src[p].data) <==> Replaced(src, dst, opts, p) || HasBytes(dst, p, src[p].data)
    {
      PlanMeans(src, dst, NoDeletes(opts), p);
      if p !in copies {
        assert Same(dst', dst, p);
      }
    }
  }

  // ----- a broken copy passes the check of Move -----

  const BROKEN: string := "a"

  function BrokenInfo(data: Bytes): FileInfo {
    FileInfo(BROKEN, |data|, 0, "", false)
  }

  function BrokenJob(data: Bytes): Job {
    Job([Action(BrokenInfo(data), false)], map[BROKEN := Object(data, 0, "", false)], map[], false, 0, 1, false, {BROKEN})
  }

  /**
   Move is meant to delete only what was copied, and checks that the destination has the path.  The check does
   not tell a whole copy from a broken one: for any content there is a run of the pool whose one copy breaks,
   is reported, and leaves other bytes under the path, so the path is there and the source file is deleted.
   */
  lemma BrokenCopyPassesMoveCheck(data: Bytes, rest: Bytes) returns (run: seq<Pool>)
    requires rest != data
    ensures IsRun(BrokenJob(data), run) && Final(run[|run| - 1]) && !run[|run| - 1].cancelled
    ensures run[|run| - 1].errors == [BROKEN]
    ensures BROKEN in run[|run| - 1].dst && !HasBytes(run[|run| - 1].dst, BROKEN, data)
  {
    var job := BrokenJob(data);
    var s;
    run, s := CopyBegun(data);
    run, s := Advance(job, run, s, Fail(0, Some(Object(rest, 0, "", false))));
    run, s := Advance(job, run, s, Exit(0));
  }

  const LATER: string := "b"

  function StoppedJob(was: Bytes, now: Bytes): Job {
    Job([Action(BrokenInfo(now), false), Action(FileInfo(LATER, |now|, 0, "", false), true)],
        map[BROKEN := Object(now, 0, "", false), LATER := Object(now, 0, "", false)],
        map[LATER := Object(was, 0, "", false)], false, 1, 1, false, {BROKEN})
  }

  /**
   Nor does it tell a file that was updated from one whose update was dropped when errors stopped the copies.
   Here the first copy fails and reaches the limit; the second is never made and not reported, and the path,
   with its old content, is there.
   */
  lemma DroppedUpdatePassesMoveCheck(was: Bytes, now: Bytes) returns (run: seq<Pool>)
    requires was != now
    ensures IsRun(StoppedJob(was, now), run) && Final(run[|run| - 1]) && !run[|run| - 1].aborted
    ensures run[|run| - 1].errors == [BROKEN]
    ensures HasBytes(run[|run| - 1].dst, LATER, was) && !HasBytes(run[|run| - 1].dst, LATER, now)
  {
    var job := StoppedJob(was, now);
    var s;
    run, s := FirstFailed(was, now);
    run, s := Advance(job, run, s, Cancel(0));
  }

  lemma FirstFailed(was: Bytes, now: Bytes) returns (run: seq<Pool>, s: Pool)
    ensures IsRun(StoppedJob(was, now), run) && run[|run| - 1] == s && Inv(StoppedJob(was, now), s)
    ensures s.dst == StoppedJob(was, now).dst && s.errors == [BROKEN] && !s.aborted
    ensures Enabled(StoppedJob(was, now), s, Cancel(0)) && Final(Apply(StoppedJob(was, now), s, Cancel(0)))
  {
    var job := StoppedJob(was, now);
    run, s := FirstBegun(was, now);
    run, s := Advance(job, run, s, Fail(0, None));
  }

  lemma FirstBegun(was: Bytes, now: Bytes) returns (run: seq<Pool>, s: Pool)
    ensures IsRun(StoppedJob(was, now), run) && run[|run| - 1] == s && Inv(StoppedJob(was, now), s)
    ensures s == Pool(StoppedJob(was, now).dst, 2, 1, true, [Copying(0)], 0, 0, 0, [], false, false, [Pending, Pending], [0, 0])
  {
    run, s := FirstTaken(was, now);
    run, s := Advance(StoppedJob(was, now), run, s, Begin(0));
  }

  lemma FirstTaken(was: Bytes, now: Bytes) returns (run: seq<Pool>, s: Pool)
    ensures IsRun(StoppedJob(was, now), run) && run[|run| - 1] == s && Inv(StoppedJob(was, now), s)
    ensures s == Pool(StoppedJob(was, now).dst, 2, 1, true, [Took(0)], 0, 0, 0, [], false, false, [Pending, Pending], [0, 0])
  {
    var job := StoppedJob(was, now);
    InitialInv(job);
    s := Initial(job);
    run := [s];
    run, s := Advance(job, run, s, Send);
    run, s := Advance(job, run, s, Send);
    run, s := Advance(job, run, s, CloseChannel);
    run, s := Advance(job, run, s, Take(0));
  }

  lemma CopyBegun(data: Bytes) returns (run: seq<Pool>, s: Pool)
    ensures IsRun(BrokenJob(data), run) && run[|run| - 1] == s && Inv(BrokenJob(data), s)
    ensures s == Pool(map[], 1, 1, true, [Copying(0)], 0, 0, 0, [], false, false, [Pending], [0])
  {
    var job := BrokenJob(data);
    InitialInv(job);
    s := Initial(job);
    run := [s];
    run, s := Advance(job, run, s, Send);
    run, s := Advance(job, run, s, CloseChannel);
    run, s := Advance(job, run, s, Take(0));
    run, s := Advance(job, run, s, Begin(0));
  }

  lemma Advance(job: Job, run: seq<Pool>, s: Pool, step: Step) returns (run': seq<Pool>, s': Pool)
    requires IsRun(job, run) && run[|run| - 1] == s && Inv(job, s) && Enabled(job, s, step)
    ensures s' == Apply(job, s, step) && Inv(job, s')
    ensures run' == run + [s'] && IsRun(job, run')
  {
    s' := Apply(job, s, step);
    run' := run + [s'];
    StepKeepsInv(job, s, step);
    ExtendRun(job, run, s, step);
  }

  // ----- what the contract of Sync says about two calls -----

  /** Error-free calls from the same trees end in the same destination, for any schedules and worker counts. */
  lemma SyncDetermined(src: Tree, dst: Tree, opts: Options, workers: int, a: Tree, b: Tree)
    requires Synced(src, dst, opts, a) && Synced(src, dst, opts.(concurrency := workers), b)
    ensures SameBytes(a, b)
  {
    var copies, deletes := CopyPaths(src, dst, opts), DeletePaths(src, dst, opts);
    SameScans(src, opts, opts.(concurrency := workers));
    SameScans(dst, opts, opts.(concurrency := workers));
    SamePlans(ScanOf(src, opts), ScanOf(dst, opts), opts, opts.(concurrency := workers));
    forall p | p in a.Keys + b.Keys
      ensures p in a && p in b && a[p].data == b[p].data && a[p].isDir == b[p].isDir
    {
      if p !in copies + deletes {
        assert Same(a, dst, p) && Same(b, dst, p);
      }
    }
  }

  lemma SameScans(tree: Tree, opts: Options, opts': Options)
    requires opts'.filter == opts.filter && opts'.checksum == opts.checksum
    ensures ScanOf(tree, opts') == ScanOf(tree, opts)
  {
  }

  lemma SamePlans(src: Scan, dst: Scan, opts: Options, opts': Options)
    requires opts' == opts.(dryRun := opts'.dryRun, concurrency := opts'.concurrency)
    ensures CopySet(src, dst, opts') == CopySet(src, dst, opts)
    ensures DeleteSet(src, dst, opts') == DeleteSet(src, dst, opts)
  {
  }

  /** A dry run from the same trees predicts the counters of the real one, whatever the worker counts. */
  lemma DryRunPredicts(src: Tree, dst: Tree, opts: Options, opts': Options)
    requires opts' == opts.(dryRun := opts'.dryRun, concurrency := opts'.concurrency)
    ensures Predicted(src, dst, opts') == Predicted(src, dst, opts)
  {
    SameScans(src, opts, opts');
    SameScans(dst, opts, opts');
    SamePlans(ScanOf(src, opts), ScanOf(dst, opts), opts, opts');
  }

  ghost predicate PathOnly(opts: Options) {
    opts.filter.Some? ==>
      forall p, n1, n2, t1, t2 :: opts.filter.value(p, n1, t1) == opts.filter.value(p, n2, t2)
  }

  /** A path-only filter protects what it rejects: neither copied nor deleted, whatever either side holds. */
  lemma RejectedUntouched(src: Tree, dst: Tree, opts: Options, dst': Tree, p: string)
    requires PathOnly(opts) && opts.filter.Some? && !opts.filter.value(p, 0, 0)
    requires p in dst ==> !dst[p].isDir
    requires Untouched(dst, dst', CopyPaths(src, dst, opts) + DeletePaths(src, dst, opts))
    ensures Same(dst', dst, p)
  {
    var copies, deletes := CopyPaths(src, dst, opts), DeletePaths(src, dst, opts);
    forall n: nat, t: Time
      ensures !opts.filter.value(p, n, t)
    {
      assert opts.filter.value(p, n, t) == opts.filter.value(p, 0, 0);
    }
    assert p !in copies && p !in deletes;
  }
}
