/** One-way synchronization and moves (object/sync/sync.go): scan, plan, worker pool, deletions. */
module SyncEngine {
  import opened Wrappers
  import opened SyncModel
  import opened SyncPlan
  import opened SyncPool
  import opened SyncPoolSafety
  import opened SyncMeaning

  datatype SyncResult = SyncResult(
    copied: nat,
    updated: nat,
    deleted: nat,
    skipped: nat,
    bytes: nat,
    errors: seq<FileError>)

  const DEFAULT_CONCURRENCY := 4

  function Workers(opts: Options): nat {
    if opts.concurrency <= 0 then DEFAULT_CONCURRENCY else opts.concurrency
  }

  function CopyPaths(src: Tree, dst: Tree, opts: Options): set<string> {
    CopySet(ScanOf(src, opts), ScanOf(dst, opts), opts)
  }

  function DeletePaths(src: Tree, dst: Tree, opts: Options): set<string> {
    DeleteSet(ScanOf(src, opts), ScanOf(dst, opts), opts)
  }

  /** The destination an error-free synchronization must end in. */
  ghost predicate Synced(src: Tree, dst: Tree, opts: Options, dst': Tree) {
    && AllCopied(src, dst', CopyPaths(src, dst, opts))
    && AllGone(dst', DeletePaths(src, dst, opts))
    && Untouched(dst, dst', CopyPaths(src, dst, opts) + DeletePaths(src, dst, opts))
  }

  /** Which is the one the options ask for. */
  lemma SyncedAsAsked(src: Tree, dst: Tree, opts: Options, dst': Tree)
    requires Synced(src, dst, opts, dst')
    ensures AsAsked(src, dst, opts, dst')
  {
    forall p
      ensures AskedAt(src, dst, opts, dst', p)
    {
      PlanMeans(src, dst, opts, p);
      assert p !in CopyPaths(src, dst, opts) + DeletePaths(src, dst, opts) ==> Same(dst', dst, p);
    }
  }

  // ----- the counters -----

  datatype Counts = Counts(copied: nat, updated: nat, deleted: nat, skipped: nat, bytes: nat)

  ghost function SumSizes(scan: Scan, paths: set<string>): nat
    requires paths <= scan.Keys
  {
    if paths == {} then 0
    else
      var p :| p in paths;
      scan[p].size + SumSizes(scan, paths - {p})
  }

  lemma {:induction false} SumSizesWith(scan: Scan, paths: set<string>, p: string)
    requires paths <= scan.Keys && p in paths
    ensures SumSizes(scan, paths) == scan[p].size + SumSizes(scan, paths - {p})
    decreases |paths|
  {
    var q :| q in paths && SumSizes(scan, paths) == scan[q].size + SumSizes(scan, paths - {q});
    if p != q {
      SumSizesWith(scan, paths - {q}, p);
      SumSizesWith(scan, paths - {p}, q);
      assert paths - {q} - {p} == paths - {p} - {q};
    }
  }

  lemma SumSizesPlus(scan: Scan, paths: set<string>, p: string)
    requires paths <= scan.Keys && p in scan && p !in paths
    ensures SumSizes(scan, paths + {p}) == SumSizes(scan, paths) + scan[p].size
  {
    SumSizesWith(scan, paths + {p}, p);
    assert paths + {p} - {p} == paths;
  }

  /** The counters as they follow from the two trees. */
  ghost function Predicted(src: Tree, dst: Tree, opts: Options): Counts {
    var s, d := ScanOf(src, opts), ScanOf(dst, opts);
    var copies := CopySet(s, d, opts);
    Counts(|copies - d.Keys|, |copies * d.Keys|, |DeleteSet(s, d, opts)|, |SourceFiles(s) - copies|, SumSizes(s, copies))
  }

  /** What the counters of an error-free run count. */
  lemma PredictedMeans(src: Tree, dst: Tree, opts: Options)
    ensures
      var n := Predicted(src, dst, opts);
      && n.copied == |NewPaths(src, dst, opts)|
      && n.updated == (if opts.ignoreExisting then 0 else |ChangedPaths(src, dst, opts)|)
      && n.deleted == (if opts.deleteExtra then |ExtraPaths(src, dst, opts)| else 0)
      && n.copied + n.updated + n.skipped == |OfferedPaths(src, opts)|
  {
    var s, d := ScanOf(src, opts), ScanOf(dst, opts);
    CountsMean(src, dst, opts);
    ThreeParts(CopySet(s, d, opts), d.Keys, SourceFiles(s));
  }

  lemma ThreeParts(paths: set<string>, keys: set<string>, all: set<string>)
    requires paths <= all
    ensures |paths - keys| + |paths * keys| + |all - paths| == |all|
  {
    assert paths == (paths - keys) + paths * keys;
    assert all == (all - paths) + paths;
  }

  ghost predicate FromScans(src: Scan, dst: Scan, plan: seq<Action>) {
    && DistinctActions(plan)
    && forall i | 0 <= i < |plan| ::
         plan[i].file.path in src && plan[i].file == src[plan[i].file.path] && plan[i].isUpdate == (plan[i].file.path in dst)
  }

  lemma ExpectedStep(plan: seq<Action>, m: Meter)
    requires plan != []
    ensures Expected(plan, m) == Expected(plan[..|plan| - 1], m) + Reading(plan[|plan| - 1], Counted, m)
  {
    assert seq(|plan|, _ => Counted)[..|plan| - 1] == seq(|plan| - 1, _ => Counted);
  }

  lemma LastPath(src: Scan, dst: Scan, plan: seq<Action>)
    requires plan != [] && FromScans(src, dst, plan)
    ensures FromScans(src, dst, plan[..|plan| - 1])
    ensures plan[|plan| - 1].file.path !in PathsOf(plan[..|plan| - 1])
    ensures PathsOf(plan) == PathsOf(plan[..|plan| - 1]) + {plan[|plan| - 1].file.path}
  {
    var n := |plan| - 1;
    assert plan == plan[..n] + [plan[n]];
    AppendPath(plan[..n], plan[n]);
  }

  lemma {:induction false} ExpectedSizes(src: Scan, dst: Scan, plan: seq<Action>)
    requires FromScans(src, dst, plan)
    ensures PathsOf(plan) <= src.Keys
    ensures Expected(plan, BytesMeter) == SumSizes(src, PathsOf(plan))
    decreases |plan|
  {
    if plan != [] {
      var n := |plan| - 1;
      var before, p := PathsOf(plan[..n]), plan[n].file.path;
      LastPath(src, dst, plan);
      ExpectedSizes(src, dst, plan[..n]);
      ExpectedStep(plan, BytesMeter);
      assert Reading(plan[n], Counted, BytesMeter) == src[p].size;
      SumSizesPlus(src, before, p);
    }
  }

  lemma {:induction false} PathCount(src: Scan, dst: Scan, plan: seq<Action>)
    requires FromScans(src, dst, plan)
    ensures |PathsOf(plan)| == |plan|
    decreases |plan|
  {
    if plan != [] {
      LastPath(src, dst, plan);
      PathCount(src, dst, plan[..|plan| - 1]);
    }
  }

  lemma {:induction false} ExpectedNumbers(src: Scan, dst: Scan, plan: seq<Action>)
    requires FromScans(src, dst, plan)
    ensures Expected(plan, CopiedMeter) == |PathsOf(plan) - dst.Keys|
    ensures Expected(plan, UpdatedMeter) == |PathsOf(plan) * dst.Keys|
    decreases |plan|
  {
    if plan != [] {
      var n := |plan| - 1;
      var before, p := PathsOf(plan[..n]), plan[n].file.path;
      LastPath(src, dst, plan);
      ExpectedNumbers(src, dst, plan[..n]);
      ExpectedStep(plan, CopiedMeter);
      ExpectedStep(plan, UpdatedMeter);
      SplitWith(before, p, dst.Keys);
    }
  }

  lemma SplitWith(paths: set<string>, p: string, keys: set<string>)
    requires p !in paths
    ensures |paths + {p} - keys| == |paths - keys| + if p in keys then 0 else 1
    ensures |(paths + {p}) * keys| == |paths * keys| + if p in keys then 1 else 0
  {
    if p in keys {
      assert paths + {p} - keys == paths - keys;
      assert (paths + {p}) * keys == paths * keys + {p};
    } else {
      assert paths + {p} - keys == paths - keys + {p};
      assert (paths + {p}) * keys == paths * keys;
    }
  }

  // ----- the phases -----

  /** Runs the pool under an arbitrary schedule, to the end. */
  method RunPool(job: Job) returns (s: Pool, ghost run: seq<Pool>)
    requires Wellformed(job)
    ensures IsRun(job, run) && run[|run| - 1] == s && Final(s)
  {
    s := Initial(job);
    run := [s];
    InitialInv(job);
    while !Final(s)
      invariant Inv(job, s) && IsRun(job, run) && run[|run| - 1] == s
      decreases StepsLeft(job, s)
    {
      ghost var possible := NeverStuck(job, s);
      var step :| Enabled(job, s, step);
      StepKeepsInv(job, s, step);
      StepsLeftDecrease(job, s, step);
      ExtendRun(job, run, s, step);
      s := Apply(job, s, step);
      run := run + [s];
    }
  }

  lemma ExtendRun(job: Job, run: seq<Pool>, s: Pool, step: Step)
    requires IsRun(job, run) && run[|run| - 1] == s && Shaped(job, s) && Enabled(job, s, step)
    ensures IsRun(job, run + [Apply(job, s, step)])
  {
    var run' := run + [Apply(job, s, step)];
    forall k | 0 <= k < |run'| - 1
      ensures Next(job, run'[k], run'[k + 1])
    {
      if k < |run| - 1 {
        assert Next(job, run[k], run[k + 1]);
      }
    }
  }

  /** Deletes one file; a deletion that may fail may or may not remove it. */
  method Delete(side: Subtree, p: string, mayFail: bool) returns (ok: bool)
    modifies side
    ensures side.files == old(side.files) - {p} || (!ok && side.files == old(side.files))
    ensures !mayFail ==> ok
  {
    ok := *;
    ok := ok || !mayFail;
    var gone: bool := *;
    if ok || gone {
      side.files := side.files - {p};
    }
  }

  function ElementsOf(paths: seq<string>): set<string> {
    set p | p in paths
  }

  // ----- the list of errors -----

  /** How many errors are failed copies. */
  function CopyCount(errors: seq<FileError>): nat {
    if errors == [] then 0
    else CopyCount(errors[..|errors| - 1]) + if errors[|errors| - 1].op == "copy" then 1 else 0
  }

  /** Errors of some kinds, at some paths where operations may fail, were appended. */
  ghost predicate FaultsAdded(before: seq<FileError>, errors: seq<FileError>, ops: set<string>, paths: set<string>, ambient: Ambient) {
    || errors == before
    || (|errors| > |before|
        && FaultsAdded(before, errors[..|errors| - 1], ops, paths, ambient)
        && errors[|errors| - 1].op in ops && errors[|errors| - 1].path in paths && MayFail(ambient, errors[|errors| - 1].path))
  }

  lemma OneFaultAdded(before: seq<FileError>, errors: seq<FileError>, e: FileError, ops: set<string>, paths: set<string>, ambient: Ambient)
    requires FaultsAdded(before, errors, ops, paths, ambient) && |before| <= |errors|
    requires e.op in ops && e.path in paths && MayFail(ambient, e.path)
    ensures FaultsAdded(before, errors + [e], ops, paths, ambient)
  {
    assert (errors + [e])[..|errors|] == errors;
  }

  lemma {:induction false} FaultsAddedMeans(before: seq<FileError>, errors: seq<FileError>, ops: set<string>, paths: set<string>, ambient: Ambient)
    requires FaultsAdded(before, errors, ops, paths, ambient) && "copy" !in ops
    ensures before <= errors && CopyCount(errors) == CopyCount(before)
    ensures forall i | |before| <= i < |errors| :: errors[i].op in ops && errors[i].path in paths && MayFail(ambient, errors[i].path)
    decreases |errors|
  {
    if errors != before {
      var n := |errors| - 1;
      FaultsAddedMeans(before, errors[..n], ops, paths, ambient);
      assert forall i | 0 <= i < n :: errors[i] == errors[..n][i];
    }
  }

  /** Whether failed copies stopped the copying early. */
  predicate LimitReached(opts: Options, errors: seq<FileError>) {
    opts.maxErrors > 0 && CopyCount(errors) >= opts.maxErrors
  }

  /** Failed copies come first, then failed deletions, each of a planned path. */
  ghost predicate ErrorsFit(errors: seq<FileError>, copies: set<string>, deletes: set<string>) {
    forall i | 0 <= i < |errors| ::
      if i < CopyCount(errors) then errors[i].op == "copy" && errors[i].path in copies
      else errors[i].op == "delete" && errors[i].path in deletes
  }

  method DeletePhase(dst: Subtree, toDelete: seq<string>, opts: Options, ambient: Ambient, before: seq<FileError>)
    returns (deleted: nat, errors: seq<FileError>, status: Status)
    requires Distinct(toDelete)
    modifies dst
    ensures deleted <= |toDelete| && DeletesAdded(before, errors, ElementsOf(toDelete), ambient)
    ensures Untouched(old(dst.files), dst.files, ElementsOf(toDelete))
    ensures opts.dryRun ==> dst.files == old(dst.files) && errors == before
    ensures !status.ListingFailed? && (status.Cancelled? ==> ambient.cancels)
    ensures status.Finished? && errors == before ==>
              deleted == |toDelete| && (!opts.dryRun ==> AllGone(dst.files, ElementsOf(toDelete)))
    ensures opts.maxErrors > 0 ==> |errors| <= opts.maxErrors || |errors| <= |before| + 1
  {
    deleted, errors, status := 0, before, Finished;
    ghost var paths := ElementsOf(toDelete);
    for i := 0 to |toDelete|
      invariant deleted <= i && |before| <= |errors| && FaultsAdded(before, errors, {"delete"}, paths, ambient)
      invariant forall p | p !in toDelete :: Same(dst.files, old(dst.files), p)
      invariant opts.dryRun ==> dst.files == old(dst.files) && errors == before
      invariant |errors| == |before| ==> deleted == i && (!opts.dryRun ==> forall k | 0 <= k < i :: toDelete[k] !in dst.files)
      invariant opts.maxErrors > 0 ==> |errors| < opts.maxErrors || |errors| == |before|
    {
      var cancelled: bool := *;
      if cancelled && ambient.cancels {
        status := Cancelled;
        break;
      }
      if !opts.dryRun {
        var ok := Delete(dst, toDelete[i], toDelete[i] in ambient.broken || ambient.cancels);
        if !ok {
          OneFaultAdded(before, errors, FileError(toDelete[i], "delete"), {"delete"}, paths, ambient);
          errors := errors + [FileError(toDelete[i], "delete")];
          if opts.maxErrors > 0 && |errors| >= opts.maxErrors {
            break;
          }
          continue;
        }
      }
      deleted := deleted + 1;
    }
    FaultsAddedMeans(before, errors, {"delete"}, paths, ambient);
  }

  function CopyErrors(paths: seq<string>): (errors: seq<FileError>)
    ensures |errors| == |paths|
    ensures forall i | 0 <= i < |paths| :: errors[i] == FileError(paths[i], "copy")
  {
    seq(|paths|, i requires 0 <= i < |paths| => FileError(paths[i], "copy"))
  }

  lemma {:induction false} CopyErrorsCount(errors: seq<FileError>)
    requires forall i | 0 <= i < |errors| :: errors[i].op == "copy"
    ensures CopyCount(errors) == |errors|
    decreases |errors|
  {
    if errors != [] {
      CopyErrorsCount(errors[..|errors| - 1]);
    }
  }

  /** What holds at a planned path after the copy phase even if there were errors. */
  ghost predicate CopyEffect(src: Tree, dst: Tree, dst': Tree, errors: seq<FileError>, p: string) {
    || (p in src && HasBytes(dst', p, src[p].data))
    || FileError(p, "copy") in errors
    || Same(dst', dst, p)
  }

  ghost predicate Untouched(dst: Tree, dst': Tree, except: set<string>) {
    forall p | p !in except :: Same(dst', dst, p)
  }

  ghost predicate CopyEffects(src: Tree, dst: Tree, dst': Tree, errors: seq<FileError>, paths: set<string>) {
    forall p | p in paths :: CopyEffect(src, dst, dst', errors, p)
  }

  /** Every path holds the source bytes or is reported. */
  ghost predicate AllAttempted(src: Tree, dst': Tree, errors: seq<FileError>, paths: set<string>) {
    forall p | p in paths :: p in src && (HasBytes(dst', p, src[p].data) || FileError(p, "copy") in errors)
  }

  ghost predicate AllCopied(src: Tree, dst': Tree, paths: set<string>) {
    forall p | p in paths :: p in src && HasBytes(dst', p, src[p].data)
  }

  ghost predicate AllGone(dst': Tree, paths: set<string>) {
    forall p | p in paths :: p !in dst'
  }

  /** The job a plan makes for the pool. */
  function JobOf(plan: seq<Action>, src: Tree, dst: Tree, opts: Options, ambient: Ambient): Job {
    Job(plan, src, dst, opts.dryRun, opts.maxErrors, Workers(opts), ambient.cancels, ambient.broken)
  }

  /** What the copy phase leaves behind, in terms of the two trees. */
  lemma AfterCopyPhase(src: Tree, dst: Tree, opts: Options, ambient: Ambient, plan: Plan, s: Pool)
    requires IsPlan(ScanOf(src, opts), ScanOf(dst, opts), opts, plan)
    requires Inv(JobOf(plan.toCopy, src, dst, opts, ambient), s) && Final(s)
    ensures opts.dryRun ==> s.dst == dst && s.errors == []
    ensures Untouched(dst, s.dst, CopyPaths(src, dst, opts))
    ensures CopyEffects(src, dst, s.dst, CopyErrors(s.errors), CopyPaths(src, dst, opts))
    ensures !s.cancelled && !opts.dryRun ==> AllAttempted(src, s.dst, CopyErrors(s.errors), CopyPaths(src, dst, opts))
  {
    var job := JobOf(plan.toCopy, src, dst, opts, ambient);
    if !s.cancelled {
      AllSettled(job, s);
    }
    forall p | p in CopyPaths(src, dst, opts)
      ensures CopyEffect(src, dst, s.dst, CopyErrors(s.errors), p)
      ensures !s.cancelled && !opts.dryRun ==>
                p in src && (HasBytes(s.dst, p, src[p].data) || FileError(p, "copy") in CopyErrors(s.errors))
    {
      var i :| 0 <= i < |plan.toCopy| && plan.toCopy[i].file.path == p;
      assert PathAt(job, i) == p;
      assert opts.dryRun || PathOk(job, s, i);
      if s.outcomes[i].Failed? {
        var k :| 0 <= k < |s.errors| && s.errors[k] == p;
        assert CopyErrors(s.errors)[k] == FileError(p, "copy");
      }
    }
  }

  lemma CountsOfErrorFree(src: Tree, dst: Tree, opts: Options, ambient: Ambient, plan: Plan, s: Pool)
    requires IsPlan(ScanOf(src, opts), ScanOf(dst, opts), opts, plan)
    requires Inv(JobOf(plan.toCopy, src, dst, opts, ambient), s) && Final(s) && !s.cancelled && s.errors == []
    ensures Counts(s.copied, s.updated, |plan.toDelete|, plan.skipped, s.bytes) == Predicted(src, dst, opts)
  {
    ErrorFreePool(JobOf(plan.toCopy, src, dst, opts, ambient), s);
    CountsOfPlan(ScanOf(src, opts), ScanOf(dst, opts), opts, plan);
  }

  lemma CountsOfPlan(src: Scan, dst: Scan, opts: Options, plan: Plan)
    requires IsPlan(src, dst, opts, plan)
    ensures Expected(plan.toCopy, CopiedMeter) == |CopySet(src, dst, opts) - dst.Keys|
    ensures Expected(plan.toCopy, UpdatedMeter) == |CopySet(src, dst, opts) * dst.Keys|
    ensures Expected(plan.toCopy, BytesMeter) == SumSizes(src, CopySet(src, dst, opts))
    ensures |plan.toDelete| == |DeleteSet(src, dst, opts)|
    ensures plan.skipped == |SourceFiles(src) - CopySet(src, dst, opts)|
  {
    ExpectedNumbers(src, dst, plan.toCopy);
    ExpectedSizes(src, dst, plan.toCopy);
    PathCount(src, dst, plan.toCopy);
    DistinctCount(plan.toDelete, DeleteSet(src, dst, opts));
    PartSize(CopySet(src, dst, opts), SourceFiles(src));
  }

  lemma {:induction false} DistinctCount(paths: seq<string>, elements: set<string>)
    requires Distinct(paths) && forall p :: p in paths <==> p in elements
    ensures |paths| == |elements|
    decreases |paths|
  {
    if paths == [] {
      assert elements == {};
    } else {
      var n := |paths| - 1;
      assert paths == paths[..n] + [paths[n]];
      DistinctCount(paths[..n], elements - {paths[n]});
    }
  }

  /** The planned paths that hold the source bytes. */
  function Holding(src: Tree, dst': Tree, paths: set<string>): set<string> {
    set p | p in paths && p in src && p in dst' && dst'[p].data == src[p].data && !dst'[p].isDir
  }

  /** What the copy phase guarantees of the trees, the errors and the counters, from the pool state it ends in. */
  ghost predicate CopyOutcome(src: Tree, dst: Tree, dst': Tree, opts: Options, ambient: Ambient, plan: Plan, s: Pool) {
    && CopyTrees(src, dst, dst', opts, s)
    && CopyFaults(src, dst, opts, ambient, s)
    && CopyCounts(src, dst, opts, plan, s)
  }

  ghost predicate CopyTrees(src: Tree, dst: Tree, dst': Tree, opts: Options, s: Pool) {
    var copies := CopyPaths(src, dst, opts);
    && (opts.dryRun ==> dst' == dst && s.errors == [])
    && Untouched(dst, dst', copies)
    && CopyEffects(src, dst, dst', CopyErrors(s.errors), copies)
    && (!opts.dryRun ==> s.copied + s.updated <= |Holding(src, dst', copies)|)
    && (!s.cancelled && !opts.dryRun ==> AllAttempted(src, dst', CopyErrors(s.errors), copies))
  }

  ghost predicate CopyFaults(src: Tree, dst: Tree, opts: Options, ambient: Ambient, s: Pool) {
    && (s.aborted ==> s.cancelled && ambient.cancels)
    && (!s.aborted ==> (s.cancelled <==> opts.maxErrors > 0 && |s.errors| >= opts.maxErrors))
    && (forall i | 0 <= i < |s.errors| ::
          && s.errors[i] in CopyPaths(src, dst, opts)
          && (MayFail(ambient, s.errors[i]) || (opts.maxErrors > 0 && i >= opts.maxErrors)))
    && (opts.maxErrors > 0 ==> |s.errors| <= opts.maxErrors - 1 + Workers(opts))
  }

  ghost predicate CopyCounts(src: Tree, dst: Tree, opts: Options, plan: Plan, s: Pool) {
    && plan.skipped == |SourceFiles(ScanOf(src, opts)) - CopyPaths(src, dst, opts)|
    && (!s.cancelled ==> s.copied + s.updated + plan.skipped + |s.errors| == |SourceFiles(ScanOf(src, opts))|)
    && (!s.cancelled && s.errors == [] ==>
          Counts(s.copied, s.updated, |plan.toDelete|, plan.skipped, s.bytes) == Predicted(src, dst, opts))
  }

  /** Copies run on the pool; the state it ends in carries the counters. */
  method CopyPhase(src: Subtree, dst: Subtree, plan: Plan, opts: Options, ambient: Ambient) returns (s: Pool)
    requires src != dst && IsPlan(ScanOf(src.files, opts), ScanOf(dst.files, opts), opts, plan)
    modifies dst
    ensures CopyOutcome(src.files, old(dst.files), dst.files, opts, ambient, plan, s)
  {
    var job := JobOf(plan.toCopy, src.files, dst.files, opts, ambient);
    ghost var run;
    s, run := RunPool(job);
    RunKeepsInv(job, run);
    PoolTrees(src.files, dst.files, opts, ambient, plan, s);
    PoolFaults(src.files, dst.files, opts, ambient, plan, s);
    PoolCounts(src.files, dst.files, opts, ambient, plan, s);
    dst.files := s.dst;
  }

  lemma PoolTrees(src: Tree, dst: Tree, opts: Options, ambient: Ambient, plan: Plan, s: Pool)
    requires IsPlan(ScanOf(src, opts), ScanOf(dst, opts), opts, plan)
    requires Inv(JobOf(plan.toCopy, src, dst, opts, ambient), s) && Final(s)
    ensures CopyTrees(src, dst, s.dst, opts, s)
  {
    AfterCopyPhase(src, dst, opts, ambient, plan, s);
    Landings(JobOf(plan.toCopy, src, dst, opts, ambient), s, CopyPaths(src, dst, opts));
  }

  lemma PoolFaults(src: Tree, dst: Tree, opts: Options, ambient: Ambient, plan: Plan, s: Pool)
    requires IsPlan(ScanOf(src, opts), ScanOf(dst, opts), opts, plan)
    requires Inv(JobOf(plan.toCopy, src, dst, opts, ambient), s) && Final(s)
    ensures CopyFaults(src, dst, opts, ambient, s)
  {
    var job := JobOf(plan.toCopy, src, dst, opts, ambient);
    CancelledExactly(job, s);
    if opts.maxErrors > 0 {
      ErrorBound(job, s);
    }
  }

  lemma PoolCounts(src: Tree, dst: Tree, opts: Options, ambient: Ambient, plan: Plan, s: Pool)
    requires IsPlan(ScanOf(src, opts), ScanOf(dst, opts), opts, plan)
    requires Inv(JobOf(plan.toCopy, src, dst, opts, ambient), s) && Final(s)
    ensures CopyCounts(src, dst, opts, plan, s)
  {
    SkippedFiles(src, dst, opts, plan);
    if !s.cancelled {
      Accounting(JobOf(plan.toCopy, src, dst, opts, ambient), s);
      if s.errors == [] {
        CountsOfErrorFree(src, dst, opts, ambient, plan, s);
      }
    }
  }

  /** No more is counted than has landed. */
  lemma Landings(job: Job, s: Pool, paths: set<string>)
    requires Inv(job, s) && PathsOf(job.plan) == paths
    ensures !job.dryRun ==> s.copied + s.updated <= |Holding(job.src, s.dst, paths)|
  {
    var counted := CountedPaths(job, s);
    if !job.dryRun {
      assert counted <= Holding(job.src, s.dst, paths);
      PartSize(counted, Holding(job.src, s.dst, paths));
    }
  }

  /**
   What every run of Sync guarantees: no path outside the plan changes; every planned path holds the source
   bytes, is as it was, or is reported; errors are of planned paths; and no more is counted than has landed.
   */
  ghost predicate SafeOutcome(src: Tree, dst: Tree, dst': Tree, opts: Options, r: SyncResult) {
    var copies, deletes := CopyPaths(src, dst, opts), DeletePaths(src, dst, opts);
    && (opts.dryRun ==> dst' == dst && r.errors == [])
    && Untouched(dst, dst', copies + deletes)
    && CopyEffects(src, dst, dst', r.errors, copies)
    && ErrorsFit(r.errors, copies, deletes)
    && (!opts.dryRun ==> r.copied + r.updated <= |Holding(src, dst', copies)|)
  }

  /**
   Every error is of a path that is broken, or the caller may cancel, except for the failed copies beyond the limit:
   those may have been cut short because the limit was reached.
   */
  ghost predicate ErrorsCaused(opts: Options, ambient: Ambient, errors: seq<FileError>) {
    forall i | 0 <= i < |errors| ::
      MayFail(ambient, errors[i].path) || (0 < opts.maxErrors <= i < CopyCount(errors))
  }

  /**
   What a run that returns normally guarantees.  Unless failed copies reach the limit, every planned path holds
   the source bytes or is reported, and every source file is accounted for.  Without errors the trees determine
   the destination and the counters.
   */
  ghost predicate FullOutcome(src: Tree, dst: Tree, dst': Tree, opts: Options, r: SyncResult) {
    && (!LimitReached(opts, r.errors) ==>
          && (!opts.dryRun ==> AllAttempted(src, dst', r.errors, CopyPaths(src, dst, opts)))
          && r.copied + r.updated + r.skipped + CopyCount(r.errors) == |SourceFiles(ScanOf(src, opts))|)
    && (r.errors == [] ==>
          && Counts(r.copied, r.updated, r.deleted, r.skipped, r.bytes) == Predicted(src, dst, opts)
          && (!opts.dryRun ==> Synced(src, dst, opts, dst')))
  }

  predicate ErrorsBounded(opts: Options, errors: seq<FileError>) {
    opts.maxErrors > 0 ==>
      CopyCount(errors) <= opts.maxErrors - 1 + Workers(opts) && |errors| <= opts.maxErrors + Workers(opts)
  }

  /**
   Sync.  The source is never changed.  A run in which nothing goes wrong returns normally and without errors, and
   so ends in the one destination that the two trees determine.
   */
  method Sync(src: Subtree, dst: Subtree, opts: Options, ambient: Ambient) returns (r: SyncResult, status: Status)
    requires src != dst
    modifies dst
    ensures status.ListingFailed? ==> !ambient.lists && dst.files == old(dst.files) && r.errors == []
    ensures status.Cancelled? ==> ambient.cancels
    ensures SafeOutcome(src.files, old(dst.files), dst.files, opts, r)
    ensures ErrorsCaused(opts, ambient, r.errors) && ErrorsBounded(opts, r.errors)
    ensures status.Finished? ==> FullOutcome(src.files, old(dst.files), dst.files, opts, r)
    ensures status.Finished? && r.errors == [] ==> Delivered(src.files, old(dst.files), dst.files, opts, r)
    ensures !status.ListingFailed? ==>
              r.skipped == |SourceFiles(ScanOf(src.files, opts)) - CopyPaths(src.files, old(dst.files), opts)|
  {
    ghost var before := dst.files;
    r := SyncResult(0, 0, 0, 0, 0, []);
    if !ambient.lists {
      var listed: bool := *;
      if !listed {
        return r, ListingFailed;
      }
    }
    var srcFiles := src.ListFiles(opts);
    var dstFiles := dst.ListFiles(opts);
    var plan := MakePlan(srcFiles, dstFiles, opts, ScanOf(src.files, opts), ScanOf(dst.files, opts));
    r, status := RunPlan(src, dst, plan, opts, ambient);
    if status.Finished? && r.errors == [] {
      FullDelivery(src.files, before, dst.files, opts, r);
    }
  }

  /** What a run without errors is for: the destination that the options ask for, and counters that say what was done. */
  ghost predicate Delivered(src: Tree, dst: Tree, dst': Tree, opts: Options, r: SyncResult) {
    && (if opts.dryRun then dst' == dst else AsAsked(src, dst, opts, dst'))
    && Tells(src, dst, opts, r)
  }

  ghost predicate Tells(src: Tree, dst: Tree, opts: Options, r: SyncResult) {
    && r.copied == |NewPaths(src, dst, opts)|
    && r.updated == (if opts.ignoreExisting then 0 else |ChangedPaths(src, dst, opts)|)
    && r.deleted == (if opts.deleteExtra then |ExtraPaths(src, dst, opts)| else 0)
    && r.copied + r.updated + r.skipped == |OfferedPaths(src, opts)|
  }

  lemma FullDelivery(src: Tree, dst: Tree, dst': Tree, opts: Options, r: SyncResult)
    requires FullOutcome(src, dst, dst', opts, r) && r.errors == [] && (opts.dryRun ==> dst' == dst)
    ensures Delivered(src, dst, dst', opts, r)
  {
    PredictedMeans(src, dst, opts);
    if !opts.dryRun {
      SyncedAsAsked(src, dst, opts, dst');
    }
  }

  /** Copies, then deletions. */
  method RunPlan(src: Subtree, dst: Subtree, plan: Plan, opts: Options, ambient: Ambient) returns (r: SyncResult, status: Status)
    requires src != dst && IsPlan(ScanOf(src.files, opts), ScanOf(dst.files, opts), opts, plan)
    modifies dst
    ensures !status.ListingFailed? && (status.Cancelled? ==> ambient.cancels)
    ensures SafeOutcome(src.files, old(dst.files), dst.files, opts, r)
    ensures ErrorsCaused(opts, ambient, r.errors) && ErrorsBounded(opts, r.errors)
    ensures status.Finished? ==> FullOutcome(src.files, old(dst.files), dst.files, opts, r)
    ensures r.skipped == |SourceFiles(ScanOf(src.files, opts)) - CopyPaths(src.files, old(dst.files), opts)|
  {
    ghost var before := dst.files;
    ghost var deletes := DeletePaths(src.files, before, opts);
    assert ElementsOf(plan.toDelete) == deletes;
    var s := CopyPhase(src, dst, plan, opts, ambient);
    ghost var mid := dst.files;
    r := SyncResult(s.copied, s.updated, 0, plan.skipped, s.bytes, CopyErrors(s.errors));
    if s.aborted {
      AbortedCopies(src.files, before, mid, opts, ambient, plan, s);
      return r, Cancelled;
    }
    var deleted, errors;
    deleted, errors, status := DeletePhase(dst, plan.toDelete, opts, ambient, r.errors);
    r := r.(deleted := deleted, errors := errors);
    SafeJoin(src.files, before, mid, dst.files, opts, ambient, plan, s, r);
    CausesJoin(src.files, before, opts, ambient, s, errors);
    if status.Finished? {
      FullJoin(src.files, before, mid, dst.files, opts, ambient, plan, s, r);
    }
  }

  lemma AbortedCopies(src: Tree, dst: Tree, mid: Tree, opts: Options, ambient: Ambient, plan: Plan, s: Pool)
    requires CopyOutcome(src, dst, mid, opts, ambient, plan, s) && s.aborted
    ensures
      var r := SyncResult(s.copied, s.updated, 0, plan.skipped, s.bytes, CopyErrors(s.errors));
      SafeOutcome(src, dst, mid, opts, r) && ErrorsCaused(opts, ambient, r.errors) && ErrorsBounded(opts, r.errors)
  {
    CopyErrorsCount(CopyErrors(s.errors));
    ErrorsJoin(s.errors, CopyErrors(s.errors), CopyPaths(src, dst, opts), DeletePaths(src, dst, opts));
  }

  /** What the deletion phase adds to the errors. */
  ghost predicate DeletesAdded(before: seq<FileError>, errors: seq<FileError>, deletes: set<string>, ambient: Ambient) {
    && before <= errors && CopyCount(errors) == CopyCount(before)
    && forall i | |before| <= i < |errors| ::
         errors[i].op == "delete" && errors[i].path in deletes && MayFail(ambient, errors[i].path)
  }

  lemma SafeJoin(src: Tree, dst: Tree, mid: Tree, dst': Tree, opts: Options, ambient: Ambient, plan: Plan, s: Pool, r: SyncResult)
    requires CopyOutcome(src, dst, mid, opts, ambient, plan, s)
    requires Untouched(mid, dst', DeletePaths(src, dst, opts)) && (opts.dryRun ==> dst' == mid && r.errors == CopyErrors(s.errors))
    requires DeletesAdded(CopyErrors(s.errors), r.errors, DeletePaths(src, dst, opts), ambient)
    requires r.copied == s.copied && r.updated == s.updated
    ensures SafeOutcome(src, dst, dst', opts, r)
  {
    BothPhases(src, dst, mid, dst', opts, CopyErrors(s.errors), r.errors);
    CopyErrorsCount(CopyErrors(s.errors));
    ErrorsJoin(s.errors, r.errors, CopyPaths(src, dst, opts), DeletePaths(src, dst, opts));
  }

  lemma CausesJoin(src: Tree, dst: Tree, opts: Options, ambient: Ambient, s: Pool, errors: seq<FileError>)
    requires CopyFaults(src, dst, opts, ambient, s) && !s.aborted
    requires DeletesAdded(CopyErrors(s.errors), errors, DeletePaths(src, dst, opts), ambient)
    requires opts.maxErrors > 0 ==> |errors| <= opts.maxErrors || |errors| <= |s.errors| + 1
    ensures ErrorsCaused(opts, ambient, errors) && ErrorsBounded(opts, errors)
  {
    CopyErrorsCount(CopyErrors(s.errors));
    forall i | 0 <= i < |errors|
      ensures MayFail(ambient, errors[i].path) || (0 < opts.maxErrors <= i < CopyCount(errors))
    {
      if i < |s.errors| {
        assert errors[i] == CopyErrors(s.errors)[i];
      }
    }
  }

  lemma FullJoin(src: Tree, dst: Tree, mid: Tree, dst': Tree, opts: Options, ambient: Ambient, plan: Plan, s: Pool, r: SyncResult)
    requires CopyOutcome(src, dst, mid, opts, ambient, plan, s) && !s.aborted
    requires Untouched(mid, dst', DeletePaths(src, dst, opts))
    requires DeletesAdded(CopyErrors(s.errors), r.errors, DeletePaths(src, dst, opts), ambient)
    requires r.copied == s.copied && r.updated == s.updated && r.skipped == plan.skipped && r.bytes == s.bytes
    requires r.errors == CopyErrors(s.errors) ==>
               r.deleted == |plan.toDelete| && (!opts.dryRun ==> AllGone(dst', DeletePaths(src, dst, opts)))
    ensures FullOutcome(src, dst, dst', opts, r)
  {
    CopyErrorsCount(CopyErrors(s.errors));
    BothPhases(src, dst, mid, dst', opts, CopyErrors(s.errors), r.errors);
    assert r.errors == [] ==> s.errors == [] && CopyErrors(s.errors) == [];
  }

  lemma SkippedFiles(src: Tree, dst: Tree, opts: Options, plan: Plan)
    requires IsPlan(ScanOf(src, opts), ScanOf(dst, opts), opts, plan)
    ensures plan.skipped == |SourceFiles(ScanOf(src, opts)) - CopyPaths(src, dst, opts)|
  {
    CountsOfPlan(ScanOf(src, opts), ScanOf(dst, opts), opts, plan);
  }

  lemma ErrorsJoin(failed: seq<string>, errors: seq<FileError>, copies: set<string>, deletes: set<string>)
    requires CopyErrors(failed) <= errors && CopyCount(errors) == |failed| && forall p | p in failed :: p in copies
    requires forall i | |failed| <= i < |errors| :: errors[i].op == "delete" && errors[i].path in deletes
    ensures ErrorsFit(errors, copies, deletes)
  {
    forall i | 0 <= i < |failed|
      ensures errors[i] == FileError(failed[i], "copy") && failed[i] in copies
    {
      assert errors[i] == CopyErrors(failed)[i];
    }
  }

  /** The deletions follow the copies and touch none of them. */
  lemma BothPhases(src: Tree, dst: Tree, dst1: Tree, dst2: Tree, opts: Options, errors1: seq<FileError>, errors2: seq<FileError>)
    requires Untouched(dst, dst1, CopyPaths(src, dst, opts))
    requires CopyEffects(src, dst, dst1, errors1, CopyPaths(src, dst, opts))
    requires Untouched(dst1, dst2, DeletePaths(src, dst, opts)) && errors1 <= errors2
    ensures Untouched(dst, dst2, CopyPaths(src, dst, opts) + DeletePaths(src, dst, opts))
    ensures CopyEffects(src, dst, dst2, errors2, CopyPaths(src, dst, opts))
    ensures AllAttempted(src, dst1, errors1, CopyPaths(src, dst, opts)) ==>
              AllAttempted(src, dst2, errors2, CopyPaths(src, dst, opts))
    ensures Holding(src, dst2, CopyPaths(src, dst, opts)) == Holding(src, dst1, CopyPaths(src, dst, opts))
  {
    var copies, deletes := CopyPaths(src, dst, opts), DeletePaths(src, dst, opts);
    forall p | p in copies
      ensures p !in deletes && Same(dst2, dst1, p)
    {
    }
    forall p | p in copies
      ensures CopyEffect(src, dst, dst2, errors2, p)
      ensures FileError(p, "copy") in errors1 ==> FileError(p, "copy") in errors2
    {
      assert CopyEffect(src, dst, dst1, errors1, p);
      if FileError(p, "copy") in errors1 {
        var k :| 0 <= k < |errors1| && errors1[k] == FileError(p, "copy");
        assert errors2[k] == errors1[k];
      }
    }
  }
}
