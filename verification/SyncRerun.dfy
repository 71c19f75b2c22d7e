/** What a second synchronization does after an error-free one (object/sync/sync.go, object/sync/options.go). */
module SyncRerun {
  import opened SyncModel
  import opened SyncPlan
  import opened SyncEngine
  import opened SyncMeaning

  /** A file just written still looks outdated, or is not seen by the filter at all. */
  predicate LooksOutdated(src: Tree, dst: Tree, opts: Options, p: string)
    requires p in src && p in dst
  {
    Missing(dst, opts, p) || (!opts.ignoreExisting && Differing(opts, src[p], dst[p]))
  }

  /** The second run deletes nothing, and copies exactly the files the first one wrote that look outdated still. */
  lemma RerunCopies(src: Tree, dst: Tree, opts: Options, dst': Tree)
    requires Synced(src, dst, opts, dst')
    ensures DeletePaths(src, dst', opts) == {}
    ensures forall p :: p in CopyPaths(src, dst', opts) <==>
                        p in CopyPaths(src, dst, opts) && LooksOutdated(src, dst', opts, p)
  {
    var copies, deletes := CopyPaths(src, dst, opts), DeletePaths(src, dst, opts);
    forall p
      ensures p !in DeletePaths(src, dst', opts)
      ensures p in CopyPaths(src, dst', opts) <==> p in copies && LooksOutdated(src, dst', opts, p)
    {
      PlanMeans(src, dst, opts, p);
      PlanMeans(src, dst', opts, p);
      if p !in copies && p !in deletes {
        assert Same(dst', dst, p);
      }
    }
  }

  /** Content is compared by size alone. */
  predicate SizesAlone(opts: Options) {
    opts.sizeOnly || (opts.ignoreTime && !opts.checksum && !opts.ignoreSize)
  }

  /** The filter does not look at modification times. */
  ghost predicate TimelessFilter(opts: Options) {
    opts.filter.Some? ==> forall p, n, t1, t2 :: opts.filter.value(p, n, t1) == opts.filter.value(p, n, t2)
  }

  lemma NothingOutdated(src: Tree, dst: Tree, opts: Options, p: string)
    requires SizesAlone(opts) && TimelessFilter(opts)
    requires Offers(src, opts, p) && HasBytes(dst, p, src[p].data)
    ensures !LooksOutdated(src, dst, opts, p)
  {
    if opts.filter.Some? {
      assert opts.filter.value(p, |src[p].data|, src[p].modTime) == opts.filter.value(p, |src[p].data|, dst[p].modTime);
    }
  }

  /** When sizes alone are compared, a second run has nothing to do. */
  lemma RerunIsQuiet(src: Tree, dst: Tree, opts: Options, dst': Tree)
    requires SizesAlone(opts) && TimelessFilter(opts)
    requires Synced(src, dst, opts, dst')
    ensures CopyPaths(src, dst', opts) == {} && DeletePaths(src, dst', opts) == {}
    ensures Predicted(src, dst', opts) == Counts(0, 0, 0, |SourceFiles(ScanOf(src, opts))|, 0)
  {
    RerunCopies(src, dst, opts, dst');
    forall p | p in CopyPaths(src, dst, opts)
      ensures !LooksOutdated(src, dst', opts, p)
    {
      PlanMeans(src, dst, opts, p);
      NothingOutdated(src, dst', opts, p);
    }
    var none := CopyPaths(src, dst', opts);
    assert none == {} && none - ScanOf(dst', opts).Keys == {} && none * ScanOf(dst', opts).Keys == {};
    assert SourceFiles(ScanOf(src, opts)) - none == SourceFiles(ScanOf(src, opts));
  }

  /**
   IgnoreExisting is documented to skip every file the destination already has.  It does so exactly for the
   files the filter accepts there: one that the filter rejects at the destination, by its size or time, counts
   as missing and is overwritten.
   */
  lemma ExistingOverwritten(src: Tree, dst: Tree, opts: Options, dst': Tree, p: string)
    requires opts.ignoreExisting && !opts.deleteExtra && Synced(src, dst, opts, dst') && p in dst
    ensures Offers(src, opts, p) && Missing(dst, opts, p) ==> HasBytes(dst', p, src[p].data)
    ensures !(Offers(src, opts, p) && Missing(dst, opts, p)) ==> Same(dst', dst, p)
  {
    var copies, deletes := CopyPaths(src, dst, opts), DeletePaths(src, dst, opts);
    assert p !in deletes;
    PlanMeans(src, dst, opts, p);
    assert p in copies <==> Offers(src, opts, p) && Missing(dst, opts, p);
  }
}
