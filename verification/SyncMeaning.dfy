/**
 What a one-way synchronization promises of every path, in terms of the files on both sides and the options alone
 (object/sync/options.go, object/sync/sync.go).  SyncEngine and SyncMove prove that calls without errors keep it.
 */
module SyncMeaning {
  import opened Wrappers
  import opened SyncModel
  import opened SyncPlan

  /** A side offers a file, not a directory, that the filter lets through if there is one. */
  predicate Offers(tree: Tree, opts: Options, p: string) {
    && p in tree && !tree[p].isDir
    && (opts.filter.Some? ==> opts.filter.value(p, |tree[p].data|, tree[p].modTime))
  }

  /** Checksums are asked for, and stored on both sides. */
  predicate BothHashed(opts: Options, a: Object, b: Object) {
    opts.checksum && a.hash != "" && b.hash != ""
  }

  predicate ComparesSizes(opts: Options, a: Object, b: Object) {
    opts.sizeOnly || (!opts.ignoreSize && !BothHashed(opts, a, b))
  }

  predicate ComparesHashes(opts: Options, a: Object, b: Object) {
    !opts.sizeOnly && BothHashed(opts, a, b)
  }

  predicate ComparesTimes(opts: Options, a: Object, b: Object) {
    !opts.sizeOnly && !opts.ignoreTime && !BothHashed(opts, a, b)
  }

  /** The files differ in something that the options compare. */
  predicate Differing(opts: Options, a: Object, b: Object) {
    || (ComparesSizes(opts, a, b) && |a.data| != |b.data|)
    || (ComparesHashes(opts, a, b) && a.hash != b.hash)
    || (ComparesTimes(opts, a, b) && !opts.timeEqual(a.modTime, b.modTime))
  }

  /** The destination has no file that the source file could be compared with. */
  predicate Missing(dst: Tree, opts: Options, p: string) {
    p in dst ==> !dst[p].isDir && !Offers(dst, opts, p)
  }

  /** A file that both sides offer: a difference of each kind brings the source bytes, and nothing else changes it. */
  ghost predicate Compared(src: Tree, dst: Tree, opts: Options, dst': Tree, p: string)
    requires Offers(src, opts, p) && Offers(dst, opts, p)
  {
    var a, b := src[p], dst[p];
    && (ComparesSizes(opts, a, b) ==> p in dst' && |dst'[p].data| == |a.data|)
    && (ComparesSizes(opts, a, b) && |a.data| != |b.data| ==> HasBytes(dst', p, a.data))
    && (ComparesHashes(opts, a, b) ==> if a.hash != b.hash then HasBytes(dst', p, a.data) else Same(dst', dst, p))
    && (ComparesTimes(opts, a, b) && !opts.timeEqual(a.modTime, b.modTime) ==> HasBytes(dst', p, a.data))
    && (!Differing(opts, a, b) ==> Same(dst', dst, p))
  }

  ghost predicate AskedAt(src: Tree, dst: Tree, opts: Options, dst': Tree, p: string) {
    if Offers(src, opts, p) then
      if Missing(dst, opts, p) then HasBytes(dst', p, src[p].data)
      else if dst[p].isDir || opts.ignoreExisting then Same(dst', dst, p)
      else Compared(src, dst, opts, dst', p)
    else if opts.deleteExtra && Offers(dst, opts, p) then p !in dst'
    else Same(dst', dst, p)
  }

  /** The destination is what the options ask for. */
  ghost predicate AsAsked(src: Tree, dst: Tree, opts: Options, dst': Tree) {
    forall p :: AskedAt(src, dst, opts, dst', p)
  }

  /** The files to copy and to delete, in these terms. */
  lemma PlanMeans(src: Tree, dst: Tree, opts: Options, p: string)
    ensures
      var s, d := ScanOf(src, opts), ScanOf(dst, opts);
      && (p in SourceFiles(s) <==> Offers(src, opts, p))
      && (p in CopySet(s, d, opts) <==>
            && Offers(src, opts, p)
            && (Missing(dst, opts, p) || (!opts.ignoreExisting && !dst[p].isDir && Differing(opts, src[p], dst[p]))))
      && (p in DeleteSet(s, d, opts) <==> opts.deleteExtra && Offers(dst, opts, p) && !Offers(src, opts, p))
      && (Offers(src, opts, p) ==> (p !in d <==> Missing(dst, opts, p)))
  {
  }

  /** No filter hides a file and there are no directories. */
  ghost predicate Plain(tree: Tree, opts: Options) {
    opts.filter.None? && forall p | p in tree :: !tree[p].isDir
  }

  /** Without a filter and directories, extra files are deleted and both sides end with the same paths, or else with all. */
  lemma SamePaths(src: Tree, dst: Tree, opts: Options, dst': Tree)
    requires AsAsked(src, dst, opts, dst') && Plain(src, opts) && Plain(dst, opts)
    ensures dst'.Keys == if opts.deleteExtra then src.Keys else src.Keys + dst.Keys
  {
    forall p
      ensures p in dst' <==> p in src || (!opts.deleteExtra && p in dst)
    {
      assert AskedAt(src, dst, opts, dst', p);
    }
  }

  /** Stored hashes come from one function of the bytes that tells any two contents apart. */
  ghost predicate Faithful(hash: Bytes -> string, a: Tree, b: Tree) {
    && (forall x, y :: hash(x) == hash(y) ==> x == y)
    && (forall p | p in a && !a[p].isDir :: a[p].hash == hash(a[p].data) != "")
    && (forall p | p in b && !b[p].isDir :: b[p].hash == hash(b[p].data) != "")
  }

  /** With checksums that tell contents apart every file the source offers ends with the source bytes, whatever the times. */
  lemma HashesDecide(src: Tree, dst: Tree, opts: Options, dst': Tree, hash: Bytes -> string, p: string)
    requires AsAsked(src, dst, opts, dst') && Faithful(hash, src, dst)
    requires opts.checksum && !opts.sizeOnly && !opts.ignoreExisting
    requires Offers(src, opts, p) && (p in dst ==> !dst[p].isDir)
    ensures HasBytes(dst', p, src[p].data)
  {
    assert AskedAt(src, dst, opts, dst', p);
  }

  /** So, without a filter and directories, the destination becomes a mirror of the source. */
  lemma Mirrors(src: Tree, dst: Tree, opts: Options, dst': Tree, hash: Bytes -> string)
    requires AsAsked(src, dst, opts, dst') && Faithful(hash, src, dst)
    requires opts.checksum && !opts.sizeOnly && !opts.ignoreExisting && opts.deleteExtra
    requires Plain(src, opts) && Plain(dst, opts)
    ensures SameBytes(src, dst')
  {
    SamePaths(src, dst, opts, dst');
    forall p | p in src
      ensures HasBytes(dst', p, src[p].data)
    {
      HashesDecide(src, dst, opts, dst', hash, p);
    }
  }

  // ----- the counters -----

  function NewPaths(src: Tree, dst: Tree, opts: Options): set<string> {
    set p | p in src && Offers(src, opts, p) && Missing(dst, opts, p)
  }

  function ChangedPaths(src: Tree, dst: Tree, opts: Options): set<string> {
    set p | p in src && Offers(src, opts, p) && p in dst && Offers(dst, opts, p) && Differing(opts, src[p], dst[p])
  }

  function ExtraPaths(src: Tree, dst: Tree, opts: Options): set<string> {
    set p | p in dst && Offers(dst, opts, p) && !Offers(src, opts, p)
  }

  function OfferedPaths(tree: Tree, opts: Options): set<string> {
    set p | p in tree && Offers(tree, opts, p)
  }

  /** The sets that the counters of a run count, in these terms. */
  lemma CountsMean(src: Tree, dst: Tree, opts: Options)
    ensures
      var s, d := ScanOf(src, opts), ScanOf(dst, opts);
      && SourceFiles(s) == OfferedPaths(src, opts)
      && CopySet(s, d, opts) - d.Keys == NewPaths(src, dst, opts)
      && CopySet(s, d, opts) * d.Keys == (if opts.ignoreExisting then {} else ChangedPaths(src, dst, opts))
      && DeleteSet(s, d, opts) == (if opts.deleteExtra then ExtraPaths(src, dst, opts) else {})
  {
    forall p
      ensures
        var s, d := ScanOf(src, opts), ScanOf(dst, opts);
        && (p in SourceFiles(s) <==> p in OfferedPaths(src, opts))
        && (p in CopySet(s, d, opts) - d.Keys <==> p in NewPaths(src, dst, opts))
        && (p in CopySet(s, d, opts) * d.Keys <==> !opts.ignoreExisting && p in ChangedPaths(src, dst, opts))
        && (p in DeleteSet(s, d, opts) <==> opts.deleteExtra && p in ExtraPaths(src, dst, opts))
    {
      PlanMeans(src, dst, opts, p);
    }
  }
}
