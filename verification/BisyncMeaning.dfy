/**
 What a bidirectional synchronization promises of every path, in terms of the initial files and the options alone
 (object/sync/bisync.go).
 */
module BisyncMeaning {
  import opened Wrappers
  import opened SyncModel
  import opened BisyncModel
  import opened BisyncCounts
  import opened BisyncSafety

  /** A file, not a directory, that the filter lets through if there is one. */
  predicate Offers(o: BisyncOptions, tree: Tree, p: string) {
    && p in tree && !tree[p].isDir
    && (o.filter.Some? ==> o.filter.value(p, |tree[p].data|, tree[p].modTime))
  }

  /** Stored checksums decide if they are asked for and both there, and else size and time do. */
  predicate Differing(o: BisyncOptions, a: Object, b: Object) {
    if o.checksum && a.hash != "" && b.hash != "" then a.hash != b.hash
    else |a.data| != |b.data| || !o.timeEqual(a.modTime, b.modTime) || !o.timeEqual(b.modTime, a.modTime)
  }

  predicate OnlyOne(o: BisyncOptions, s: Sides, p: string) {
    Offers(o, s.one, p) && !Offers(o, s.two, p)
  }

  predicate OnlyTwo(o: BisyncOptions, s: Sides, p: string) {
    Offers(o, s.two, p) && !Offers(o, s.one, p)
  }

  predicate Clash(o: BisyncOptions, s: Sides, p: string) {
    Offers(o, s.one, p) && Offers(o, s.two, p) && Differing(o, s.one[p], s.two[p])
  }

  function SavedUnder(o: BisyncOptions, p: string): string {
    p + if o.conflictSuffix == "" then ".conflict" else o.conflictSuffix
  }

  ghost predicate BothHold(s: Sides, p: string, data: Bytes) {
    HasBytes(s.one, p, data) && HasBytes(s.two, p, data)
  }

  ghost predicate Still(s: Sides, s': Sides, p: string) {
    Same(s'.one, s.one, p) && Same(s'.two, s.two, p)
  }

  /** What becomes of a file that differs on the two sides, `a` on side one and `b` on side two. */
  ghost predicate Resolved(o: BisyncOptions, s: Sides, s': Sides, p: string, a: Object, b: Object) {
    match o.strategy
    case NewerWins => BothHold(s', p, if a.modTime > b.modTime then a.data else b.data)
    case LargerWins => BothHold(s', p, if |a.data| > |b.data| then a.data else b.data)
    case SourceWins => Same(s'.one, s.one, p) && HasBytes(s'.two, p, a.data)
    case DestWins => Same(s'.two, s.two, p) && HasBytes(s'.one, p, b.data)
    case KeepBoth =>
      && BothHold(s', p, if a.modTime >= b.modTime then a.data else b.data)
      && BothHold(s', SavedUnder(o, p), if a.modTime >= b.modTime then b.data else a.data)
    case Skip => Still(s, s', p)
    case Report => Still(s, s', p)
    case Unknown => Still(s, s', p)
  }

  ghost predicate SettledAt(o: BisyncOptions, s: Sides, s': Sides, p: string) {
    if Clash(o, s, p) then Resolved(o, s, s', p, s.one[p], s.two[p])
    else if OnlyOne(o, s, p) then Same(s'.one, s.one, p) && HasBytes(s'.two, p, s.one[p].data)
    else if OnlyTwo(o, s, p) then Same(s'.two, s.two, p) && HasBytes(s'.one, p, s.two[p].data)
    else !IsSavedPath(o, s, p) ==> Still(s, s', p)
  }

  /** A path that the older version of some file is saved under. */
  ghost predicate IsSavedPath(o: BisyncOptions, s: Sides, p: string) {
    o.strategy.KeepBoth? && exists q :: Clash(o, s, q) && p == SavedUnder(o, q)
  }

  /** The sides are what the strategy asks for. */
  ghost predicate Settled(o: BisyncOptions, s: Sides, s': Sides) {
    forall p :: SettledAt(o, s, s', p)
  }

  /** At any moment of a run, whatever fails: what a file must keep on the side it is taken from, and who is left alone. */
  ghost predicate GuardedAt(o: BisyncOptions, s: Sides, m: Sides, p: string) {
    && (OnlyOne(o, s, p) ==> Same(m.one, s.one, p))
    && (OnlyTwo(o, s, p) ==> Same(m.two, s.two, p))
    && (o.strategy.SourceWins? && Offers(o, s.one, p) ==> Same(m.one, s.one, p))
    && (o.strategy.DestWins? && Offers(o, s.two, p) ==> Same(m.two, s.two, p))
    && (Clash(o, s, p) ==> GuardedInClash(o, s, m, p, s.one[p], s.two[p]))
    && (!Clash(o, s, p) && !OnlyOne(o, s, p) && !OnlyTwo(o, s, p) && !IsSavedPath(o, s, p) ==> Still(s, m, p))
  }

  ghost predicate GuardedInClash(o: BisyncOptions, s: Sides, m: Sides, p: string, a: Object, b: Object) {
    match o.strategy
    case NewerWins => if a.modTime > b.modTime then Same(m.one, s.one, p) else Same(m.two, s.two, p)
    case LargerWins => if |a.data| > |b.data| then Same(m.one, s.one, p) else Same(m.two, s.two, p)
    case SourceWins => Same(m.one, s.one, p)
    case DestWins => Same(m.two, s.two, p)
    case KeepBoth =>
      if a.modTime >= b.modTime then
        Same(m.one, s.one, p) && (HasBytes(m.two, p, b.data) || HasBytes(m.two, SavedUnder(o, p), b.data))
      else Same(m.two, s.two, p) && (HasBytes(m.one, p, a.data) || HasBytes(m.one, SavedUnder(o, p), a.data))
    case Skip => Still(s, m, p)
    case Report => Still(s, m, p)
    case Unknown => Still(s, m, p)
  }

  ghost predicate Guarded(o: BisyncOptions, s: Sides, m: Sides) {
    forall p :: GuardedAt(o, s, m, p)
  }

  /** The actions, in these terms. */
  lemma ActionsMean(o: BisyncOptions, s: Sides, p: string)
    ensures Conflicts(o, s, p) <==> Clash(o, s, p)
    ensures (Acts(o, s, p) && ActionFor(o, s, p).value.ToPath2?) <==> OnlyOne(o, s, p)
    ensures (Acts(o, s, p) && ActionFor(o, s, p).value.ToPath1?) <==> OnlyTwo(o, s, p)
    ensures Seen(o, s.one, p) <==> Offers(o, s.one, p)
    ensures Seen(o, s.two, p) <==> Offers(o, s.two, p)
    ensures ConflictPath(o, p) == SavedUnder(o, p)
    ensures Clash(o, s, p) ==>
              var a := ActionFor(o, s, p).value;
              && a.file.path == p && a.file.size == |s.one[p].data| && a.file.modTime == s.one[p].modTime
              && a.other.path == p && a.other.size == |s.two[p].data| && a.other.modTime == s.two[p].modTime
  {
  }

  /** The version that KeepBoth puts aside is the older one, and on equal times that of side two. */
  lemma LoserIsOlder(o: BisyncOptions, s: Sides, p: string)
    requires o.strategy.KeepBoth? && Conflicts(o, s, p)
    ensures Clash(o, s, p)
    ensures FromOne(o, s, p) <==> s.one[p].modTime >= s.two[p].modTime
    ensures LoserBytes(o, s, p) == if s.one[p].modTime >= s.two[p].modTime then s.two[p].data else s.one[p].data
  {
    ActionsMean(o, s, p);
  }

  lemma SavedPathsMean(o: BisyncOptions, s: Sides, p: string)
    ensures IsSave(o, s, p) <==> IsSavedPath(o, s, p)
  {
    if IsSave(o, s, p) {
      var q := p[..|p| - |Suffix(o)|];
      ActionsMean(o, s, q);
      assert Clash(o, s, q) && p == SavedUnder(o, q);
    }
    if IsSavedPath(o, s, p) {
      var q :| Clash(o, s, q) && p == SavedUnder(o, q);
      ActionsMean(o, s, q);
      SavedBy(o, s, p, q);
    }
  }

  /** No path that a version is saved under is to be copied or resolved itself. */
  lemma ApartMeans(o: BisyncOptions, s: Sides)
    ensures Apart(o, s) <==>
            (o.strategy.KeepBoth? ==> forall q | Clash(o, s, q) ::
               var p := SavedUnder(o, q);
               !Clash(o, s, p) && !OnlyOne(o, s, p) && !OnlyTwo(o, s, p))
  {
    if Apart(o, s) && o.strategy.KeepBoth? {
      forall q | Clash(o, s, q)
        ensures !Acts(o, s, SavedUnder(o, q))
        ensures !Clash(o, s, SavedUnder(o, q)) && !OnlyOne(o, s, SavedUnder(o, q)) && !OnlyTwo(o, s, SavedUnder(o, q))
      {
        SavedPathsMean(o, s, SavedUnder(o, q));
        ActionsMean(o, s, SavedUnder(o, q));
      }
    }
    if !Apart(o, s) {
      var p :| IsSave(o, s, p) && Acts(o, s, p);
      SavedPathsMean(o, s, p);
      ActionsMean(o, s, p);
      var q :| Clash(o, s, q) && p == SavedUnder(o, q);
    }
  }

  lemma SafeMeans(o: BisyncOptions, s: Sides, m: Sides)
    requires Apart(o, s) && Safe(o, s, m)
    ensures Guarded(o, s, m)
  {
    forall p
      ensures GuardedAt(o, s, m, p)
    {
      ActionsMean(o, s, p);
      SavedPathsMean(o, s, p);
      assert WantOne(o, s, p).Unchanged? ==> Same(m.one, s.one, p);
      assert WantTwo(o, s, p).Unchanged? ==> Same(m.two, s.two, p);
      if o.strategy.KeepBoth? && Conflicts(o, s, p) {
        assert LoserKept(o, s, m, p);
      }
    }
  }

  lemma MergedMeans(o: BisyncOptions, s: Sides, s': Sides)
    requires Apart(o, s) && Merged(o, s, s')
    ensures Settled(o, s, s')
  {
    forall p
      ensures SettledAt(o, s, s', p)
    {
      ActionsMean(o, s, p);
      SavedPathsMean(o, s, p);
      MergedAt(o, s, s', p);
    }
  }

  lemma MergedAt(o: BisyncOptions, s: Sides, s': Sides, p: string)
    requires Apart(o, s) && Merged(o, s, s')
    ensures Meets(WantOne(o, s, p), s.one, s'.one, p) && Meets(WantTwo(o, s, p), s.two, s'.two, p)
    ensures o.strategy.KeepBoth? && Conflicts(o, s, p) ==>
              HasBytes(s'.one, ConflictPath(o, p), LoserBytes(o, s, p)) && HasBytes(s'.two, ConflictPath(o, p), LoserBytes(o, s, p))
  {
    if o.strategy.KeepBoth? && Conflicts(o, s, p) {
      var saved := ConflictPath(o, p);
      SavedBy(o, s, saved, p);
      assert Meets(WantOne(o, s, saved), s.one, s'.one, saved) && Meets(WantTwo(o, s, saved), s.two, s'.two, saved);
    }
  }

  /** A single action that has landed has settled its path, whatever became of the others. */
  lemma LandedMeans(o: BisyncOptions, s: Sides, m: Sides, p: string)
    requires Apart(o, s) && Safe(o, s, m) && Acts(o, s, p) && Landed(o, s, m, p)
    ensures SettledAt(o, s, m, p)
  {
    ActionsMean(o, s, p);
    assert WantOne(o, s, p).Unchanged? ==> Same(m.one, s.one, p);
    assert WantTwo(o, s, p).Unchanged? ==> Same(m.two, s.two, p);
    if o.strategy.KeepBoth? && Conflicts(o, s, p) {
      assert HasBytes(m.one, SavedUnder(o, p), LoserBytes(o, s, p)) && HasBytes(m.two, SavedUnder(o, p), LoserBytes(o, s, p));
      KeeperSame(o, s, m, p);
    }
  }

  lemma KeeperSame(o: BisyncOptions, s: Sides, m: Sides, p: string)
    requires o.strategy.KeepBoth? && Conflicts(o, s, p) && Apart(o, s) && Intact(o, s, m)
    ensures if FromOne(o, s, p) then Same(m.one, s.one, p) else Same(m.two, s.two, p)
  {
    assert Acts(o, s, p) && !IsSave(o, s, p);
  }

  // ----- the counters -----

  /** Resolving the conflict at `p` writes to side one, with the bytes of side two or to save a version there. */
  predicate WritesOne(o: BisyncOptions, s: Sides, p: string) {
    && Clash(o, s, p)
    && match o.strategy
       case NewerWins => s.one[p].modTime <= s.two[p].modTime
       case LargerWins => |s.one[p].data| <= |s.two[p].data|
       case DestWins => true
       case KeepBoth => true
       case _ => false
  }

  predicate WritesTwo(o: BisyncOptions, s: Sides, p: string) {
    && Clash(o, s, p)
    && match o.strategy
       case NewerWins => s.one[p].modTime > s.two[p].modTime
       case LargerWins => |s.one[p].data| > |s.two[p].data|
       case SourceWins => true
       case KeepBoth => true
       case _ => false
  }

  /** What a path adds to each counter. */
  lemma WeightsMean(o: BisyncOptions, s: Sides, p: string)
    ensures Weight(o, s, p, CopiedTo2) == if OnlyOne(o, s, p) then 1 else 0
    ensures Weight(o, s, p, CopiedTo1) == if OnlyTwo(o, s, p) then 1 else 0
    ensures Weight(o, s, p, UpdatedIn2) == if !o.dryRun && WritesTwo(o, s, p) then 1 else 0
    ensures Weight(o, s, p, UpdatedIn1) == if !o.dryRun && WritesOne(o, s, p) then 1 else 0
    ensures Weight(o, s, p, Transferred) ==
            (if OnlyOne(o, s, p) || (!o.dryRun && WritesTwo(o, s, p)) then |s.one[p].data| else 0) +
            (if OnlyTwo(o, s, p) || (!o.dryRun && WritesOne(o, s, p)) then |s.two[p].data| else 0)
  {
    ActionsMean(o, s, p);
  }

  /** What is counted as updated on a side is what changes there. */
  lemma UpdatesAreWrites(o: BisyncOptions, s: Sides, s': Sides, p: string)
    requires Clash(o, s, p) && Settled(o, s, s')
    ensures WritesOne(o, s, p) && !o.strategy.KeepBoth? ==> HasBytes(s'.one, p, s.two[p].data)
    ensures WritesTwo(o, s, p) && !o.strategy.KeepBoth? ==> HasBytes(s'.two, p, s.one[p].data)
    ensures o.strategy.KeepBoth? ==> forall data | data == s.one[p].data || data == s.two[p].data ::
              && (HasBytes(s'.one, p, data) || HasBytes(s'.one, SavedUnder(o, p), data))
              && (HasBytes(s'.two, p, data) || HasBytes(s'.two, SavedUnder(o, p), data))
  {
    assert SettledAt(o, s, s', p);
  }

  function OneOnlyPaths(o: BisyncOptions, s: Sides): set<string> {
    set p | p in s.one && OnlyOne(o, s, p)
  }

  function TwoOnlyPaths(o: BisyncOptions, s: Sides): set<string> {
    set p | p in s.two && OnlyTwo(o, s, p)
  }

  function ClashPaths(o: BisyncOptions, s: Sides): set<string> {
    set p | p in s.one && Clash(o, s, p)
  }

  /** The files that both sides offer and that do not differ. */
  function InStepPaths(o: BisyncOptions, s: Sides): set<string> {
    set p | p in s.one && Offers(o, s.one, p) && Offers(o, s.two, p) && !Clash(o, s, p)
  }

  function WrittenInOne(o: BisyncOptions, s: Sides): set<string> {
    set p | p in s.one && WritesOne(o, s, p)
  }

  function WrittenInTwo(o: BisyncOptions, s: Sides): set<string> {
    set p | p in s.one && WritesTwo(o, s, p)
  }

  /** The sets that the counters of a run count, if `acting` are the paths that call for an action. */
  lemma CountsMean(o: BisyncOptions, s: Sides, acting: set<string>)
    requires forall p :: p in acting <==> Acts(o, s, p)
    ensures Counted(o, s, acting, CopiedTo2) == OneOnlyPaths(o, s)
    ensures Counted(o, s, acting, CopiedTo1) == TwoOnlyPaths(o, s)
    ensures Counted(o, s, acting, UpdatedIn2) == if o.dryRun then {} else WrittenInTwo(o, s)
    ensures Counted(o, s, acting, UpdatedIn1) == if o.dryRun then {} else WrittenInOne(o, s)
    ensures acting == OneOnlyPaths(o, s) + TwoOnlyPaths(o, s) + ClashPaths(o, s)
  {
    forall p
      ensures p in Counted(o, s, acting, CopiedTo2) <==> OnlyOne(o, s, p)
      ensures p in Counted(o, s, acting, CopiedTo1) <==> OnlyTwo(o, s, p)
      ensures p in Counted(o, s, acting, UpdatedIn2) <==> !o.dryRun && WritesTwo(o, s, p)
      ensures p in Counted(o, s, acting, UpdatedIn1) <==> !o.dryRun && WritesOne(o, s, p)
      ensures p in acting <==> OnlyOne(o, s, p) || OnlyTwo(o, s, p) || Clash(o, s, p)
    {
      WeightsMean(o, s, p);
      ActionsMean(o, s, p);
    }
  }
}
