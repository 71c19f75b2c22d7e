/** What the guarantees of single bidirectional runs mean for files, schedules and repeated runs (object/sync/bisync.go). */
module BisyncOutcome {
  import opened Wrappers
  import opened SyncModel
  import opened BisyncModel
  import opened BisyncCounts
  import opened BisyncMeaning

  // ----- no file is lost -----

  /** Some side stores the bytes in full, under the path or its conflict path. */
  ghost predicate Stored(o: BisyncOptions, s: Sides, p: string, data: Bytes) {
    || HasBytes(s.one, p, data) || HasBytes(s.two, p, data)
    || HasBytes(s.one, ConflictPath(o, p), data) || HasBytes(s.two, ConflictPath(o, p), data)
  }

  /** A file that the filter accepts, or whose path the other side does not offer. */
  predicate Spared(o: BisyncOptions, tree: Tree, other: Tree, p: string) {
    p in tree && !tree[p].isDir && (Seen(o, tree, p) || !Seen(o, other, p))
  }

  /** Every initial file of either side is still stored somewhere. */
  ghost predicate AllStored(o: BisyncOptions, s0: Sides, m: Sides) {
    && (forall p | Spared(o, s0.one, s0.two, p) :: Stored(o, m, p, s0.one[p].data))
    && (forall p | Spared(o, s0.two, s0.one, p) :: Stored(o, m, p, s0.two[p].data))
  }

  lemma FreePathsAreApart(o: BisyncOptions, s: Sides)
    requires NoCollision(o, s)
    ensures Apart(o, s)
  {
  }

  /** KeepBoth at any safe moment, so after any failures: every initial file is still stored somewhere. */
  lemma NothingLost(o: BisyncOptions, s0: Sides, m: Sides)
    requires o.strategy.KeepBoth? && NoCollision(o, s0) && Safe(o, s0, m)
    ensures AllStored(o, s0, m)
  {
    forall p | Spared(o, s0.one, s0.two, p)
      ensures Stored(o, m, p, s0.one[p].data)
    {
      if FromTwo(o, s0, p) {
        assert LoserKept(o, s0, m, p);
      } else {
        assert WantOne(o, s0, p).Unchanged?;
      }
    }
    forall p | Spared(o, s0.two, s0.one, p)
      ensures Stored(o, m, p, s0.two[p].data)
    {
      if FromOne(o, s0, p) {
        assert LoserKept(o, s0, m, p);
      } else {
        assert WantTwo(o, s0, p).Unchanged?;
      }
    }
  }

  predicate Wins(o: BisyncOptions) {
    o.strategy.NewerWins? || o.strategy.LargerWins? || o.strategy.SourceWins? || o.strategy.DestWins?
  }

  /** Under the other strategies no condition is needed: there are no conflict paths. */
  lemma NoConflictPaths(o: BisyncOptions, s: Sides)
    requires !o.strategy.KeepBoth?
    ensures Apart(o, s) && forall p :: !IsSave(o, s, p)
  {
  }

  /** Where one version wins, its side is never written: only the losing side and the missing side are. */
  lemma WinnersNeverWritten(o: BisyncOptions, s0: Sides, m: Sides, p: string)
    requires Wins(o) && Safe(o, s0, m)
    ensures !WritesOne(o, s0, p) && !OnlyTwo(o, s0, p) ==> Same(m.one, s0.one, p)
    ensures !WritesTwo(o, s0, p) && !OnlyOne(o, s0, p) ==> Same(m.two, s0.two, p)
    ensures Clash(o, s0, p) ==> (WritesOne(o, s0, p) <==> !WritesTwo(o, s0, p))
  {
    NoConflictPaths(o, s0);
    ActionsMean(o, s0, p);
    assert !IsSave(o, s0, p);
    assert WantOne(o, s0, p).Unchanged? <==> !FromTwo(o, s0, p);
    assert WantTwo(o, s0, p).Unchanged? <==> !FromOne(o, s0, p);
  }

  /** A file the filter rejects on one side is overwritten if the other side offers an accepted one. */
  lemma RejectedOverwritten(o: BisyncOptions, s0: Sides, s1: Sides, p: string)
    requires Merged(o, s0, s1) && p in s0.one && !Seen(o, s0.one, p) && Seen(o, s0.two, p)
    ensures HasBytes(s1.one, p, s0.two[p].data)
  {
    assert Meets(WantOne(o, s0, p), s0.one, s1.one, p);
  }

  /**
   Why conflict paths must be free: a file that both sides have under one, and in step, is overwritten on both,
   so it survives exactly when it already has the bytes of the older version.
   */
  lemma CollisionOverwrites(o: BisyncOptions, s0: Sides, s1: Sides, p: string)
    requires Apart(o, s0) && Merged(o, s0, s1) && IsSave(o, s0, p)
    requires p in s0.one
    ensures (HasBytes(s1.one, p, s0.one[p].data) || HasBytes(s1.two, p, s0.one[p].data)) <==>
            s0.one[p].data == LoserBytes(o, s0, p[..|p| - |Suffix(o)|])
  {
    assert !Acts(o, s0, p);
    assert Meets(WantOne(o, s0, p), s0.one, s1.one, p) && Meets(WantTwo(o, s0, p), s0.two, s1.two, p);
  }

  // ----- one outcome, in which the sides agree -----

  /** Map iteration orders the actions arbitrarily; all orders end with the same bytes. */
  lemma OutcomeDetermined(o: BisyncOptions, s0: Sides, a: Sides, b: Sides)
    requires Merged(o, s0, a) && Merged(o, s0, b)
    ensures SameBytes(a.one, b.one) && SameBytes(a.two, b.two)
  {
    forall p
      ensures p in a.one <==> p in b.one
      ensures p in a.one ==> a.one[p].data == b.one[p].data && a.one[p].isDir == b.one[p].isDir
      ensures p in a.two <==> p in b.two
      ensures p in a.two ==> a.two[p].data == b.two[p].data && a.two[p].isDir == b.two[p].isDir
    {
      assert Meets(WantOne(o, s0, p), s0.one, a.one, p) && Meets(WantOne(o, s0, p), s0.one, b.one, p);
      assert Meets(WantTwo(o, s0, p), s0.two, a.two, p) && Meets(WantTwo(o, s0, p), s0.two, b.two, p);
    }
  }

  lemma SidesAgreeAt(o: BisyncOptions, s0: Sides, s1: Sides, p: string)
    requires Resolves(o) && Apart(o, s0) && Merged(o, s0, s1)
    ensures Seen(o, s0.one, p) || Seen(o, s0.two, p) || IsSave(o, s0, p) ==> p in s1.one && p in s1.two
    ensures Acts(o, s0, p) || IsSave(o, s0, p) ==>
              && p in s1.one && p in s1.two && s1.one[p].data == s1.two[p].data
              && !s1.one[p].isDir && !s1.two[p].isDir
    ensures !Acts(o, s0, p) && !IsSave(o, s0, p) ==> Same(s1.one, s0.one, p) && Same(s1.two, s0.two, p)
  {
    assert Meets(WantOne(o, s0, p), s0.one, s1.one, p) && Meets(WantTwo(o, s0, p), s0.two, s1.two, p);
  }

  /** Without a filter and directories both sides end with the same paths. */
  lemma SamePaths(o: BisyncOptions, s0: Sides, s1: Sides)
    requires Resolves(o) && Apart(o, s0) && Merged(o, s0, s1) && o.filter.None?
    requires forall p | p in s0.one :: !s0.one[p].isDir
    requires forall p | p in s0.two :: !s0.two[p].isDir
    ensures s1.one.Keys == s1.two.Keys
  {
    forall p
      ensures p in s1.one <==> p in s1.two
    {
      SidesAgreeAt(o, s0, s1, p);
    }
  }

  // ----- a second run -----

  /** Under the strategies with a winner a second run changes no bytes, whatever the times of the copies. */
  lemma RerunChangesNothing(o: BisyncOptions, s0: Sides, s1: Sides, s2: Sides)
    requires Wins(o) && Merged(o, s0, s1) && Merged(o, s1, s2)
    ensures SameBytes(s1.one, s2.one) && SameBytes(s1.two, s2.two)
  {
    NoConflictPaths(o, s0);
    NoConflictPaths(o, s1);
    forall p
      ensures p in s1.one <==> p in s2.one
      ensures p in s1.one ==> s1.one[p].data == s2.one[p].data && s1.one[p].isDir == s2.one[p].isDir
      ensures p in s1.two <==> p in s2.two
      ensures p in s1.two ==> s1.two[p].data == s2.two[p].data && s1.two[p].isDir == s2.two[p].isDir
    {
      RerunAt(o, s0, s1, s2, p);
    }
  }

  lemma RerunAt(o: BisyncOptions, s0: Sides, s1: Sides, s2: Sides, p: string)
    requires Wins(o) && Apart(o, s0) && Apart(o, s1) && Merged(o, s0, s1) && Merged(o, s1, s2)
    requires !IsSave(o, s0, p) && !IsSave(o, s1, p)
    ensures p in s1.one <==> p in s2.one
    ensures p in s1.one ==> s1.one[p].data == s2.one[p].data && s1.one[p].isDir == s2.one[p].isDir
    ensures p in s1.two <==> p in s2.two
    ensures p in s1.two ==> s1.two[p].data == s2.two[p].data && s1.two[p].isDir == s2.two[p].isDir
  {
    SidesAgreeAt(o, s0, s1, p);
    if !Acts(o, s0, p) {
      assert ActionFor(o, s1, p) == ActionFor(o, s0, p);
    }
    assert Meets(WantOne(o, s1, p), s1.one, s2.one, p) && Meets(WantTwo(o, s1, p), s1.two, s2.two, p);
  }

  /**
   Under KeepBoth a second run may destroy what the first one saved.  The saved older version survives exactly
   when the path is not in conflict again, or the two versions had the same bytes all along.
   */
  lemma RerunKeepsSaved(o: BisyncOptions, s0: Sides, s1: Sides, s2: Sides, p: string)
    requires o.strategy.KeepBoth? && Conflicts(o, s0, p)
    requires Apart(o, s0) && Merged(o, s0, s1) && Apart(o, s1) && Merged(o, s1, s2)
    ensures (HasBytes(s2.one, ConflictPath(o, p), LoserBytes(o, s0, p)) && HasBytes(s2.two, ConflictPath(o, p), LoserBytes(o, s0, p)))
            <==> (!Conflicts(o, s1, p) || s0.one[p].data == s0.two[p].data)
  {
    var saved := ConflictPath(o, p);
    SavedBy(o, s0, saved, p);
    assert saved[..|saved| - |Suffix(o)|] == p;
    SidesAgreeAt(o, s0, s1, p);
    assert Meets(WantOne(o, s0, saved), s0.one, s1.one, saved) && Meets(WantTwo(o, s0, saved), s0.two, s1.two, saved);
    assert Meets(WantOne(o, s0, p), s0.one, s1.one, p) && Meets(WantTwo(o, s0, p), s0.two, s1.two, p);
    assert Meets(WantOne(o, s1, saved), s1.one, s2.one, saved) && Meets(WantTwo(o, s1, saved), s1.two, s2.two, saved);
    if Conflicts(o, s1, p) {
      SavedBy(o, s1, saved, p);
    }
  }

  /**
   Whether a merged path is in conflict again depends on the times alone, when no checksums are used: it is,
   unless the time of the copy equals that of its original.
   */
  lemma ConflictRecurs(o: BisyncOptions, s0: Sides, s1: Sides, p: string)
    requires Resolves(o) && Apart(o, s0) && Merged(o, s0, s1) && o.filter.None? && !o.checksum && Conflicts(o, s0, p)
    ensures p in s1.one && p in s1.two
    ensures Conflicts(o, s1, p) <==>
            !o.timeEqual(s1.one[p].modTime, s1.two[p].modTime) || !o.timeEqual(s1.two[p].modTime, s1.one[p].modTime)
  {
    SidesAgreeAt(o, s0, s1, p);
  }

  // ----- dry runs -----

  /** A dry run predicts one-sided copies, but updates only when no conflict would be resolved by copying. */
  lemma DryRunCounts(o: BisyncOptions, s: Sides, p: string)
    ensures Weight(o.(dryRun := true), s, p, CopiedTo1) == Weight(o.(dryRun := false), s, p, CopiedTo1)
    ensures Weight(o.(dryRun := true), s, p, CopiedTo2) == Weight(o.(dryRun := false), s, p, CopiedTo2)
    ensures (forall m :: Weight(o.(dryRun := true), s, p, m) == Weight(o.(dryRun := false), s, p, m)) <==>
            !(Conflicts(o, s, p) && Resolves(o))
  {
    var dry, wet := o.(dryRun := true), o.(dryRun := false);
    SameActions(o, dry, s, p);
    SameActions(o, wet, s, p);
    if Conflicts(o, s, p) && Resolves(o) {
      assert Weight(wet, s, p, UpdatedIn1) + Weight(wet, s, p, UpdatedIn2) > 0;
    }
  }

  lemma SameActions(o: BisyncOptions, o': BisyncOptions, s: Sides, p: string)
    requires o' == o.(dryRun := o'.dryRun)
    ensures ActionFor(o', s, p) == ActionFor(o, s, p) && DirectionFor(o', s, p) == DirectionFor(o, s, p)
  {
  }
}
