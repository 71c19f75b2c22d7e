/** Copies between the two sides, and the resolution of a conflict (object/sync/bisync.go). */
module BisyncCopies {
  import opened Wrappers
  import opened SyncModel
  import opened BisyncModel
  import opened BisyncSafety

  /** One copy between sides, or within one.  `during` is the destination as it may be while the copy goes on. */
  method CopyFile(from: Subtree, p: string, to: Subtree, q: string, mayFail: bool) returns (ok: bool, ghost during: Tree)
    modifies to
    ensures CopyResult(old(from.files), p, old(to.files), to.files, q, ok)
    ensures CopyResult(old(from.files), p, old(to.files), during, q, false)
    ensures !mayFail && p in old(from.files) && !old(from.files)[p].isDir ==> ok
  {
    var obj: Option<Object>, modTime: Time, hash: string := *, *, *;
    during := if obj.Some? then to.files[q := obj.value] else to.files - {q};
    ok := *;
    if (ok || !mayFail) && p in from.files && !from.files[p].isDir {
      to.files := to.files[q := Object(from.files[p].data, modTime, hash, false)];
      ok := true;
      return;
    }
    ok := false;
    var left: Option<Object> := *;
    to.files := if left.Some? then to.files[q := left.value] else to.files - {q};
  }

  predicate IsFile(tree: Tree, p: string) {
    p in tree && !tree[p].isDir
  }

  /** At any moment while both versions of `p` are kept, seen from the newer and the older side. */
  ghost predicate KeepingBoth(newer: Tree, older: Tree, newer': Tree, older': Tree, p: string, saved: string)
  {
    && (forall r | r != p && r != saved :: Same(newer', newer, r) && Same(older', older, r))
    && Same(newer', newer, p)
    && (p in older && !older[p].isDir ==> HasBytes(older', p, older[p].data) || HasBytes(older', saved, older[p].data))
  }

  lemma FirstCopy(newer: Tree, older: Tree, older': Tree, p: string, saved: string, ok: bool)
    requires p != saved
    requires CopyResult(older, p, older, older', saved, ok)
    ensures KeepingBoth(newer, older, newer, older', p, saved)
    ensures ok ==> p in older && !older[p].isDir && HasBytes(older', saved, older[p].data)
  {
    assert Same(older', older, p);
  }

  lemma SecondCopy(newer: Tree, older: Tree, older1: Tree, older2: Tree, p: string, saved: string, ok: bool)
    requires p != saved && p in older
    requires KeepingBoth(newer, older, newer, older1, p, saved) && HasBytes(older1, saved, older[p].data)
    requires CopyResult(newer, p, older1, older2, p, ok)
    ensures KeepingBoth(newer, older, newer, older2, p, saved)
    ensures HasBytes(older2, saved, older[p].data)
    ensures ok ==> p in newer && HasBytes(older2, p, newer[p].data)
  {
    forall r | r != p && r != saved
      ensures Same(newer, newer, r) && Same(older2, older, r)
    {
      assert Same(older1, older, r) && Same(older2, older1, r);
    }
    assert Same(older2, older1, saved);
  }

  lemma ThirdCopy(newer: Tree, older: Tree, newer': Tree, older': Tree, p: string, saved: string, ok: bool)
    requires p != saved && p in older
    requires KeepingBoth(newer, older, newer, older', p, saved) && HasBytes(older', saved, older[p].data)
    requires CopyResult(older', saved, newer, newer', saved, ok)
    ensures KeepingBoth(newer, older, newer', older', p, saved)
    ensures ok ==> HasBytes(newer', saved, older[p].data)
  {
    forall r | r != saved
      ensures Same(newer', newer, r)
    {
    }
  }

  /**
   Three copies: the older version aside, the newer one over it, and the older one, from where it was saved, to
   the newer side.  `one` of a traced state is the newer side.
   */
  method KeepBothVersions(newer: Subtree, older: Subtree, p: string, saved: string, mayFail: bool)
    returns (ok: bool, ghost trace: seq<Sides>)
    requires newer != older && p != saved
    modifies newer, older
    ensures forall i | 0 <= i < |trace| ::
              KeepingBoth(old(newer.files), old(older.files), trace[i].one, trace[i].two, p, saved)
    ensures Chain(old(Sides(newer.files, older.files)), trace, Sides(newer.files, older.files))
    ensures KeepingBoth(old(newer.files), old(older.files), newer.files, older.files, p, saved)
    ensures ok ==> BothThere(old(newer.files), old(older.files), newer.files, older.files, p, saved)
    ensures !mayFail && IsFile(old(newer.files), p) && IsFile(old(older.files), p) ==> ok
  {
    ghost var during;
    ghost var n0, d0 := newer.files, older.files;
    ok, during := CopyFile(older, p, older, saved, mayFail);
    ghost var d1 := older.files;
    FirstCopy(n0, d0, during, p, saved, false);
    FirstCopy(n0, d0, d1, p, saved, ok);
    trace := [Sides(n0, during), Sides(n0, d1)];
    CopyIntoTwo(n0, d0, during, d1, saved);
    if !ok {
      return;
    }
    ok, during := CopyFile(newer, p, older, p, mayFail);
    ghost var d2 := older.files;
    SecondCopy(n0, d0, d1, during, p, saved, false);
    SecondCopy(n0, d0, d1, d2, p, saved, ok);
    CopyIntoTwo(n0, d1, during, d2, p);
    ChainJoin(Sides(n0, d0), trace, Sides(n0, d1), [Sides(n0, during), Sides(n0, d2)], Sides(n0, d2));
    trace := trace + [Sides(n0, during), Sides(n0, d2)];
    if !ok {
      return;
    }
    ok, during := CopyFile(older, saved, newer, saved, mayFail);
    ThirdCopy(n0, d0, during, d2, p, saved, false);
    ThirdCopy(n0, d0, newer.files, d2, p, saved, ok);
    ghost var n1 := newer.files;
    CopyIntoOne(n0, d2, during, n1, saved);
    ChainJoin(Sides(n0, d0), trace, Sides(n0, d2), [Sides(during, d2), Sides(n1, d2)], Sides(n1, d2));
    trace := trace + [Sides(during, d2), Sides(n1, d2)];
  }

  /** Copies the version of `p` on one side over that on the other. */
  method CopyOver(one: Subtree, two: Subtree, fromOne: bool, p: string, mayFail: bool, o: BisyncOptions, ghost s0: Sides)
    returns (ok: bool, ghost trace: seq<Sides>)
    requires one != two && (o.strategy.KeepBoth? ==> !Conflicts(o, s0, p))
    requires (FromOne(o, s0, p) <==> fromOne) && (FromTwo(o, s0, p) <==> !fromOne)
    modifies one, two
    ensures AllLocal(o, s0, old(Sides(one.files, two.files)), trace, p)
    ensures Chain(old(Sides(one.files, two.files)), trace, Sides(one.files, two.files))
    ensures Local(o, s0, old(Sides(one.files, two.files)), Sides(one.files, two.files), p)
    ensures ok ==> Achieved(o, s0, old(Sides(one.files, two.files)), Sides(one.files, two.files), p)
    ensures !mayFail && old(Untried(s0, Sides(one.files, two.files), p)) ==> ok
  {
    ghost var during;
    ghost var s := Sides(one.files, two.files);
    if fromOne {
      ok, during := CopyFile(one, p, two, p, mayFail);
      CopyIntoTwo(s.one, s.two, during, two.files, p);
      trace := [Sides(one.files, during), Sides(one.files, two.files)];
    } else {
      ok, during := CopyFile(two, p, one, p, mayFail);
      CopyIntoOne(s.one, s.two, during, one.files, p);
      trace := [Sides(during, two.files), Sides(one.files, two.files)];
    }
  }

  /** The KeepBoth strategy; the older version is the one to rename. */
  method KeepBothSides(one: Subtree, two: Subtree, file1: FileInfo, file2: FileInfo, mayFail: bool, o: BisyncOptions, ghost s0: Sides)
    returns (ok: bool, ghost trace: seq<Sides>)
    requires one != two && file1.path == file2.path && o.strategy.KeepBoth?
    requires ActionFor(o, s0, file1.path) == Some(Conflict(file1, file2))
    modifies one, two
    ensures AllLocal(o, s0, old(Sides(one.files, two.files)), trace, file1.path)
    ensures Chain(old(Sides(one.files, two.files)), trace, Sides(one.files, two.files))
    ensures Local(o, s0, old(Sides(one.files, two.files)), Sides(one.files, two.files), file1.path)
    ensures ok ==> Achieved(o, s0, old(Sides(one.files, two.files)), Sides(one.files, two.files), file1.path)
    ensures !mayFail && old(Untried(s0, Sides(one.files, two.files), file1.path)) ==> ok
  {
    var p := file1.path;
    ghost var s := Sides(one.files, two.files);
    ghost var kept;
    if file1.modTime < file2.modTime {
      ok, kept := KeepBothVersions(two, one, p, p + Suffix(o), mayFail);
      ChainFlipped(Flipped(s), kept, Sides(two.files, one.files));
      trace := AllFlipped(kept);
    } else {
      ok, kept := KeepBothVersions(one, two, p, p + Suffix(o), mayFail);
      trace := kept;
    }
    AllKeepingLocal(o, s0, s, trace, p);
    KeepingIsLocal(o, s0, s, Sides(one.files, two.files), p);
    BothAchieved(o, s0, s, Sides(one.files, two.files), p, ok);
  }

  lemma KeepingIsLocal(o: BisyncOptions, s0: Sides, s: Sides, m: Sides, p: string)
    requires o.strategy.KeepBoth? && Conflicts(o, s0, p) && KeepingFrom(o, s0, s, m, p)
    ensures Local(o, s0, s, m, p)
  {
  }

  lemma AllKeepingLocal(o: BisyncOptions, s0: Sides, s: Sides, trace: seq<Sides>, p: string)
    requires o.strategy.KeepBoth? && Conflicts(o, s0, p)
    requires forall i | 0 <= i < |trace| :: KeepingFrom(o, s0, s, trace[i], p)
    ensures AllLocal(o, s0, s, trace, p)
  {
    forall i | 0 <= i < |trace|
      ensures Local(o, s0, s, trace[i], p)
    {
      KeepingIsLocal(o, s0, s, trace[i], p);
    }
  }

  /** After three whole copies both versions are on both sides. */
  ghost predicate BothThere(newer: Tree, older: Tree, newer': Tree, older': Tree, p: string, saved: string) {
    && p in newer && p in older
    && HasBytes(older', p, newer[p].data) && HasBytes(older', saved, older[p].data) && HasBytes(newer', saved, older[p].data)
  }

  lemma BothAchieved(o: BisyncOptions, s0: Sides, s: Sides, m: Sides, p: string, ok: bool)
    requires o.strategy.KeepBoth? && Conflicts(o, s0, p)
    requires ok ==> if FromOne(o, s0, p) then BothThere(s.one, s.two, m.one, m.two, p, ConflictPath(o, p))
                    else BothThere(s.two, s.one, m.two, m.one, p, ConflictPath(o, p))
    ensures ok ==> Achieved(o, s0, s, m, p)
  {
  }

  /** Resolves a conflict by the strategy. */
  method ResolveConflict(one: Subtree, two: Subtree, file1: FileInfo, file2: FileInfo, mayFail: bool, o: BisyncOptions, ghost s0: Sides)
    returns (direction: Direction, ok: bool, ghost trace: seq<Sides>)
    requires one != two && file1.path == file2.path
    requires ActionFor(o, s0, file1.path) == Some(Conflict(file1, file2))
    modifies one, two
    ensures AllLocal(o, s0, old(Sides(one.files, two.files)), trace, file1.path)
    ensures Chain(old(Sides(one.files, two.files)), trace, Sides(one.files, two.files))
    ensures Local(o, s0, old(Sides(one.files, two.files)), Sides(one.files, two.files), file1.path)
    ensures o.dryRun ==> one.files == old(one.files) && two.files == old(two.files)
    ensures ok && !o.dryRun ==> Achieved(o, s0, old(Sides(one.files, two.files)), Sides(one.files, two.files), file1.path)
    ensures ok ==> direction == DirectionFor(o, s0, file1.path) && !o.strategy.Report? && !o.strategy.Unknown?
    ensures !ok ==> direction == Neither
    ensures (!mayFail || o.dryRun) && !o.strategy.Report? && !o.strategy.Unknown? && old(Untried(s0, Sides(one.files, two.files), file1.path)) ==> ok
  {
    var p := file1.path;
    trace := [];
    match o.strategy {
      case KeepBoth =>
        if o.dryRun {
          return Both, true, trace;
        }
        ok, trace := KeepBothSides(one, two, file1, file2, mayFail, o, s0);
        direction := if ok then Both else Neither;
      case Skip =>
        return Neither, true, trace;
      case Report =>
        return Neither, false, trace;
      case Unknown =>
        return Neither, false, trace;
      case _ =>
        var fromOne := FirstWins(o, file1, file2);
        direction := if fromOne then To2 else To1;
        if o.dryRun {
          return direction, true, trace;
        }
        ok, trace := CopyOver(one, two, fromOne, p, mayFail, o, s0);
        direction := if ok then direction else Neither;
    }
  }

  ghost predicate KeepingFrom(o: BisyncOptions, s0: Sides, s: Sides, m: Sides, p: string)
  {
    if FromOne(o, s0, p) then KeepingBoth(s.one, s.two, m.one, m.two, p, ConflictPath(o, p))
    else KeepingBoth(s.two, s.one, m.two, m.one, p, ConflictPath(o, p))
  }
}
