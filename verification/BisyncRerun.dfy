/**
 A second run under KeepBoth in which a path and its saved copy are both in conflict again (object/sync/bisync.go).
 The conflict path of the first is then the path of another action, and the order of the two decides.
 */
module BisyncRerun {
  import opened Wrappers
  import opened SyncModel
  import opened BisyncModel
  import opened BisyncPlan
  import opened BisyncSafety
  import opened BisyncOutcome

  /** No conflict path is the path of an action, but for that of `p`. */
  ghost predicate ApartBut(o: BisyncOptions, s: Sides, p: string) {
    forall q | Conflicts(o, s, q) && q != p :: !Acts(o, s, ConflictPath(o, q))
  }

  ghost predicate OnBoth(s: Sides, p: string, data: Bytes) {
    HasBytes(s.one, p, data) && HasBytes(s.two, p, data)
  }

  /**
   The run so far: `p` holds the newer version on both sides all along; its conflict path the older one until `p` is
   done; and the conflict path of that, once the saved copy is done, what was in the saved copy then.
   */
  ghost predicate Stage(o: BisyncOptions, s: Sides, p: string, newer: Bytes, older: Bytes, pDone: bool, savedDone: bool, savedFirst: bool) {
    var saved := ConflictPath(o, p);
    && OnBoth(s, p, newer)
    && OnBoth(s, saved, if pDone then newer else older)
    && (savedDone ==> OnBoth(s, ConflictPath(o, saved), if savedFirst then older else newer))
  }

  lemma ConflictPathsDistinct(o: BisyncOptions, p: string, q: string)
    ensures ConflictPath(o, p) == ConflictPath(o, q) ==> p == q
  {
    assert ConflictPath(o, p)[..|p|] == p && ConflictPath(o, q)[..|q|] == q;
  }

  /** Other actions touch none of the three paths. */
  lemma OtherStep(o: BisyncOptions, s1: Sides, s: Sides, m: Sides, q: string, p: string)
    requires o.strategy.KeepBoth? && ApartBut(o, s1, p) && Conflicts(o, s1, p) && Conflicts(o, s1, ConflictPath(o, p))
    requires Acts(o, s1, q) && q != p && q != ConflictPath(o, p) && Local(o, s1, s, m, q)
    ensures Untried(s, m, p) && Untried(s, m, ConflictPath(o, p)) && Untried(s, m, ConflictPath(o, ConflictPath(o, p)))
  {
    var saved := ConflictPath(o, p);
    ConflictPathsDistinct(o, p, q);
    ConflictPathsDistinct(o, saved, q);
    assert !Acts(o, s1, ConflictPath(o, saved));
    Elsewhere(o, s1, s, m, q, p);
    Elsewhere(o, s1, s, m, q, saved);
    Elsewhere(o, s1, s, m, q, ConflictPath(o, saved));
  }

  lemma StageStep(o: BisyncOptions, s1: Sides, s: Sides, m: Sides, q: string, p: string, newer: Bytes, older: Bytes,
                  pDone: bool, savedDone: bool, savedFirst: bool)
    requires o.strategy.KeepBoth? && !o.dryRun
    requires ApartBut(o, s1, p) && Conflicts(o, s1, p) && Conflicts(o, s1, ConflictPath(o, p)) && Acts(o, s1, q)
    requires Stepped(o, s1, s, m, q, {}) && Stage(o, s, p, newer, older, pDone, savedDone, savedFirst)
    requires q == ConflictPath(o, p) ==> (savedFirst <==> !pDone)
    ensures Stage(o, m, p, newer, older, pDone || q == p, savedDone || q == ConflictPath(o, p), savedFirst)
  {
    var saved := ConflictPath(o, p);
    if q == p {
      Elsewhere(o, s1, s, m, q, ConflictPath(o, saved));
    } else if q == saved {
      Elsewhere(o, s1, s, m, q, p);
    } else {
      OtherStep(o, s1, s, m, q, p);
    }
  }

  lemma {:induction false} StageAfter(o: BisyncOptions, s1: Sides, order: seq<Action>, states: seq<Sides>, p: string,
                                      newer: Bytes, older: Bytes, ip: nat, ic: nat, k: nat)
    requires o.strategy.KeepBoth? && !o.dryRun
    requires ApartBut(o, s1, p) && Conflicts(o, s1, p) && Conflicts(o, s1, ConflictPath(o, p))
    requires IsOrder(o, s1, order) && Ran(o, s1, order, states, {}) && k <= |order|
    requires ip < |order| && order[ip].file.path == p && ic < |order| && order[ic].file.path == ConflictPath(o, p)
    requires Stage(o, s1, p, newer, older, false, false, ic < ip)
    ensures Stage(o, states[k], p, newer, older, ip < k, ic < k, ic < ip)
  {
    if k > 0 {
      StageAfter(o, s1, order, states, p, newer, older, ip, ic, k - 1);
      var q := order[k - 1].file.path;
      assert Stepped(o, s1, states[k - 1], states[k], q, {});
      StageStep(o, s1, states[k - 1], states[k], q, p, newer, older, ip < k - 1, ic < k - 1, ic < ip);
    }
  }

  lemma Position(o: BisyncOptions, s: Sides, order: seq<Action>, q: string) returns (k: nat)
    requires IsPlan(o, s, order) && Acts(o, s, q)
    ensures k < |order| && order[k].file.path == q
  {
    k :| 0 <= k < |order| && order[k] == ActionFor(o, s, q).value;
  }

  /**
   When a merged path and its saved copy are both in conflict again, an error-free second run leaves the newer version
   under the conflict path in any case.  The older version survives, under the conflict path of its conflict path,
   exactly when the saved copy happens to be handled before the path itself, or the versions had the same bytes.
   */
  lemma RerunBothAgain(o: BisyncOptions, s0: Sides, s1: Sides, order: seq<Action>, states: seq<Sides>, p: string)
    returns (ip: nat, ic: nat)
    requires o.strategy.KeepBoth? && !o.dryRun && Conflicts(o, s0, p) && Apart(o, s0) && Merged(o, s0, s1)
    requires Conflicts(o, s1, p) && Conflicts(o, s1, ConflictPath(o, p)) && ApartBut(o, s1, p)
    requires IsPlan(o, s1, order) && Ran(o, s1, order, states, {})
    ensures ip < |order| && order[ip].file.path == p && ic < |order| && order[ic].file.path == ConflictPath(o, p)
    ensures
      var s2, saved, older := states[|order|], ConflictPath(o, p), LoserBytes(o, s0, p);
      var newer := if FromOne(o, s0, p) then s0.one[p].data else s0.two[p].data;
      && OnBoth(s2, p, newer) && OnBoth(s2, saved, newer)
      && OnBoth(s2, ConflictPath(o, saved), if ic < ip then older else newer)
      && (Stored(o, s2, saved, older) <==> ic < ip || older == newer)
  {
    var saved, older := ConflictPath(o, p), LoserBytes(o, s0, p);
    var newer := if FromOne(o, s0, p) then s0.one[p].data else s0.two[p].data;
    SavedBy(o, s0, saved, p);
    assert saved[..|saved| - |Suffix(o)|] == p;
    assert Meets(WantOne(o, s0, saved), s0.one, s1.one, saved) && Meets(WantTwo(o, s0, saved), s0.two, s1.two, saved);
    NotASave(o, s0, p);
    assert Meets(WantOne(o, s0, p), s0.one, s1.one, p) && Meets(WantTwo(o, s0, p), s0.two, s1.two, p);
    ip := Position(o, s1, order, p);
    ic := Position(o, s1, order, saved);
    StageAfter(o, s1, order, states, p, newer, older, ip, ic, |order|);
  }

  lemma NotASave(o: BisyncOptions, s: Sides, p: string)
    requires Apart(o, s) && Acts(o, s, p)
    ensures !IsSave(o, s, p)
  {
  }
}
