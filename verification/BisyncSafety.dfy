/** What every action of a bidirectional synchronization keeps (object/sync/bisync.go). */
module BisyncSafety {
  import opened SyncModel
  import opened BisyncModel

  /** What may happen to the two sides, at any moment, while the action for `q` is carried out. */
  ghost predicate Local(o: BisyncOptions, s0: Sides, s: Sides, m: Sides, q: string) {
    && (forall p | p != q && !Saves(o, s0, p, q) :: Same(m.one, s.one, p) && Same(m.two, s.two, p))
    && (!FromTwo(o, s0, q) ==> Same(m.one, s.one, q))
    && (!FromOne(o, s0, q) ==> Same(m.two, s.two, q))
    && (Untried(s0, s, q) && o.strategy.KeepBoth? && Conflicts(o, s0, q) ==> LoserKept(o, s0, m, q))
  }

  ghost predicate AllLocal(o: BisyncOptions, s0: Sides, s: Sides, trace: seq<Sides>, q: string) {
    forall i | 0 <= i < |trace| :: Local(o, s0, s, trace[i], q)
  }

  /** What holds when the action for `q` has been carried out without errors. */
  ghost predicate Landed(o: BisyncOptions, s0: Sides, m: Sides, q: string) {
    && (FromOne(o, s0, q) ==> q in s0.one && HasBytes(m.two, q, s0.one[q].data))
    && (FromTwo(o, s0, q) ==> q in s0.two && HasBytes(m.one, q, s0.two[q].data))
    && (o.strategy.KeepBoth? && Conflicts(o, s0, q) ==>
          && HasBytes(m.one, ConflictPath(o, q), LoserBytes(o, s0, q))
          && HasBytes(m.two, ConflictPath(o, q), LoserBytes(o, s0, q)))
  }

  /** What carrying out the action for `q` from the state `s` achieves, whatever went before. */
  ghost predicate Achieved(o: BisyncOptions, s0: Sides, s: Sides, m: Sides, q: string) {
    && (FromOne(o, s0, q) ==> q in s.one && HasBytes(m.two, q, s.one[q].data))
    && (FromTwo(o, s0, q) ==> q in s.two && HasBytes(m.one, q, s.two[q].data))
    && (o.strategy.KeepBoth? && Conflicts(o, s0, q) ==>
          var loser := if FromOne(o, s0, q) then s.two else s.one;
          && q in loser
          && HasBytes(m.one, ConflictPath(o, q), loser[q].data) && HasBytes(m.two, ConflictPath(o, q), loser[q].data))
  }

  lemma AchievedLands(o: BisyncOptions, s0: Sides, s: Sides, m: Sides, q: string)
    requires Achieved(o, s0, s, m, q) && Untried(s0, s, q)
    ensures Landed(o, s0, m, q)
  {
  }

  /** A run as a sequence of states, one after each action: each is reached by its action, which achieves its aim unless it failed. */
  ghost predicate Ran(o: BisyncOptions, s0: Sides, order: seq<Action>, states: seq<Sides>, failed: set<string>) {
    && |states| == |order| + 1 && states[0] == s0
    && forall i | 0 <= i < |order| :: Stepped(o, s0, states[i], states[i + 1], order[i].file.path, failed)
  }

  ghost predicate Stepped(o: BisyncOptions, s0: Sides, s: Sides, m: Sides, q: string, failed: set<string>) {
    Local(o, s0, s, m, q) && (!o.dryRun && q !in failed ==> Achieved(o, s0, s, m, q))
  }

  lemma RanMore(o: BisyncOptions, s0: Sides, actions: seq<Action>, i: nat, states: seq<Sides>, failed: set<string>, m: Sides, failed': set<string>)
    requires i < |actions| && Ran(o, s0, actions[..i], states, failed) && failed <= failed'
    requires Stepped(o, s0, states[i], m, actions[i].file.path, failed')
    ensures Ran(o, s0, actions[..i + 1], states + [m], failed')
  {
    var order, states' := actions[..i + 1], states + [m];
    forall k | 0 <= k < i + 1
      ensures Stepped(o, s0, states'[k], states'[k + 1], order[k].file.path, failed')
    {
      if k < i {
        assert Stepped(o, s0, states[k], states[k + 1], actions[..i][k].file.path, failed);
      }
    }
  }

  ghost predicate Untried(s0: Sides, s: Sides, q: string) {
    Same(s.one, s0.one, q) && Same(s.two, s0.two, q)
  }

  /** The two trees agree but for one path. */
  ghost predicate Writes(a: Tree, b: Tree, p: string) {
    forall r | r != p :: Same(b, a, r)
  }

  /** At most one path of one side differs. */
  ghost predicate OneWrite(a: Sides, b: Sides) {
    exists p :: (a.one == b.one && Writes(a.two, b.two, p)) || (a.two == b.two && Writes(a.one, b.one, p))
  }

  /** The moments from one state to another, with at most one write between neighbours. */
  ghost predicate Chain(s: Sides, trace: seq<Sides>, s': Sides)
    decreases |trace|
  {
    if trace == [] then s == s' else OneWrite(s, trace[0]) && Chain(trace[0], trace[1..], s')
  }

  lemma {:induction false} ChainJoin(s: Sides, first: seq<Sides>, m: Sides, second: seq<Sides>, s': Sides)
    requires Chain(s, first, m) && Chain(m, second, s')
    ensures Chain(s, first + second, s')
    decreases |first|
  {
    if first == [] {
      assert first + second == second;
    } else {
      ChainJoin(first[0], first[1..], m, second, s');
      assert (first + second)[1..] == first[1..] + second;
    }
  }

  lemma CopyIntoTwo(one: Tree, two: Tree, during: Tree, two': Tree, p: string)
    requires Writes(two, during, p) && Writes(two, two', p)
    ensures Chain(Sides(one, two), [Sides(one, during), Sides(one, two')], Sides(one, two'))
  {
    forall r | r != p
      ensures Same(two', during, r)
    {
      assert Same(during, two, r) && Same(two', two, r);
    }
    assert Writes(during, two', p);
    assert OneWrite(Sides(one, two), Sides(one, during)) && OneWrite(Sides(one, during), Sides(one, two'));
    assert Chain(Sides(one, during), [Sides(one, two')], Sides(one, two'));
    assert [Sides(one, during), Sides(one, two')][1..] == [Sides(one, two')];
  }

  lemma CopyIntoOne(one: Tree, two: Tree, during: Tree, one': Tree, p: string)
    requires Writes(one, during, p) && Writes(one, one', p)
    ensures Chain(Sides(one, two), [Sides(during, two), Sides(one', two)], Sides(one', two))
  {
    forall r | r != p
      ensures Same(one', during, r)
    {
      assert Same(during, one, r) && Same(one', one, r);
    }
    assert Writes(during, one', p);
    assert OneWrite(Sides(one, two), Sides(during, two)) && OneWrite(Sides(during, two), Sides(one', two));
    assert Chain(Sides(during, two), [Sides(one', two)], Sides(one', two));
    assert [Sides(during, two), Sides(one', two)][1..] == [Sides(one', two)];
  }

  function Flipped(s: Sides): Sides {
    Sides(s.two, s.one)
  }

  function AllFlipped(trace: seq<Sides>): (r: seq<Sides>)
    ensures |r| == |trace| && forall i | 0 <= i < |trace| :: r[i] == Flipped(trace[i])
  {
    if trace == [] then [] else [Flipped(trace[0])] + AllFlipped(trace[1..])
  }

  lemma OneWriteFlipped(a: Sides, b: Sides)
    requires OneWrite(a, b)
    ensures OneWrite(Flipped(a), Flipped(b))
  {
  }

  lemma {:induction false} ChainFlipped(s: Sides, trace: seq<Sides>, s': Sides)
    requires Chain(s, trace, s')
    ensures Chain(Flipped(s), AllFlipped(trace), Flipped(s'))
    decreases |trace|
  {
    if trace != [] {
      OneWriteFlipped(s, trace[0]);
      ChainFlipped(trace[0], trace[1..], s');
    }
  }

  /** Under Apart the paths of two actions, with their conflict paths, are different. */
  lemma OwnPaths(o: BisyncOptions, s0: Sides, q: string, r: string)
    requires Apart(o, s0) && Acts(o, s0, q) && Acts(o, s0, r) && q != r
    ensures !Saves(o, s0, q, r) && !Saves(o, s0, r, q)
    ensures forall p | Saves(o, s0, p, q) :: !Saves(o, s0, p, r)
  {
    if Saves(o, s0, q, r) {
      SavedBy(o, s0, q, r);
    }
    if Saves(o, s0, r, q) {
      SavedBy(o, s0, r, q);
    }
    forall p | Saves(o, s0, p, q)
      ensures !Saves(o, s0, p, r)
    {
      SavedBy(o, s0, p, q);
      if Saves(o, s0, p, r) {
        SavedBy(o, s0, p, r);
      }
    }
  }

  lemma IntactKept(o: BisyncOptions, s0: Sides, s: Sides, m: Sides, q: string)
    requires Acts(o, s0, q) && Intact(o, s0, s) && Local(o, s0, s, m, q)
    ensures Intact(o, s0, m)
  {
    forall p
      ensures WantOne(o, s0, p).Unchanged? ==> Same(m.one, s0.one, p)
      ensures WantTwo(o, s0, p).Unchanged? ==> Same(m.two, s0.two, p)
    {
      if Saves(o, s0, p, q) {
        SavedBy(o, s0, p, q);
      } else {
        assert WantOne(o, s0, p).Unchanged? ==> Same(m.one, s.one, p);
        assert WantTwo(o, s0, p).Unchanged? ==> Same(m.two, s.two, p);
      }
    }
  }

  lemma LosersStayKept(o: BisyncOptions, s0: Sides, s: Sides, m: Sides, q: string)
    requires Apart(o, s0) && Acts(o, s0, q) && LosersKept(o, s0, s)
    requires Local(o, s0, s, m, q) && Untried(s0, s, q)
    ensures LosersKept(o, s0, m)
  {
    if o.strategy.KeepBoth? {
      forall r | Conflicts(o, s0, r)
        ensures LoserKept(o, s0, m, r)
      {
        if r != q {
          OwnPaths(o, s0, q, r);
          assert LoserKept(o, s0, s, r);
          assert Saves(o, s0, ConflictPath(o, r), r);
          Elsewhere(o, s0, s, m, q, r);
          Elsewhere(o, s0, s, m, q, ConflictPath(o, r));
        }
      }
    }
  }

  lemma Elsewhere(o: BisyncOptions, s0: Sides, s: Sides, m: Sides, q: string, p: string)
    requires Local(o, s0, s, m, q) && p != q && !Saves(o, s0, p, q)
    ensures Same(m.one, s.one, p) && Same(m.two, s.two, p)
  {
  }

  /** Any moment of an action keeps safety. */
  lemma StepSafe(o: BisyncOptions, s0: Sides, s: Sides, m: Sides, q: string)
    requires Apart(o, s0) && Acts(o, s0, q) && Safe(o, s0, s)
    requires Local(o, s0, s, m, q) && Untried(s0, s, q)
    ensures Safe(o, s0, m)
  {
    IntactKept(o, s0, s, m, q);
    LosersStayKept(o, s0, s, m, q);
  }

  /** An action leaves the others as they were: untried ones untried, and finished ones finished. */
  lemma OthersKept(o: BisyncOptions, s0: Sides, s: Sides, m: Sides, q: string, r: string)
    requires Apart(o, s0) && Acts(o, s0, q) && Acts(o, s0, r) && q != r && Local(o, s0, s, m, q)
    ensures Untried(s0, s, r) ==> Untried(s0, m, r)
    ensures Landed(o, s0, s, r) ==> Landed(o, s0, m, r)
  {
    OwnPaths(o, s0, q, r);
    Elsewhere(o, s0, s, m, q, r);
    if o.strategy.KeepBoth? && Conflicts(o, s0, r) {
      assert Saves(o, s0, ConflictPath(o, r), r);
      Elsewhere(o, s0, s, m, q, ConflictPath(o, r));
    }
  }

  lemma SafeAtFirst(o: BisyncOptions, s0: Sides)
    ensures Safe(o, s0, s0)
  {
  }

  /** When every action has landed, the two sides are merged. */
  lemma AllLanded(o: BisyncOptions, s0: Sides, s: Sides)
    requires Apart(o, s0) && Intact(o, s0, s)
    requires forall q | Acts(o, s0, q) :: Landed(o, s0, s, q)
    ensures Merged(o, s0, s)
  {
    forall p
      ensures Meets(WantOne(o, s0, p), s0.one, s.one, p)
      ensures Meets(WantTwo(o, s0, p), s0.two, s.two, p)
    {
      if IsSave(o, s0, p) {
        var q := p[..|p| - |Suffix(o)|];
        assert Landed(o, s0, s, q);
      } else if Acts(o, s0, p) {
        assert Landed(o, s0, s, p);
      }
    }
  }
}
