/** The comparison phase of a bidirectional synchronization (object/sync/bisync.go). */
module BisyncPlan {
  import opened Wrappers
  import opened SyncModel
  import opened BisyncModel
  import SP = SyncPlan

  /** The files of one side, by path. */
  function SeenFiles(o: BisyncOptions, tree: Tree): Scan {
    map p | p in tree && Seen(o, tree, p) :: InfoOf(o, tree, p)
  }

  method SeenMap(side: Subtree, o: BisyncOptions) returns (files: Scan)
    ensures files == SeenFiles(o, side.files)
  {
    var listing := side.ListFiles(SyncOptions(o));
    files := SP.FileMap(listing, ScanOf(side.files, SyncOptions(o)));
  }

  /** Actions of the plan, each at most once. */
  ghost predicate IsOrder(o: BisyncOptions, s: Sides, actions: seq<Action>) {
    && (forall i, j | 0 <= i < j < |actions| :: actions[i].file.path != actions[j].file.path)
    && (forall i | 0 <= i < |actions| :: ActionFor(o, s, actions[i].file.path) == Some(actions[i]))
  }

  ghost predicate IsPlan(o: BisyncOptions, s: Sides, actions: seq<Action>) {
    IsOrder(o, s, actions) && forall p | Acts(o, s, p) :: ActionFor(o, s, p).value in actions
  }

  function AllSeen(o: BisyncOptions, s: Sides): set<string> {
    SeenFiles(o, s.one).Keys + SeenFiles(o, s.two).Keys
  }

  /** The actions for the paths of `done`, each once. */
  ghost predicate PlanFor(o: BisyncOptions, s: Sides, actions: seq<Action>, done: set<string>) {
    && (forall i, j | 0 <= i < j < |actions| :: actions[i].file.path != actions[j].file.path)
    && (forall i | 0 <= i < |actions| ::
          actions[i].file.path in done && ActionFor(o, s, actions[i].file.path) == Some(actions[i]))
    && forall p | p in done && Acts(o, s, p) :: ActionFor(o, s, p).value in actions
  }

  /** The action for a path, in terms of the two maps. */
  function Compared(o: BisyncOptions, map1: Scan, map2: Scan, p: string): Option<Action> {
    if p in map1 then
      if p !in map2 then Some(ToPath2(map1[p]))
      else if NeedsUpdate(map1[p], map2[p], SyncOptions(o)) || NeedsUpdate(map2[p], map1[p], SyncOptions(o)) then
        Some(Conflict(map1[p], map2[p]))
      else None
    else if p in map2 then Some(ToPath1(map2[p]))
    else None
  }

  function Extended(o: BisyncOptions, map1: Scan, map2: Scan, actions: seq<Action>, p: string): seq<Action> {
    match Compared(o, map1, map2, p)
    case Some(a) => actions + [a]
    case None => actions
  }

  ghost predicate AreMaps(o: BisyncOptions, s: Sides, map1: Scan, map2: Scan) {
    map1 == SeenFiles(o, s.one) && map2 == SeenFiles(o, s.two)
  }

  lemma PlanOneMore(o: BisyncOptions, s: Sides, map1: Scan, map2: Scan, actions: seq<Action>, done: set<string>, p: string)
    requires AreMaps(o, s, map1, map2) && PlanFor(o, s, actions, done) && p !in done
    ensures PlanFor(o, s, Extended(o, map1, map2, actions, p), done + {p})
  {
    assert ActionFor(o, s, p) == Compared(o, map1, map2, p);
    if Acts(o, s, p) {
      var more := actions + [ActionFor(o, s, p).value];
      assert more[|actions|] == ActionFor(o, s, p).value;
      forall r | r in done && Acts(o, s, r)
        ensures ActionFor(o, s, r).value in more
      {
        assert ActionFor(o, s, r).value in actions;
      }
    }
  }

  lemma PlanComplete(o: BisyncOptions, s: Sides, actions: seq<Action>)
    requires PlanFor(o, s, actions, AllSeen(o, s))
    ensures IsPlan(o, s, actions)
  {
    forall p | Acts(o, s, p)
      ensures p in AllSeen(o, s)
    {
      assert p in SeenFiles(o, s.one) || p in SeenFiles(o, s.two);
    }
  }

  /** The actions for paths in a given order. */
  function PlanOf(o: BisyncOptions, map1: Scan, map2: Scan, order: seq<string>): seq<Action> {
    if order == [] then []
    else
      var n := |order| - 1;
      Extended(o, map1, map2, PlanOf(o, map1, map2, order[..n]), order[n])
  }

  lemma PlanOfOneMore(o: BisyncOptions, map1: Scan, map2: Scan, order: seq<string>, p: string)
    ensures PlanOf(o, map1, map2, order + [p]) == Extended(o, map1, map2, PlanOf(o, map1, map2, order), p)
  {
    assert (order + [p])[..|order|] == order;
  }

  lemma {:induction false} PlanOfIsPlan(o: BisyncOptions, s: Sides, map1: Scan, map2: Scan, order: seq<string>, done: set<string>)
    requires AreMaps(o, s, map1, map2) && multiset(order) == multiset(done)
    ensures PlanFor(o, s, PlanOf(o, map1, map2, order), done)
    decreases |order|
  {
    if order == [] {
      assert done == {} by {
        forall p ensures p !in done { assert p !in multiset(order); }
      }
    } else {
      var n := |order| - 1;
      var p := order[n];
      assert order == order[..n] + [p];
      assert p in multiset(order);
      assert multiset(order) == multiset(order[..n]) + multiset{p};
      assert p in multiset(done) && multiset(done) == multiset(done - {p}) + multiset{p};
      assert multiset(order[..n]) == multiset(order) - multiset{p} == multiset(done - {p});
      PlanOfIsPlan(o, s, map1, map2, order[..n], done - {p});
      PlanOneMore(o, s, map1, map2, PlanOf(o, map1, map2, order[..n]), done - {p}, p);
      assert done - {p} + {p} == done;
    }
  }

  /** Compares the two maps; the order of the actions is arbitrary. */
  method PlanActions(map1: Scan, map2: Scan, o: BisyncOptions, ghost s: Sides)
    returns (actions: seq<Action>, skipped: nat)
    requires AreMaps(o, s, map1, map2)
    ensures IsPlan(o, s, actions)
    ensures |actions| + skipped == |AllSeen(o, s)|
  {
    ghost var order;
    actions, skipped, order := PlanBoth(map1, map2, o);
    assert map1.Keys + map2.Keys == AllSeen(o, s);
    PlanOfIsPlan(o, s, map1, map2, order, AllSeen(o, s));
    PlanComplete(o, s, actions);
    assert |order| == |multiset(order)| == |AllSeen(o, s)|;
  }

  /** Goes over the first map, and then over what is only in the second. */
  method PlanBoth(map1: Scan, map2: Scan, o: BisyncOptions)
    returns (actions: seq<Action>, skipped: nat, ghost order: seq<string>)
    ensures actions == PlanOf(o, map1, map2, order) && |actions| + skipped == |order|
    ensures multiset(order) == multiset(map1.Keys + map2.Keys)
  {
    actions, skipped, order := [], 0, [];
    var processed: set<string> := {};
    while processed != map1.Keys
      invariant processed <= map1.Keys && multiset(order) == multiset(processed)
      invariant actions == PlanOf(o, map1, map2, order) && |actions| + skipped == |order|
      decreases |map1.Keys - processed|
    {
      var p :| p in map1.Keys - processed;
      processed := processed + {p};
      PlanOfOneMore(o, map1, map2, order, p);
      order := order + [p];
      if p !in map2 {
        actions := actions + [ToPath2(map1[p])];
      } else if NeedsUpdate(map1[p], map2[p], SyncOptions(o)) || NeedsUpdate(map2[p], map1[p], SyncOptions(o)) {
        actions := actions + [Conflict(map1[p], map2[p])];
      } else {
        skipped := skipped + 1;
      }
    }
    actions, order := PlanRest(map1, map2, o, processed, actions, skipped, order);
  }

  lemma KeysUnited(a: set<string>, b: set<string>)
    ensures multiset(a) + multiset(b - a) == multiset(a + b)
  {
  }

  method PlanRest(map1: Scan, map2: Scan, o: BisyncOptions, processed: set<string>,
                  before: seq<Action>, ghost skipped: nat, ghost order0: seq<string>)
    returns (actions: seq<Action>, ghost order: seq<string>)
    requires processed == map1.Keys && multiset(order0) == multiset(processed)
    requires before == PlanOf(o, map1, map2, order0) && |before| + skipped == |order0|
    ensures actions == PlanOf(o, map1, map2, order) && |actions| + skipped == |order|
    ensures multiset(order) == multiset(map1.Keys + map2.Keys)
  {
    actions, order := before, order0;
    var left := map2.Keys - processed;
    ghost var all := multiset(order) + multiset(left);
    KeysUnited(map1.Keys, map2.Keys);
    while left != {}
      invariant multiset(order) + multiset(left) == all
      invariant left <= map2.Keys - processed
      invariant actions == PlanOf(o, map1, map2, order) && |actions| + skipped == |order|
      decreases |left|
    {
      var p :| p in left;
      assert multiset(left) == multiset(left - {p}) + multiset{p};
      left := left - {p};
      PlanOfOneMore(o, map1, map2, order, p);
      order := order + [p];
      actions := actions + [ToPath1(map2[p])];
    }
  }
}
