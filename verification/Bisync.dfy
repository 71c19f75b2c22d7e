/** The run of a bidirectional synchronization (object/sync/bisync.go). */
module Bisync {
  import opened Wrappers
  import opened SyncModel
  import opened BisyncModel
  import opened BisyncPlan
  import opened BisyncSafety
  import opened BisyncCounts
  import opened BisyncCopies
  import opened BisyncRecord
  import opened BisyncOutcome
  import opened BisyncMeaning

  /** The strategy reports every conflict as an error. */
  predicate Refuses(o: BisyncOptions) {
    o.strategy.Report? || o.strategy.Unknown?
  }

  /** Copies a file that only one side has. */
  method CopyDirection(one: Subtree, two: Subtree, file: FileInfo, toPath2: bool, mayFail: bool, o: BisyncOptions, r: BisyncResult,
                       ghost s0: Sides)
    returns (r': BisyncResult, ok: bool, ghost trace: seq<Sides>)
    requires one != two
    requires ActionFor(o, s0, file.path) == Some(if toPath2 then ToPath2(file) else ToPath1(file))
    modifies one, two
    ensures AllLocal(o, s0, old(Sides(one.files, two.files)), trace, file.path)
    ensures Chain(old(Sides(one.files, two.files)), trace, Sides(one.files, two.files))
    ensures Local(o, s0, old(Sides(one.files, two.files)), Sides(one.files, two.files), file.path)
    ensures o.dryRun ==> ok && one.files == old(one.files) && two.files == old(two.files)
    ensures ok && !o.dryRun ==> Achieved(o, s0, old(Sides(one.files, two.files)), Sides(one.files, two.files), file.path)
    ensures !mayFail && old(Untried(s0, Sides(one.files, two.files), file.path)) ==> ok
    ensures Records(o, s0, r, r', if toPath2 then ToPath2(file) else ToPath1(file))
    ensures ok <==> r'.errors == r.errors
  {
    ok, trace := true, [];
    if !o.dryRun {
      ok, trace := CopyOver(one, two, toPath2, file.path, mayFail, o, s0);
      if !ok {
        r' := r.(errors := r.errors + [FileError(file.path, if toPath2 then "copy-to-path2" else "copy-to-path1")]);
        return;
      }
    }
    if toPath2 {
      r' := r.(copiedToPath2 := r.copiedToPath2 + 1);
    } else {
      r' := r.(copiedToPath1 := r.copiedToPath1 + 1);
    }
    r' := r'.(bytes := r'.bytes + file.size);
  }

  /** Resolves a conflict and records it, with an error if that failed. */
  method HandleConflict(one: Subtree, two: Subtree, file1: FileInfo, file2: FileInfo, mayFail: bool, o: BisyncOptions, r: BisyncResult,
                        ghost s0: Sides)
    returns (r': BisyncResult, ghost trace: seq<Sides>)
    requires one != two && file1.path == file2.path
    requires ActionFor(o, s0, file1.path) == Some(Conflict(file1, file2))
    modifies one, two
    ensures AllLocal(o, s0, old(Sides(one.files, two.files)), trace, file1.path)
    ensures Chain(old(Sides(one.files, two.files)), trace, Sides(one.files, two.files))
    ensures Local(o, s0, old(Sides(one.files, two.files)), Sides(one.files, two.files), file1.path)
    ensures o.dryRun ==> one.files == old(one.files) && two.files == old(two.files)
    ensures r'.errors == r.errors && !o.dryRun ==> Achieved(o, s0, old(Sides(one.files, two.files)), Sides(one.files, two.files), file1.path)
    ensures Records(o, s0, r, r', Conflict(file1, file2))
    ensures Refuses(o) ==> r'.errors != r.errors
    ensures (!mayFail || o.dryRun) && !Refuses(o) && old(Untried(s0, Sides(one.files, two.files), file1.path)) ==> r'.errors == r.errors
  {
    var direction, ok;
    direction, ok, trace := ResolveConflict(one, two, file1, file2, mayFail, o, s0);
    r' := r;
    if !ok {
      r' := r'.(errors := r'.errors + [FileError(file1.path, "conflict")]);
    } else if !o.dryRun {
      match direction {
        case To1 =>
          r' := r'.(updatedInPath1 := r'.updatedInPath1 + 1, bytes := r'.bytes + file2.size);
        case To2 =>
          r' := r'.(updatedInPath2 := r'.updatedInPath2 + 1, bytes := r'.bytes + file1.size);
        case Both =>
          r' := r'.(updatedInPath1 := r'.updatedInPath1 + 1, updatedInPath2 := r'.updatedInPath2 + 1,
                    bytes := r'.bytes + file1.size + file2.size);
        case Neither =>
      }
    }
    r' := r'.(conflicts := r'.conflicts + [ConflictEntry(file1.path, file1, file2, ok)]);
  }

  // ----- the loop over the actions -----

  ghost predicate TraceSafe(o: BisyncOptions, s0: Sides, trace: seq<Sides>) {
    forall i | 0 <= i < |trace| :: Safe(o, s0, trace[i])
  }

  function PathsOf(actions: seq<Action>): set<string> {
    set i | 0 <= i < |actions| :: actions[i].file.path
  }

  /** An error has a cause: a broken path, a cancelling caller, or a strategy that reports conflicts. */
  ghost predicate Caused(o: BisyncOptions, ambient: Ambient, errors: seq<FileError>) {
    forall i | 0 <= i < |errors| :: MayFail(ambient, errors[i].path) || (Refuses(o) && errors[i].op == "conflict")
  }

  /** Before the action at `i`: the moments so far are safe, the actions to come untried, the others done or reported. */
  ghost predicate Progress(o: BisyncOptions, ambient: Ambient, s0: Sides, actions: seq<Action>, i: nat, s: Sides, trace: seq<Sides>,
                           r: BisyncResult)
  {
    && TraceSafe(o, s0, trace) && Safe(o, s0, s)
    && (forall k | i <= k < |actions| :: Untried(s0, s, actions[k].file.path))
    && (!o.dryRun ==> forall k | 0 <= k < i && k < |actions| && actions[k].file.path !in FailedPaths(r.errors) ::
          Landed(o, s0, s, actions[k].file.path))
    && Caused(o, ambient, r.errors)
  }

  lemma ProgressKept(o: BisyncOptions, ambient: Ambient, s0: Sides, actions: seq<Action>, i: nat, s: Sides, trace: seq<Sides>,
                     r: BisyncResult, s': Sides, trace': seq<Sides>, r': BisyncResult)
    requires Apart(o, s0) && IsPlan(o, s0, actions) && i < |actions| && Progress(o, ambient, s0, actions, i, s, trace, r)
    requires AllLocal(o, s0, s, trace', actions[i].file.path) && Local(o, s0, s, s', actions[i].file.path)
    requires Records(o, s0, r, r', actions[i])
    requires r'.errors == r.errors && !o.dryRun ==> Achieved(o, s0, s, s', actions[i].file.path)
    requires r'.errors != r.errors && Untried(s0, s, actions[i].file.path) ==>
               MayFail(ambient, actions[i].file.path) || (Refuses(o) && actions[i].Conflict?)
    ensures Progress(o, ambient, s0, actions, i + 1, s', trace + trace', r')
  {
    var q := actions[i].file.path;
    ErrorAppended(r.errors, FileError(q, OpOf(actions[i])));
    StepSafe(o, s0, s, s', q);
    if r'.errors == r.errors && !o.dryRun {
      AchievedLands(o, s0, s, s', q);
    }
    forall k | 0 <= k < |trace'|
      ensures Safe(o, s0, trace'[k])
    {
      StepSafe(o, s0, s, trace'[k], q);
    }
    forall k | 0 <= k < |actions| && k != i
      ensures Untried(s0, s, actions[k].file.path) ==> Untried(s0, s', actions[k].file.path)
      ensures Landed(o, s0, s, actions[k].file.path) ==> Landed(o, s0, s', actions[k].file.path)
    {
      OthersKept(o, s0, s, s', q, actions[k].file.path);
    }
  }

  /** Nothing but paths of actions and conflict paths is ever touched, even where they collide. */
  ghost predicate Fenced(o: BisyncOptions, s0: Sides, s: Sides) {
    forall p | !Acts(o, s0, p) && !IsSave(o, s0, p) :: Same(s.one, s0.one, p) && Same(s.two, s0.two, p)
  }

  lemma FencedKept(o: BisyncOptions, s0: Sides, s: Sides, m: Sides, q: string)
    requires Acts(o, s0, q) && Fenced(o, s0, s) && Local(o, s0, s, m, q)
    ensures Fenced(o, s0, m)
  {
    forall p | !Acts(o, s0, p) && !IsSave(o, s0, p)
      ensures Same(m.one, s0.one, p) && Same(m.two, s0.two, p)
    {
      if Saves(o, s0, p, q) {
        SavedBy(o, s0, p, q);
      } else {
        Elsewhere(o, s0, s, m, q, p);
      }
    }
  }

  /** Carries out one action; `failed` if it is a one-sided copy that failed. */
  method Perform(one: Subtree, two: Subtree, a: Action, o: BisyncOptions, ambient: Ambient, r: BisyncResult, ghost s0: Sides)
    returns (r': BisyncResult, failed: bool, ghost trace: seq<Sides>)
    requires one != two && ActionFor(o, s0, a.file.path) == Some(a)
    modifies one, two
    ensures AllLocal(o, s0, old(Sides(one.files, two.files)), trace, a.file.path)
    ensures Chain(old(Sides(one.files, two.files)), trace, Sides(one.files, two.files))
    ensures Local(o, s0, old(Sides(one.files, two.files)), Sides(one.files, two.files), a.file.path)
    ensures o.dryRun ==> one.files == old(one.files) && two.files == old(two.files)
    ensures r'.errors == r.errors && !o.dryRun ==> Achieved(o, s0, old(Sides(one.files, two.files)), Sides(one.files, two.files), a.file.path)
    ensures Records(o, s0, r, r', a)
    ensures failed <==> r'.errors != r.errors && !a.Conflict?
    ensures r'.errors != r.errors && old(Untried(s0, Sides(one.files, two.files), a.file.path)) ==>
              MayFail(ambient, a.file.path) || (Refuses(o) && a.Conflict?)
  {
    failed := false;
    match a {
      case ToPath2(file) =>
        var ok;
        r', ok, trace := CopyDirection(one, two, file, true, MayFail(ambient, file.path), o, r, s0);
        failed := !ok;
      case ToPath1(file) =>
        var ok;
        r', ok, trace := CopyDirection(one, two, file, false, MayFail(ambient, file.path), o, r, s0);
        failed := !ok;
      case Conflict(file, other) =>
        r', trace := HandleConflict(one, two, file, other, MayFail(ambient, file.path), o, r, s0);
    }
  }

  /**
   What holds at any moment of a run, and after it: write by write, whatever copies fail and whatever they leave
   behind, only planned paths change, and unless a conflict path is itself to be copied every moment is safe.  Under
   KeepBoth with free conflict paths no file is lost at any moment.
   */
  ghost predicate SafeRun(o: BisyncOptions, s0: Sides, trace: seq<Sides>, s: Sides) {
    && Chain(s0, trace, s) && Fenced(o, s0, s)
    && (Apart(o, s0) ==> TraceSafe(o, s0, trace) && Safe(o, s0, s))
    && (Apart(o, s0) ==> Guarded(o, s0, s) && forall i | 0 <= i < |trace| :: Guarded(o, s0, trace[i]))
    && (o.strategy.KeepBoth? && NoCollision(o, s0) ==>
          AllStored(o, s0, s) && forall i | 0 <= i < |trace| :: AllStored(o, s0, trace[i]))
  }

  /**
   What a run leaves that carried out the actions for `done`: each of them without an error has landed, the others are
   untried, and if these are all actions and none has an error, the sides are merged.
   */
  ghost predicate Outcome(o: BisyncOptions, s0: Sides, s: Sides, done: set<string>, errors: seq<FileError>) {
    Apart(o, s0) ==>
      && (!o.dryRun ==> forall q | q in done && q !in FailedPaths(errors) :: Landed(o, s0, s, q))
      && (forall q | Acts(o, s0, q) && q !in done :: Untried(s0, s, q))
      && (!o.dryRun && done == AllActing(o, s0) && errors == [] ==> Merged(o, s0, s))
  }

  /** The record, the outcome and the states of a run that carried out the actions in `order`. */
  ghost predicate Reported(o: BisyncOptions, s0: Sides, s: Sides, order: seq<Action>, states: seq<Sides>, r: BisyncResult) {
    && IsOrder(o, s0, order)
    && Ran(o, s0, order, states, FailedPaths(r.errors)) && states[|order|] == s
    && Tallied(o, s0, r, PathsOf(order))
    && Outcome(o, s0, s, PathsOf(order), r.errors)
  }

  /**
   Bisync.  Besides the safety of the run and its outcome: `order` are the actions carried out, which are all unless
   the run is cancelled or stopped, and `states` the states between them, each achieved by its action even where
   conflict paths collide.  The record is that of these actions, so they, the errors and the initial trees determine
   every counter and the conflicts; skipped files are those that call for no action; and errors have causes, so a run
   in which nothing goes wrong has none, except from a strategy that reports conflicts.
   */
  method Bisync(one: Subtree, two: Subtree, o: BisyncOptions, ambient: Ambient)
    returns (r: BisyncResult, status: Status, ghost trace: seq<Sides>, ghost order: seq<Action>, ghost states: seq<Sides>)
    requires one != two
    modifies one, two
    ensures status.ListingFailed? ==> !ambient.lists && trace == []
    ensures status.Cancelled? ==> ambient.cancels
    ensures status.ListingFailed? || o.dryRun ==> one.files == old(one.files) && two.files == old(two.files)
    ensures SafeRun(o, old(Sides(one.files, two.files)), trace, Sides(one.files, two.files))
    ensures Apart(o, old(Sides(one.files, two.files))) ==> Caused(o, ambient, r.errors)
    ensures !status.ListingFailed? ==>
              r.skipped == |AllSeen(o, old(Sides(one.files, two.files))) - AllActing(o, old(Sides(one.files, two.files)))|
    ensures Reported(o, old(Sides(one.files, two.files)), Sides(one.files, two.files), order, states, r)
    ensures StoppedInTime(o, r.errors)
    ensures status.Finished? && !LimitHit(o, r.errors) ==> IsPlan(o, old(Sides(one.files, two.files)), order)
    ensures status.Finished? && (o.maxErrors <= 0 || |r.errors| < o.maxErrors) ==>
              IsPlan(o, old(Sides(one.files, two.files)), order)
    ensures !status.ListingFailed? ==> r.skipped == |InStepPaths(o, old(Sides(one.files, two.files)))|
    ensures !o.dryRun && Apart(o, old(Sides(one.files, two.files))) ==>
              EachSettled(o, old(Sides(one.files, two.files)), Sides(one.files, two.files), order, FailedPaths(r.errors))
    ensures status.Finished? && r.errors == [] ==> Told(o, old(Sides(one.files, two.files)), r)
    ensures status.Finished? && r.errors == [] && !o.dryRun && Apart(o, old(Sides(one.files, two.files))) ==>
              Settled(o, old(Sides(one.files, two.files)), Sides(one.files, two.files))
  {
    ghost var s0 := Sides(one.files, two.files);
    r, trace, order, states := BisyncResult(0, 0, 0, 0, [], 0, [], 0), [], [], [s0];
    if !ambient.lists {
      var listed: bool := *;
      if !listed {
        NothingDone(o, s0, r);
        return r, ListingFailed, trace, order, states;
      }
    }
    var map1 := SeenMap(one, o);
    var map2 := SeenMap(two, o);
    var actions, skipped := PlanActions(map1, map2, o, s0);
    r := r.(skipped := skipped);
    SkippedFiles(o, s0, actions, skipped);
    SkippedInStep(o, s0);
    var reached;
    r, status, trace, states, reached := RunActions(one, two, actions, o, ambient, r);
    order := actions[..reached];
    RunEnds(o, ambient, s0, actions, reached, Sides(one.files, two.files), trace, states, r);
    DoneIsSettled(o, s0, Sides(one.files, two.files), order, r.errors);
    if status.Finished? && r.errors == [] {
      CleanEnd(o, s0, Sides(one.files, two.files), order, r);
    }
  }

  /** Every action carried out without an error has settled its path. */
  ghost predicate EachSettled(o: BisyncOptions, s0: Sides, s: Sides, order: seq<Action>, failed: set<string>) {
    forall i | 0 <= i < |order| && order[i].file.path !in failed :: SettledAt(o, s0, s, order[i].file.path)
  }

  lemma DoneIsSettled(o: BisyncOptions, s0: Sides, s: Sides, order: seq<Action>, errors: seq<FileError>)
    requires IsOrder(o, s0, order) && Outcome(o, s0, s, PathsOf(order), errors) && (Apart(o, s0) ==> Safe(o, s0, s))
    ensures !o.dryRun && Apart(o, s0) ==> EachSettled(o, s0, s, order, FailedPaths(errors))
  {
    if !o.dryRun && Apart(o, s0) {
      forall i | 0 <= i < |order| && order[i].file.path !in FailedPaths(errors)
        ensures SettledAt(o, s0, s, order[i].file.path)
      {
        assert order[i].file.path in PathsOf(order);
        LandedMeans(o, s0, s, order[i].file.path);
      }
    }
  }

  /** What the record of a run without errors counts. */
  ghost predicate Told(o: BisyncOptions, s: Sides, r: BisyncResult) {
    && r.copiedToPath2 == |OneOnlyPaths(o, s)| && r.copiedToPath1 == |TwoOnlyPaths(o, s)|
    && r.updatedInPath2 == (if o.dryRun then 0 else |WrittenInTwo(o, s)|)
    && r.updatedInPath1 == (if o.dryRun then 0 else |WrittenInOne(o, s)|)
    && ConflictPaths(r.conflicts) == ClashPaths(o, s) && |r.conflicts| == |ClashPaths(o, s)|
  }

  lemma CleanEnd(o: BisyncOptions, s0: Sides, s: Sides, order: seq<Action>, r: BisyncResult)
    requires IsPlan(o, s0, order) && r.errors == []
    requires Tallied(o, s0, r, PathsOf(order)) && Outcome(o, s0, s, PathsOf(order), r.errors)
    ensures Told(o, s0, r)
    ensures Apart(o, s0) && !o.dryRun ==> Settled(o, s0, s)
  {
    assert order[..|order|] == order;
    PlanPaths(o, s0, order);
    if Apart(o, s0) && !o.dryRun {
      MergedMeans(o, s0, s);
    }
    CleanRecord(o, s0, r);
  }

  lemma CleanRecord(o: BisyncOptions, s: Sides, r: BisyncResult)
    requires Tallied(o, s, r, AllActing(o, s)) && r.errors == []
    ensures Told(o, s, r)
  {
    var acting := AllActing(o, s);
    assert acting - FailedPaths(r.errors) == acting;
    ActingMeans(o, s);
    CountsMean(o, s, acting);
    ReadingCounts(o, s, r, acting, CopiedTo1);
    ReadingCounts(o, s, r, acting, CopiedTo2);
    ReadingCounts(o, s, r, acting, UpdatedIn1);
    ReadingCounts(o, s, r, acting, UpdatedIn2);
  }

  lemma SkippedInStep(o: BisyncOptions, s: Sides)
    ensures AllSeen(o, s) - AllActing(o, s) == InStepPaths(o, s)
  {
    forall p
      ensures p in AllSeen(o, s) - AllActing(o, s) <==> p in InStepPaths(o, s)
    {
      ActionsMean(o, s, p);
      ActsIsSeen(o, s, p);
      assert p in AllSeen(o, s) <==> Offers(o, s.one, p) || Offers(o, s.two, p);
    }
  }

  lemma ReadingCounts(o: BisyncOptions, s: Sides, r: BisyncResult, paths: set<string>, m: Meter)
    requires CountsPaths(o, s, r, paths) && !m.Transferred?
    ensures Reading(r, m) == |Counted(o, s, paths, m)|
  {
    TotalCounts(o, s, paths, m);
  }

  lemma ActingMeans(o: BisyncOptions, s: Sides)
    ensures forall p :: p in AllActing(o, s) <==> Acts(o, s, p)
    ensures ConflictsAmong(o, s, AllActing(o, s)) == ClashPaths(o, s)
  {
    forall p
      ensures p in AllActing(o, s) <==> Acts(o, s, p)
      ensures p in ConflictsAmong(o, s, AllActing(o, s)) <==> p in ClashPaths(o, s)
    {
      if Acts(o, s, p) {
        ActsIsSeen(o, s, p);
      }
      ActionsMean(o, s, p);
    }
  }

  lemma RunEnds(o: BisyncOptions, ambient: Ambient, s0: Sides, actions: seq<Action>, i: nat, s: Sides, trace: seq<Sides>,
                states: seq<Sides>, r: BisyncResult)
    requires IsPlan(o, s0, actions) && LoopInv(o, ambient, s0, actions, i, s, trace, states, r)
    ensures SafeRun(o, s0, trace, s) && (Apart(o, s0) ==> Caused(o, ambient, r.errors))
    ensures Reported(o, s0, s, actions[..i], states, r)
    ensures i == |actions| ==> IsPlan(o, s0, actions[..i])
  {
    NothingLostSoFar(o, s0, trace, s);
    GuardedSoFar(o, s0, trace, s);
    DoneSoFar(o, ambient, s0, actions, i, s, trace, states, r);
    if i == |actions| {
      assert actions[..i] == actions;
    }
  }

  lemma NothingDone(o: BisyncOptions, s0: Sides, r: BisyncResult)
    requires r == BisyncResult(0, 0, 0, 0, [], r.skipped, [], 0)
    ensures SafeRun(o, s0, [], s0) && Reported(o, s0, s0, [], [s0], r)
  {
    SafeAtFirst(o, s0);
    NothingLostSoFar(o, s0, [], s0);
    GuardedSoFar(o, s0, [], s0);
    TalliedAtFirst(o, s0, r);
    assert PathsOf([]) == {};
    if Apart(o, s0) && AllActing(o, s0) == {} {
      forall q
        ensures !Acts(o, s0, q)
      {
        ActsIsSeen(o, s0, q);
      }
      AllLanded(o, s0, s0);
    }
  }

  lemma DoneSoFar(o: BisyncOptions, ambient: Ambient, s0: Sides, actions: seq<Action>, i: nat, s: Sides, trace: seq<Sides>,
                  states: seq<Sides>, r: BisyncResult)
    requires IsPlan(o, s0, actions) && LoopInv(o, ambient, s0, actions, i, s, trace, states, r)
    ensures PathsOf(actions[..i]) <= AllActing(o, s0)
    ensures i == |actions| ==> PathsOf(actions[..i]) == AllActing(o, s0)
    ensures Outcome(o, s0, s, PathsOf(actions[..i]), r.errors)
  {
    PlanPaths(o, s0, actions);
    var done := PathsOf(actions[..i]);
    forall q | Acts(o, s0, q)
      ensures exists k :: 0 <= k < |actions| && actions[k].file.path == q && (q in done <==> k < i)
    {
      var k := ActionAt(o, s0, actions, i, q);
    }
    forall q | q in done
      ensures Acts(o, s0, q)
    {
      var k :| 0 <= k < i && actions[..i][k].file.path == q;
      assert actions[k].file.path == q;
    }
    forall q | q in done
      ensures q in AllActing(o, s0)
    {
      ActsIsSeen(o, s0, q);
    }
    if Apart(o, s0) && !o.dryRun && done == AllActing(o, s0) && r.errors == [] {
      forall q | Acts(o, s0, q)
        ensures Landed(o, s0, s, q)
      {
        ActsIsSeen(o, s0, q);
        var k :| 0 <= k < |actions| && actions[k].file.path == q && (q in done <==> k < i);
      }
      AllLanded(o, s0, s);
    }
  }

  lemma ActsIsSeen(o: BisyncOptions, s: Sides, q: string)
    ensures Acts(o, s, q) ==> q in AllActing(o, s)
  {
    assert Acts(o, s, q) ==> q in SeenFiles(o, s.one) || q in SeenFiles(o, s.two);
  }

  /** The position of the action for `q`. */
  lemma ActionAt(o: BisyncOptions, s0: Sides, actions: seq<Action>, i: nat, q: string) returns (k: nat)
    requires IsPlan(o, s0, actions) && i <= |actions| && Acts(o, s0, q)
    ensures k < |actions| && actions[k].file.path == q && (q in PathsOf(actions[..i]) <==> k < i)
  {
    k :| 0 <= k < |actions| && actions[k] == ActionFor(o, s0, q).value;
    assert actions[k].file.path == q;
    if q in PathsOf(actions[..i]) {
      var j :| 0 <= j < i && actions[..i][j].file.path == q;
      assert actions[j].file.path == q;
    }
    if k < i {
      assert actions[..i][k].file.path == q;
    }
  }

  lemma NothingLostSoFar(o: BisyncOptions, s0: Sides, trace: seq<Sides>, s: Sides)
    requires Apart(o, s0) ==> TraceSafe(o, s0, trace) && Safe(o, s0, s)
    ensures o.strategy.KeepBoth? && NoCollision(o, s0) ==>
              AllStored(o, s0, s) && forall i | 0 <= i < |trace| :: AllStored(o, s0, trace[i])
  {
    if o.strategy.KeepBoth? && NoCollision(o, s0) {
      FreePathsAreApart(o, s0);
      NothingLost(o, s0, s);
      forall i | 0 <= i < |trace|
        ensures AllStored(o, s0, trace[i])
      {
        NothingLost(o, s0, trace[i]);
      }
    }
  }

  lemma GuardedSoFar(o: BisyncOptions, s0: Sides, trace: seq<Sides>, s: Sides)
    requires Apart(o, s0) ==> TraceSafe(o, s0, trace) && Safe(o, s0, s)
    ensures Apart(o, s0) ==> Guarded(o, s0, s) && forall i | 0 <= i < |trace| :: Guarded(o, s0, trace[i])
  {
    if Apart(o, s0) {
      SafeMeans(o, s0, s);
      forall i | 0 <= i < |trace|
        ensures Guarded(o, s0, trace[i])
      {
        SafeMeans(o, s0, trace[i]);
      }
    }
  }

  /** What holds before the action at `i`. */
  ghost predicate LoopInv(o: BisyncOptions, ambient: Ambient, s0: Sides, actions: seq<Action>, i: nat, s: Sides,
                          trace: seq<Sides>, states: seq<Sides>, r: BisyncResult)
  {
    && i <= |actions|
    && (o.dryRun ==> s == s0)
    && Chain(s0, trace, s)
    && Fenced(o, s0, s)
    && (Apart(o, s0) ==> Progress(o, ambient, s0, actions, i, s, trace, r))
    && Tallied(o, s0, r, PathsOf(actions[..i]))
    && Ran(o, s0, actions[..i], states, FailedPaths(r.errors)) && states[i] == s
  }

  /** One action keeps the loop invariant. */
  lemma LoopInvKept(o: BisyncOptions, ambient: Ambient, s0: Sides, actions: seq<Action>, i: nat, s: Sides, trace: seq<Sides>,
                    states: seq<Sides>, r: BisyncResult, s': Sides, moments: seq<Sides>, r': BisyncResult)
    requires IsPlan(o, s0, actions) && i < |actions| && LoopInv(o, ambient, s0, actions, i, s, trace, states, r)
    requires AllLocal(o, s0, s, moments, actions[i].file.path) && Chain(s, moments, s')
    requires Local(o, s0, s, s', actions[i].file.path) && (o.dryRun ==> s' == s)
    requires r'.errors == r.errors && !o.dryRun ==> Achieved(o, s0, s, s', actions[i].file.path)
    requires Records(o, s0, r, r', actions[i])
    requires r'.errors != r.errors && Untried(s0, s, actions[i].file.path) ==>
               MayFail(ambient, actions[i].file.path) || (Refuses(o) && actions[i].Conflict?)
    ensures LoopInv(o, ambient, s0, actions, i + 1, s', trace + moments, states + [s'], r')
  {
    var q := actions[i].file.path;
    if Apart(o, s0) {
      ProgressKept(o, ambient, s0, actions, i, s, trace, r, s', moments, r');
    }
    FencedKept(o, s0, s, s', q);
    ChainJoin(s0, trace, s, moments, s');
    OneMorePath(o, s0, actions, i);
    TalliedOneMore(o, s0, r, r', PathsOf(actions[..i]), actions[i]);
    RanKept(o, s0, actions, i, s, states, r, s', r');
  }

  lemma RanKept(o: BisyncOptions, s0: Sides, actions: seq<Action>, i: nat, s: Sides, states: seq<Sides>, r: BisyncResult, s': Sides, r': BisyncResult)
    requires i < |actions| && Ran(o, s0, actions[..i], states, FailedPaths(r.errors)) && states[i] == s
    requires Local(o, s0, s, s', actions[i].file.path) && Records(o, s0, r, r', actions[i])
    requires r'.errors == r.errors && !o.dryRun ==> Achieved(o, s0, s, s', actions[i].file.path)
    ensures Ran(o, s0, actions[..i + 1], states + [s'], FailedPaths(r'.errors)) && (states + [s'])[i + 1] == s'
  {
    ErrorAppended(r.errors, FileError(actions[i].file.path, OpOf(actions[i])));
    RanMore(o, s0, actions, i, states, FailedPaths(r.errors), s', FailedPaths(r'.errors));
  }

  /** One turn of the loop. */
  method Turn(one: Subtree, two: Subtree, actions: seq<Action>, i: nat, o: BisyncOptions, ambient: Ambient, r: BisyncResult,
              ghost s0: Sides, ghost trace: seq<Sides>, ghost states: seq<Sides>)
    returns (r': BisyncResult, failed: bool, ghost trace': seq<Sides>, ghost states': seq<Sides>)
    requires one != two && IsPlan(o, s0, actions) && i < |actions|
    requires LoopInv(o, ambient, s0, actions, i, Sides(one.files, two.files), trace, states, r)
    modifies one, two
    ensures LoopInv(o, ambient, s0, actions, i + 1, Sides(one.files, two.files), trace', states', r')
    ensures r'.skipped == r.skipped && r.errors <= r'.errors && |r'.errors| <= |r.errors| + 1
    ensures !LimitHit(o, r.errors) ==> (LimitHit(o, r'.errors) <==> failed && o.maxErrors > 0 && |r'.errors| >= o.maxErrors)
  {
    ghost var s := Sides(one.files, two.files);
    ghost var moments;
    r', failed, moments := Perform(one, two, actions[i], o, ambient, r, s0);
    ghost var s' := Sides(one.files, two.files);
    trace', states' := trace + moments, states + [s'];
    RecordsGrow(o, s0, r, r', actions[i]);
    LoopInvKept(o, ambient, s0, actions, i, s, trace, states, r, s', moments, r');
  }

  /** One pass through the loop: a look at the caller's context, then one action. */
  method Pass(one: Subtree, two: Subtree, actions: seq<Action>, i: nat, o: BisyncOptions, ambient: Ambient, r: BisyncResult,
              ghost s0: Sides, ghost trace: seq<Sides>, ghost states: seq<Sides>)
    returns (r': BisyncResult, cancelled: bool, stopped: bool, i': nat, ghost trace': seq<Sides>, ghost states': seq<Sides>)
    requires one != two && IsPlan(o, s0, actions) && i < |actions| && !LimitHit(o, r.errors) && StoppedInTime(o, r.errors)
    requires LoopInv(o, ambient, s0, actions, i, Sides(one.files, two.files), trace, states, r)
    modifies one, two
    ensures LoopInv(o, ambient, s0, actions, i', Sides(one.files, two.files), trace', states', r')
    ensures r'.skipped == r.skipped && (cancelled ==> ambient.cancels) && (stopped <==> LimitHit(o, r'.errors))
    ensures StoppedInTime(o, r'.errors)
    ensures i' == if cancelled then i else i + 1
  {
    cancelled := *;
    cancelled := cancelled && ambient.cancels;
    if cancelled {
      return r, true, false, i, trace, states;
    }
    var failed;
    r', failed, trace', states' := Turn(one, two, actions, i, o, ambient, r, s0, trace, states);
    stopped := failed && o.maxErrors > 0 && |r'.errors| >= o.maxErrors;
    InTimeOneMore(o, r.errors, r'.errors);
    i' := i + 1;
  }

  /** The loop. */
  method RunActions(one: Subtree, two: Subtree, actions: seq<Action>, o: BisyncOptions, ambient: Ambient, r0: BisyncResult)
    returns (r: BisyncResult, status: Status, ghost trace: seq<Sides>, ghost states: seq<Sides>, reached: nat)
    requires one != two && IsPlan(o, Sides(one.files, two.files), actions)
    requires r0 == BisyncResult(0, 0, 0, 0, [], r0.skipped, [], 0)
    modifies one, two
    ensures !status.ListingFailed? && (status.Cancelled? ==> ambient.cancels)
    ensures LoopInv(o, ambient, old(Sides(one.files, two.files)), actions, reached, Sides(one.files, two.files), trace, states, r)
    ensures status.Finished? && !LimitHit(o, r.errors) ==> reached == |actions|
    ensures r.skipped == r0.skipped && StoppedInTime(o, r.errors)
  {
    ghost var s0 := Sides(one.files, two.files);
    var cancelled, stopped := false, false;
    r, trace, states, reached := r0, [], [s0], 0;
    LoopStarts(o, ambient, s0, actions, r0);
    while reached < |actions| && !stopped && !cancelled
      invariant LoopInv(o, ambient, s0, actions, reached, Sides(one.files, two.files), trace, states, r)
      invariant r.skipped == r0.skipped && (cancelled ==> ambient.cancels) && (stopped <==> LimitHit(o, r.errors))
      invariant StoppedInTime(o, r.errors)
      decreases |actions| - reached, if cancelled then 0 else 1
    {
      r, cancelled, stopped, reached, trace, states := Pass(one, two, actions, reached, o, ambient, r, s0, trace, states);
    }
    status := if cancelled then Cancelled else Finished;
  }

  lemma LoopStarts(o: BisyncOptions, ambient: Ambient, s0: Sides, actions: seq<Action>, r: BisyncResult)
    requires r == BisyncResult(0, 0, 0, 0, [], r.skipped, [], 0)
    ensures LoopInv(o, ambient, s0, actions, 0, s0, [], [s0], r)
  {
    SafeAtFirst(o, s0);
    TalliedAtFirst(o, s0, r);
    assert PathsOf(actions[..0]) == {};
  }

  /** The paths that call for an action. */
  function AllActing(o: BisyncOptions, s: Sides): set<string> {
    set p | p in AllSeen(o, s) && Acts(o, s, p)
  }

  lemma OneMorePath(o: BisyncOptions, s: Sides, actions: seq<Action>, i: nat)
    requires IsPlan(o, s, actions) && i < |actions|
    ensures PathsOf(actions[..i + 1]) == PathsOf(actions[..i]) + {actions[i].file.path}
    ensures actions[i].file.path !in PathsOf(actions[..i])
    ensures Acts(o, s, actions[i].file.path)
  {
    var before, after := actions[..i], actions[..i + 1];
    assert after == before + [actions[i]];
    assert after[i] == actions[i];
    forall k | 0 <= k < i
      ensures after[k] == before[k] && before[k].file.path != actions[i].file.path
    {
    }
  }

  lemma PlanPaths(o: BisyncOptions, s: Sides, actions: seq<Action>)
    requires IsPlan(o, s, actions)
    ensures PathsOf(actions[..|actions|]) == AllActing(o, s)
  {
    assert actions[..|actions|] == actions;
    forall p | Acts(o, s, p)
      ensures p in PathsOf(actions)
    {
      var k :| 0 <= k < |actions| && actions[k] == ActionFor(o, s, p).value;
      assert actions[k].file.path == p;
    }
    forall p | p in PathsOf(actions)
      ensures p in AllSeen(o, s)
    {
      assert p in SeenFiles(o, s.one) || p in SeenFiles(o, s.two);
    }
  }

  lemma {:induction false} PathCount(o: BisyncOptions, s: Sides, actions: seq<Action>, i: nat)
    requires IsPlan(o, s, actions) && i <= |actions|
    ensures |PathsOf(actions[..i])| == i
  {
    if i > 0 {
      PathCount(o, s, actions, i - 1);
      OneMorePath(o, s, actions, i - 1);
    } else {
      assert PathsOf(actions[..0]) == {};
    }
  }

  /** Skipped are the files that call for no action. */
  lemma SkippedFiles(o: BisyncOptions, s: Sides, actions: seq<Action>, skipped: nat)
    requires IsPlan(o, s, actions) && |actions| + skipped == |AllSeen(o, s)|
    ensures skipped == |AllSeen(o, s) - AllActing(o, s)|
  {
    PlanPaths(o, s, actions);
    PathCount(o, s, actions, |actions|);
    PartSize(AllActing(o, s), AllSeen(o, s));
  }
}
