/** What every step of the worker pool keeps, and what follows for whole runs (object/sync/sync.go). */
module SyncPoolSafety {
  import opened Wrappers
  import opened SyncModel
  import opened SyncPlan
  import opened SyncPool

  // ----- the invariant, in parts -----

  /** Every action is still to come, with exactly one worker, or has had its outcome. */
  ghost predicate Custody(job: Job, s: Pool) {
    && Shaped(job, s)
    && (forall i | s.head <= i < |job.plan| :: s.outcomes[i].Pending?)
    && (forall i | 0 <= i < s.head && s.outcomes[i].Pending? ::
          s.holders[i] < |s.workers| && Holds(s.workers[s.holders[i]], i))
    && forall w | 0 <= w < |s.workers| && (s.workers[w].Took? || s.workers[w].Copying? || s.workers[w].Landed?) ::
         s.outcomes[s.workers[w].i].Pending? && s.holders[s.workers[w].i] == w
  }

  /** The copy of action `i` is in place: counted, or about to be. */
  ghost predicate Written(s: Pool, i: nat)
    requires i < |s.outcomes| == |s.holders|
  {
    s.outcomes[i].Counted? ||
    (s.outcomes[i].Pending? && s.holders[i] < |s.workers| && s.workers[s.holders[i]] == Landed(i))
  }

  /** What holds of the path of action `k` in a run that is not dry. */
  ghost predicate PathOk(job: Job, s: Pool, k: nat)
    requires Wellformed(job) && k < |job.plan| == |s.outcomes| == |s.holders|
  {
    var p := PathAt(job, k);
    !s.outcomes[k].Failed? ==> if Written(s, k) then HasBytes(s.dst, p, job.src[p].data) else Same(s.dst, job.dst, p)
  }

  /** The destination: copies in place hold the source bytes, broken ones anything, the rest is untouched. */
  ghost predicate TreeOk(job: Job, s: Pool) {
    && |s.outcomes| == |s.holders| == |job.plan| && Wellformed(job)
    && if job.dryRun then s.dst == job.dst
       else
         && (forall p | p !in PathsOf(job.plan) :: Same(s.dst, job.dst, p))
         && forall i | 0 <= i < |job.plan| :: PathOk(job, s, i)
  }

  /** An error is of a broken path, unless the caller cancelled or it came after the limit, when copies are cut short. */
  predicate RealFailure(job: Job, s: Pool, i: nat)
    requires i < |s.errors|
  {
    s.errors[i] in job.broken || s.aborted || (job.maxErrors > 0 && i >= job.maxErrors)
  }

  ghost predicate Flags(job: Job, s: Pool) {
    && (s.aborted ==> s.cancelled && job.cancels)
    && (forall i | 0 <= i < |s.errors| :: s.errors[i] in PathsOf(job.plan) && RealFailure(job, s, i))
    && (s.cancelled ==> s.aborted || (job.maxErrors > 0 && |s.errors| >= job.maxErrors))
    && (s.closed && !s.cancelled ==> s.sent == |job.plan|)
    && (forall i | 0 <= i < |s.outcomes| && s.outcomes[i].Dropped? :: s.cancelled)
    && (forall w | 0 <= w < |s.workers| && Stopped(s.workers[w]) :: job.maxErrors > 0 && |s.errors| >= job.maxErrors)
    && (forall w | 0 <= w < |s.workers| && s.workers[w] == Done(true) :: s.cancelled)
    && (forall w | 0 <= w < |s.workers| && s.workers[w] == Done(false) :: s.cancelled || (s.closed && s.head == s.sent))
    && (forall i | 0 <= i < |s.outcomes| && i < |job.plan| && s.outcomes[i].Failed? :: PathAt(job, i) in s.errors)
    && (job.dryRun ==> s.errors == [] && forall w | 0 <= w < |s.workers| :: !s.workers[w].Copying?)
  }

  ghost predicate Counters(job: Job, s: Pool) {
    && |s.outcomes| == |job.plan|
    && s.copied == Tally(job.plan, s.outcomes, CopiedMeter)
    && s.updated == Tally(job.plan, s.outcomes, UpdatedMeter)
    && s.bytes == Tally(job.plan, s.outcomes, BytesMeter)
    && |s.errors| == Tally(job.plan, s.outcomes, ErrorMeter)
  }

  ghost predicate ErrorsBounded(job: Job, s: Pool) {
    job.maxErrors > 0 ==> |s.errors| <= job.maxErrors - 1 + StoppedCount(s.workers)
  }

  ghost predicate Inv(job: Job, s: Pool) {
    && Wellformed(job) && |s.workers| == job.concurrency
    && Custody(job, s) && TreeOk(job, s) && Flags(job, s) && Counters(job, s) && ErrorsBounded(job, s)
  }

  // ----- each part is kept -----

  lemma CustodyKept(job: Job, s: Pool, step: Step)
    requires Wellformed(job) && Custody(job, s) && Enabled(job, s, step)
    ensures Custody(job, Apply(job, s, step))
  {
    match step {
      case Take(_) => CustodyOfTake(job, s, step);
      case Drop(_) => CustodyOfDrop(job, s, step);
      case Fail(_, _) => CustodyOfFail(job, s, step);
      case Count(_) => CustodyOfCount(job, s, step);
      case Begin(_) => CustodyOfPhase(job, s, step);
      case Land(_, _, _) => CustodyOfPhase(job, s, step);
      case _ =>
    }
  }

  lemma CustodyOfTake(job: Job, s: Pool, step: Step)
    requires Wellformed(job) && Custody(job, s) && Enabled(job, s, step) && step.Take?
    ensures Custody(job, Apply(job, s, step))
  {
  }

  lemma CustodyOfPhase(job: Job, s: Pool, step: Step)
    requires Wellformed(job) && Custody(job, s) && Enabled(job, s, step) && (step.Begin? || step.Land?)
    ensures Custody(job, Apply(job, s, step))
  {
  }

  lemma CustodyOfDrop(job: Job, s: Pool, step: Step)
    requires Wellformed(job) && Custody(job, s) && Enabled(job, s, step) && step.Drop?
    ensures Custody(job, Apply(job, s, step))
  {
  }

  lemma CustodyOfFail(job: Job, s: Pool, step: Step)
    requires Wellformed(job) && Custody(job, s) && Enabled(job, s, step) && step.Fail?
    ensures Custody(job, Apply(job, s, step))
  {
  }

  lemma CustodyOfCount(job: Job, s: Pool, step: Step)
    requires Wellformed(job) && Custody(job, s) && Enabled(job, s, step) && step.Count?
    ensures Custody(job, Apply(job, s, step))
  {
  }

  lemma TreeKept(job: Job, s: Pool, step: Step)
    requires Custody(job, s) && TreeOk(job, s) && Flags(job, s) && Enabled(job, s, step)
    ensures TreeOk(job, Apply(job, s, step))
  {
    var s' := Apply(job, s, step);
    if step.Land? || step.Fail? {
      ChangedPath(job, s.workers[step.w].i);
    }
    if !job.dryRun {
      forall k | 0 <= k < |job.plan|
        ensures PathOk(job, s', k)
      {
        assert PathOk(job, s, k);
        match step {
          case Land(_, _, _) => PathOfLand(job, s, step, k);
          case Fail(_, _) => PathOfFail(job, s, step, k);
          case _ => PathOfOther(job, s, step, k);
        }
      }
    }
  }

  lemma PathOfLand(job: Job, s: Pool, step: Step, k: nat)
    requires Custody(job, s) && Wellformed(job) && Enabled(job, s, step) && step.Land? && k < |job.plan| && PathOk(job, s, k)
    ensures PathOk(job, Apply(job, s, step), k)
  {
    ChangedPath(job, s.workers[step.w].i);
  }

  lemma PathOfFail(job: Job, s: Pool, step: Step, k: nat)
    requires Custody(job, s) && Wellformed(job) && Enabled(job, s, step) && step.Fail? && k < |job.plan| && PathOk(job, s, k)
    ensures PathOk(job, Apply(job, s, step), k)
  {
    ChangedPath(job, s.workers[step.w].i);
  }

  lemma PathOfOther(job: Job, s: Pool, step: Step, k: nat)
    requires Custody(job, s) && Wellformed(job) && Enabled(job, s, step) && !step.Land? && !step.Fail? && !job.dryRun
    requires k < |job.plan| && PathOk(job, s, k)
    ensures PathOk(job, Apply(job, s, step), k)
  {
  }

  lemma ChangedPath(job: Job, i: nat)
    requires Wellformed(job) && i < |job.plan|
    ensures PathAt(job, i) in PathsOf(job.plan)
    ensures forall k | 0 <= k < |job.plan| && k != i :: PathAt(job, k) != PathAt(job, i)
  {
  }

  lemma FlagsKept(job: Job, s: Pool, step: Step)
    requires Wellformed(job) && Custody(job, s) && Flags(job, s) && Enabled(job, s, step)
    ensures Flags(job, Apply(job, s, step))
  {
    match step {
      case Fail(_, _) => FlagsOfFail(job, s, step);
      case Count(_) => FlagsOfOutcome(job, s, step);
      case Drop(_) => FlagsOfOutcome(job, s, step);
      case Take(_) => FlagsOfPhase(job, s, step);
      case Begin(_) => FlagsOfPhase(job, s, step);
      case Land(_, _, _) => FlagsOfPhase(job, s, step);
      case Exit(_) => FlagsOfExit(job, s, step);
      case Cancel(_) => FlagsOfExit(job, s, step);
      case _ =>
    }
  }

  lemma FlagsOfOutcome(job: Job, s: Pool, step: Step)
    requires Wellformed(job) && Custody(job, s) && Flags(job, s) && Enabled(job, s, step) && (step.Count? || step.Drop?)
    ensures Flags(job, Apply(job, s, step))
  {
  }

  lemma FlagsOfPhase(job: Job, s: Pool, step: Step)
    requires Wellformed(job) && Custody(job, s) && Flags(job, s) && Enabled(job, s, step) && (step.Take? || step.Begin? || step.Land?)
    ensures Flags(job, Apply(job, s, step))
  {
  }

  lemma FlagsOfExit(job: Job, s: Pool, step: Step)
    requires Wellformed(job) && Custody(job, s) && Flags(job, s) && Enabled(job, s, step) && (step.Exit? || step.Cancel?)
    ensures Flags(job, Apply(job, s, step))
  {
  }

  lemma FlagsOfFail(job: Job, s: Pool, step: Step)
    requires Wellformed(job) && Custody(job, s) && Flags(job, s) && Enabled(job, s, step) && step.Fail?
    ensures Flags(job, Apply(job, s, step))
  {
    ChangedPath(job, s.workers[step.w].i);
  }

  lemma CountersKept(job: Job, s: Pool, step: Step)
    requires Wellformed(job) && Custody(job, s) && Counters(job, s) && Enabled(job, s, step)
    ensures Counters(job, Apply(job, s, step))
  {
    match step {
      case Drop(_) => CountersOfDrop(job, s, step);
      case Fail(_, _) => CountersOfFail(job, s, step);
      case Count(_) => CountersOfCount(job, s, step);
      case _ =>
    }
  }

  lemma CountersOfDrop(job: Job, s: Pool, step: Step)
    requires Wellformed(job) && Custody(job, s) && Counters(job, s) && Enabled(job, s, step) && step.Drop?
    ensures Counters(job, Apply(job, s, step))
  {
    var i := s.workers[step.w].i;
    MetersUpdate(job.plan, s.outcomes, i, Dropped);
    assert Apply(job, s, step).outcomes == s.outcomes[i := Dropped];
  }

  lemma CountersOfFail(job: Job, s: Pool, step: Step)
    requires Wellformed(job) && Custody(job, s) && Counters(job, s) && Enabled(job, s, step) && step.Fail?
    ensures Counters(job, Apply(job, s, step))
  {
    var i := s.workers[step.w].i;
    MetersUpdate(job.plan, s.outcomes, i, Failed);
    assert Apply(job, s, step).outcomes == s.outcomes[i := Failed];
  }

  lemma CountersOfCount(job: Job, s: Pool, step: Step)
    requires Wellformed(job) && Custody(job, s) && Counters(job, s) && Enabled(job, s, step) && step.Count?
    ensures Counters(job, Apply(job, s, step))
  {
    var i := s.workers[step.w].i;
    MetersUpdate(job.plan, s.outcomes, i, Counted);
    assert Apply(job, s, step).outcomes == s.outcomes[i := Counted];
  }

  lemma MetersUpdate(plan: seq<Action>, outcomes: seq<Outcome>, i: nat, o: Outcome)
    requires |outcomes| == |plan| && i < |plan| && outcomes[i].Pending?
    ensures Tally(plan, outcomes[i := o], CopiedMeter) == Tally(plan, outcomes, CopiedMeter) + Reading(plan[i], o, CopiedMeter)
    ensures Tally(plan, outcomes[i := o], UpdatedMeter) == Tally(plan, outcomes, UpdatedMeter) + Reading(plan[i], o, UpdatedMeter)
    ensures Tally(plan, outcomes[i := o], BytesMeter) == Tally(plan, outcomes, BytesMeter) + Reading(plan[i], o, BytesMeter)
    ensures Tally(plan, outcomes[i := o], ErrorMeter) == Tally(plan, outcomes, ErrorMeter) + Reading(plan[i], o, ErrorMeter)
  {
    TallyUpdate(plan, outcomes, CopiedMeter, i, o);
    TallyUpdate(plan, outcomes, UpdatedMeter, i, o);
    TallyUpdate(plan, outcomes, BytesMeter, i, o);
    TallyUpdate(plan, outcomes, ErrorMeter, i, o);
  }

  lemma BoundKept(job: Job, s: Pool, step: Step)
    requires Wellformed(job) && Shaped(job, s) && ErrorsBounded(job, s) && Enabled(job, s, step)
    ensures ErrorsBounded(job, Apply(job, s, step))
    ensures |Apply(job, s, step).workers| == |s.workers|
  {
    var s' := Apply(job, s, step);
    if !step.Send? && !step.CloseChannel? && !step.Abort? {
      StoppedUpdate(s.workers, step.w, s'.workers[step.w]);
    }
  }

  lemma StepKeepsInv(job: Job, s: Pool, step: Step)
    requires Inv(job, s) && Enabled(job, s, step)
    ensures Inv(job, Apply(job, s, step))
  {
    CustodyKept(job, s, step);
    TreeKept(job, s, step);
    FlagsKept(job, s, step);
    CountersKept(job, s, step);
    BoundKept(job, s, step);
  }

  lemma {:induction false} AllPending(plan: seq<Action>, outcomes: seq<Outcome>, m: Meter)
    requires |plan| == |outcomes| && forall i | 0 <= i < |outcomes| :: outcomes[i].Pending?
    ensures Tally(plan, outcomes, m) == 0
    decreases |plan|
  {
    if plan != [] {
      AllPending(plan[..|plan| - 1], outcomes[..|plan| - 1], m);
    }
  }

  lemma InitialInv(job: Job)
    requires Wellformed(job)
    ensures Inv(job, Initial(job))
  {
    var s := Initial(job);
    AllPending(job.plan, s.outcomes, CopiedMeter);
    AllPending(job.plan, s.outcomes, UpdatedMeter);
    AllPending(job.plan, s.outcomes, BytesMeter);
    AllPending(job.plan, s.outcomes, ErrorMeter);
  }

  lemma {:induction false} RunKeepsInv(job: Job, run: seq<Pool>)
    requires IsRun(job, run)
    ensures Inv(job, run[|run| - 1])
    decreases |run|
  {
    if |run| == 1 {
      InitialInv(job);
    } else {
      RunKeepsInv(job, run[..|run| - 1]);
      var s, s' := run[|run| - 2], run[|run| - 1];
      assert Next(job, s, s');
      var step :| Enabled(job, s, step) && s' == Apply(job, s, step);
      StepKeepsInv(job, s, step);
    }
  }

  // ----- no deadlock, and every run ends -----

  /** Some worker or the sender can always move: a send never blocks, for the channel is as large as the plan. */
  lemma NeverStuck(job: Job, s: Pool) returns (step: Step)
    requires Inv(job, s) && !Final(s)
    ensures Enabled(job, s, step) && !step.Abort?
  {
    if !s.closed {
      step := if s.sent < |job.plan| then Send else CloseChannel;
    } else {
      var w :| 0 <= w < |s.workers| && !s.workers[w].Done?;
      match s.workers[w] {
        case Idle => step := if s.head < s.sent then Take(w) else Exit(w);
        case Took(_) => step := if s.cancelled then Drop(w) else Begin(w);
        case Copying(_) => step := Land(w, 0, "");
        case Landed(_) => step := Count(w);
        case Stopping => step := Cancel(w);
      }
    }
  }

  function Rank(phase: Phase): nat {
    match phase
    case Took(_) => 4
    case Copying(_) => 3
    case Landed(_) => 2
    case Idle => 1
    case Stopping => 1
    case Done(_) => 0
  }

  function Ranks(workers: seq<Phase>): nat {
    if workers == [] then 0 else Ranks(workers[..|workers| - 1]) + Rank(workers[|workers| - 1])
  }

  lemma {:induction false} RanksUpdate(workers: seq<Phase>, w: nat, phase: Phase)
    requires w < |workers|
    ensures Ranks(workers[w := phase]) == Ranks(workers) - Rank(workers[w]) + Rank(phase)
    decreases |workers|
  {
    var n := |workers| - 1;
    if w == n {
      assert workers[w := phase][..n] == workers[..n];
    } else {
      RanksUpdate(workers[..n], w, phase);
      assert workers[w := phase][..n] == workers[..n][w := phase];
    }
  }

  /** An upper bound on the steps that can still be taken. */
  function StepsLeft(job: Job, s: Pool): int {
    6 * (|job.plan| - s.sent) + 5 * (s.sent - s.head) + Ranks(s.workers)
    + (if s.closed then 0 else 1) + if s.aborted then 0 else 1
  }

  lemma StepsLeftDecrease(job: Job, s: Pool, step: Step)
    requires Wellformed(job) && Shaped(job, s) && Enabled(job, s, step)
    ensures 0 <= StepsLeft(job, Apply(job, s, step)) < StepsLeft(job, s)
  {
    if !step.Send? && !step.CloseChannel? && !step.Abort? {
      WorkerRank(job, s, step);
      RanksUpdate(s.workers, step.w, Apply(job, s, step).workers[step.w]);
    }
  }

  /** A worker's step moves that worker only, and down, except that taking an action lifts it by less than is taken. */
  lemma WorkerRank(job: Job, s: Pool, step: Step)
    requires Wellformed(job) && Shaped(job, s) && Enabled(job, s, step)
    requires !step.Send? && !step.CloseChannel? && !step.Abort?
    ensures
      var s' := Apply(job, s, step);
      && |s'.workers| == |s.workers| && s'.workers == s.workers[step.w := s'.workers[step.w]]
      && s'.closed == s.closed && s'.aborted == s.aborted && s'.sent == s.sent
      && s'.head == s.head + (if step.Take? then 1 else 0) <= s'.sent
      && Rank(s'.workers[step.w]) < Rank(s.workers[step.w]) + if step.Take? then 5 else 0
  {
  }

  lemma {:induction false} IdleRanks(workers: seq<Phase>)
    requires forall w | 0 <= w < |workers| :: workers[w].Idle?
    ensures Ranks(workers) == |workers|
  {
    if workers != [] {
      IdleRanks(workers[..|workers| - 1]);
    }
  }

  /** No schedule goes on for more than 6 steps an action, one a worker and two more. */
  lemma {:induction false} RunsEnd(job: Job, run: seq<Pool>)
    requires IsRun(job, run)
    ensures |run| - 1 + StepsLeft(job, run[|run| - 1]) <= 6 * |job.plan| + job.concurrency + 2
    ensures 0 <= StepsLeft(job, run[|run| - 1])
    decreases |run|
  {
    if |run| == 1 {
      IdleRanks(run[0].workers);
    } else {
      RunsEnd(job, run[..|run| - 1]);
      var s, s' := run[|run| - 2], run[|run| - 1];
      assert Next(job, s, s');
      var step :| Enabled(job, s, step) && s' == Apply(job, s, step);
      StepsLeftDecrease(job, s, step);
    }
  }

  // ----- errors and counters -----

  /** Every worker adds at most one error to the first `maxErrors - 1`. */
  lemma ErrorBound(job: Job, s: Pool)
    requires Inv(job, s) && job.maxErrors > 0
    ensures |s.errors| <= job.maxErrors - 1 + job.concurrency
  {
    StoppedAtMost(s.workers);
  }

  /**
   The options say that an error limit of zero stops at the first error.  It never does: only the caller can
   then cancel the pool, and without that every action is attempted.
   */
  lemma ZeroLimitNeverStops(job: Job, s: Pool)
    requires Inv(job, s) && job.maxErrors <= 0
    ensures s.cancelled ==> s.aborted
    ensures Final(s) && !s.aborted ==> s.copied + s.updated + |s.errors| == |job.plan|
  {
    if Final(s) && !s.aborted {
      Accounting(job, s);
    }
  }

  /** A pool that has ended was cancelled exactly if the caller did it or the errors reached a positive limit. */
  lemma CancelledExactly(job: Job, s: Pool)
    requires Inv(job, s) && Final(s)
    ensures s.cancelled <==> s.aborted || (job.maxErrors > 0 && |s.errors| >= job.maxErrors)
  {
    if job.maxErrors > 0 && |s.errors| >= job.maxErrors {
      SomeStopped(s.workers);
    }
  }

  lemma {:induction false} SomeStopped(workers: seq<Phase>)
    requires StoppedCount(workers) > 0
    ensures exists w :: 0 <= w < |workers| && Stopped(workers[w])
  {
    var n := |workers| - 1;
    if !Stopped(workers[n]) {
      SomeStopped(workers[..n]);
      var w :| 0 <= w < n && Stopped(workers[..n][w]);
      assert Stopped(workers[w]);
    }
  }

  /** At the end of a pool that was not cancelled every action has been carried out or has failed. */
  lemma AllSettled(job: Job, s: Pool)
    requires Inv(job, s) && Final(s) && !s.cancelled
    ensures forall i | 0 <= i < |job.plan| :: s.outcomes[i].Counted? || s.outcomes[i].Failed?
  {
    assert s.workers[0] == Done(false);
  }

  lemma Accounting(job: Job, s: Pool)
    requires Inv(job, s) && Final(s) && !s.cancelled
    ensures s.copied + s.updated + |s.errors| == |job.plan|
  {
    AllSettled(job, s);
    EveryOutcomeCounts(job.plan, s.outcomes);
  }

  lemma {:induction false} EveryOutcomeCounts(plan: seq<Action>, outcomes: seq<Outcome>)
    requires |plan| == |outcomes| && forall i | 0 <= i < |outcomes| :: outcomes[i].Counted? || outcomes[i].Failed?
    ensures Tally(plan, outcomes, CopiedMeter) + Tally(plan, outcomes, UpdatedMeter) + Tally(plan, outcomes, ErrorMeter) == |plan|
    decreases |plan|
  {
    if plan != [] {
      EveryOutcomeCounts(plan[..|plan| - 1], outcomes[..|plan| - 1]);
    }
  }

  /** What the counters say was copied was copied: these are the paths. */
  lemma CountedPaths(job: Job, s: Pool) returns (counted: set<string>)
    requires Inv(job, s)
    ensures |counted| == s.copied + s.updated && counted <= PathsOf(job.plan)
    ensures !job.dryRun ==> forall p | p in counted :: p in job.src && HasBytes(s.dst, p, job.src[p].data)
  {
    counted := CountedPrefix(job, s, |job.plan|);
    assert job.plan[..|job.plan|] == job.plan && s.outcomes[..|job.plan|] == s.outcomes;
  }

  lemma {:induction false} CountedPrefix(job: Job, s: Pool, n: nat) returns (counted: set<string>)
    requires Wellformed(job) && TreeOk(job, s) && n <= |job.plan|
    ensures |counted| == Tally(job.plan[..n], s.outcomes[..n], CopiedMeter) + Tally(job.plan[..n], s.outcomes[..n], UpdatedMeter)
    ensures forall p | p in counted :: exists i :: 0 <= i < n && PathAt(job, i) == p
    ensures !job.dryRun ==> forall p | p in counted :: p in job.src && HasBytes(s.dst, p, job.src[p].data)
  {
    if n == 0 {
      counted := {};
    } else {
      counted := CountedPrefix(job, s, n - 1);
      assert job.plan[..n][..n - 1] == job.plan[..n - 1] && s.outcomes[..n][..n - 1] == s.outcomes[..n - 1];
      if s.outcomes[n - 1].Counted? {
        assert PathOk(job, s, n - 1) || job.dryRun;
        counted := counted + {PathAt(job, n - 1)};
      }
    }
  }

  function Expected(plan: seq<Action>, m: Meter): nat {
    Tally(plan, seq(|plan|, _ => Counted), m)
  }

  /** All counters of an error-free pool are determined by the plan. */
  ghost predicate FullCounters(job: Job, s: Pool) {
    && s.copied == Expected(job.plan, CopiedMeter)
    && s.updated == Expected(job.plan, UpdatedMeter)
    && s.bytes == Expected(job.plan, BytesMeter)
  }

  lemma {:induction false} NoFailure(plan: seq<Action>, outcomes: seq<Outcome>)
    requires |plan| == |outcomes| && Tally(plan, outcomes, ErrorMeter) == 0
    ensures forall i | 0 <= i < |outcomes| :: !outcomes[i].Failed?
    decreases |plan|
  {
    if plan != [] {
      var n := |plan| - 1;
      NoFailure(plan[..n], outcomes[..n]);
      assert forall i | 0 <= i < n :: outcomes[i] == outcomes[..n][i];
    }
  }

  /**
   Whatever the schedule and the number of workers, an error-free pool that was not cancelled leaves every
   planned path with the source bytes, all other paths alone, and the counters of the whole plan.  A dry run
   reports the same counters and changes nothing.
   */
  lemma ErrorFreePool(job: Job, s: Pool)
    requires Inv(job, s) && Final(s) && !s.cancelled && s.errors == []
    ensures FullCounters(job, s)
    ensures job.dryRun ==> s.dst == job.dst
    ensures !job.dryRun ==>
              && (forall i | 0 <= i < |job.plan| :: HasBytes(s.dst, PathAt(job, i), job.src[PathAt(job, i)].data))
              && forall p | p !in PathsOf(job.plan) :: Same(s.dst, job.dst, p)
  {
    AllSettled(job, s);
    NoFailure(job.plan, s.outcomes);
    assert s.outcomes == seq(|job.plan|, _ => Counted);
    if !job.dryRun {
      forall i | 0 <= i < |job.plan|
        ensures HasBytes(s.dst, PathAt(job, i), job.src[PathAt(job, i)].data)
      {
        assert PathOk(job, s, i);
      }
    }
  }
}
