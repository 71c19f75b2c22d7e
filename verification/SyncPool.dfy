/**
 The worker pool of a one-way synchronization (object/sync/sync.go) as a step relation: a sender, a buffered
 channel of copy actions, workers in their phases, shared counters and the error list, and the cancel flag.
 */
module SyncPool {
  import opened Wrappers
  import opened SyncModel
  import opened SyncPlan

  /** What a pool is started with. */
  datatype Job = Job(
    plan: seq<Action>,
    src: Tree,
    dst: Tree,
    dryRun: bool,
    maxErrors: int,
    concurrency: nat,
    cancels: bool,
    broken: set<string>)

  /** Phases of a worker; the numbers are positions in the plan.  `Done` records whether errors stopped it. */
  datatype Phase =
    | Idle
    | Took(i: nat)
    | Copying(i: nat)
    | Landed(i: nat)
    | Stopping
    | Done(stopped: bool)

  /** What became of an action. */
  datatype Outcome = Pending | Counted | Failed | Dropped

  /**
   The channel holds the actions from `head` up to `sent`.  `cancelled` is the copy context, `aborted` the
   caller's.  `outcomes` and `holders` are history.
   */
  datatype Pool = Pool(
    dst: Tree,
    sent: nat,
    head: nat,
    closed: bool,
    workers: seq<Phase>,
    copied: nat,
    updated: nat,
    bytes: nat,
    errors: seq<string>,
    cancelled: bool,
    aborted: bool,
    outcomes: seq<Outcome>,
    holders: seq<nat>)

  datatype Step =
    | Send
    | CloseChannel
    | Abort
    | Take(w: nat)
    | Exit(w: nat)
    | Drop(w: nat)
    | Begin(w: nat)
    | Land(w: nat, modTime: Time, hash: string)
    | Fail(w: nat, left: Option<Object>)
    | Count(w: nat)
    | Cancel(w: nat)

  predicate Wellformed(job: Job) {
    && job.concurrency > 0
    && DistinctActions(job.plan)
    && forall i | 0 <= i < |job.plan| :: job.plan[i].file.path in job.src
  }

  function Initial(job: Job): Pool {
    Pool(job.dst, 0, 0, false, seq(job.concurrency, _ => Idle), 0, 0, 0, [], false, false,
         seq(|job.plan|, _ => Pending), seq(|job.plan|, _ => 0))
  }

  predicate Final(s: Pool) {
    s.closed && forall w | 0 <= w < |s.workers| :: s.workers[w].Done?
  }

  predicate Holds(phase: Phase, i: nat) {
    phase == Took(i) || phase == Copying(i) || phase == Landed(i)
  }

  function PathAt(job: Job, i: nat): string
    requires i < |job.plan|
  {
    job.plan[i].file.path
  }

  predicate Enabled(job: Job, s: Pool, step: Step) {
    match step
    case Send => !s.closed && s.sent < |job.plan| && s.sent - s.head < |job.plan|
    case CloseChannel => !s.closed && (s.sent == |job.plan| || s.cancelled)
    case Abort => !s.aborted && job.cancels
    case Take(w) => w < |s.workers| && s.workers[w].Idle? && s.head < s.sent
    case Exit(w) => w < |s.workers| && s.workers[w].Idle? && s.head == s.sent && s.closed
    case Drop(w) => w < |s.workers| && s.workers[w].Took? && s.cancelled
    case Begin(w) => w < |s.workers| && s.workers[w].Took? && !s.cancelled
    case Land(w, _, _) => w < |s.workers| && s.workers[w].Copying?
    case Fail(w, _) =>
      // a copy fails where a backend is broken, or because the copy context was cancelled
      && w < |s.workers| && s.workers[w].Copying? && s.workers[w].i < |job.plan|
      && (PathAt(job, s.workers[w].i) in job.broken || s.cancelled)
    case Count(w) => w < |s.workers| && s.workers[w].Landed?
    case Cancel(w) => w < |s.workers| && s.workers[w].Stopping?
  }

  predicate Shaped(job: Job, s: Pool) {
    && |s.outcomes| == |s.holders| == |job.plan|
    && s.head <= s.sent <= |job.plan|
    && forall w | 0 <= w < |s.workers| ::
         s.workers[w].Took? || s.workers[w].Copying? || s.workers[w].Landed? ==> s.workers[w].i < s.head
  }

  function Apply(job: Job, s: Pool, step: Step): Pool
    requires Wellformed(job) && Shaped(job, s) && Enabled(job, s, step)
  {
    match step
    case Send => s.(sent := s.sent + 1)
    case CloseChannel => s.(closed := true)
    case Abort => s.(aborted := true, cancelled := true)
    case Take(w) =>
      s.(head := s.head + 1, workers := s.workers[w := Took(s.head)], holders := s.holders[s.head := w])
    case Exit(w) => s.(workers := s.workers[w := Done(false)])
    case Drop(w) =>
      s.(workers := s.workers[w := Done(false)], outcomes := s.outcomes[s.workers[w].i := Dropped])
    case Begin(w) =>
      var i := s.workers[w].i;
      s.(workers := s.workers[w := if job.dryRun then Landed(i) else Copying(i)])
    case Land(w, modTime, hash) =>
      var i := s.workers[w].i;
      var p := PathAt(job, i);
      s.(workers := s.workers[w := Landed(i)],
         dst := s.dst[p := Object(job.src[p].data, modTime, hash, false)])
    case Fail(w, left) =>
      // a broken copy leaves anything at its destination, or nothing
      var i := s.workers[w].i;
      var p := PathAt(job, i);
      var errors := s.errors + [p];
      var stop := job.maxErrors > 0 && |errors| >= job.maxErrors;
      s.(workers := s.workers[w := if stop then Stopping else Idle],
         dst := if left.Some? then s.dst[p := left.value] else s.dst - {p},
         errors := errors,
         outcomes := s.outcomes[i := Failed])
    case Count(w) =>
      var i := s.workers[w].i;
      var a := job.plan[i];
      s.(workers := s.workers[w := Idle],
         copied := if a.isUpdate then s.copied else s.copied + 1,
         updated := if a.isUpdate then s.updated + 1 else s.updated,
         bytes := s.bytes + a.file.size,
         outcomes := s.outcomes[i := Counted])
    case Cancel(w) => s.(workers := s.workers[w := Done(true)], cancelled := true)
  }

  ghost predicate Next(job: Job, s: Pool, s': Pool) {
    Wellformed(job) && Shaped(job, s) && exists step :: Enabled(job, s, step) && s' == Apply(job, s, step)
  }

  ghost predicate IsRun(job: Job, run: seq<Pool>) {
    && |run| > 0 && run[0] == Initial(job) && Wellformed(job)
    && forall k | 0 <= k < |run| - 1 :: Next(job, run[k], run[k + 1])
  }

  // ----- tallies over the plan -----

  datatype Meter = CopiedMeter | UpdatedMeter | BytesMeter | ErrorMeter

  function Reading(a: Action, o: Outcome, m: Meter): nat {
    match m
    case CopiedMeter => if o.Counted? && !a.isUpdate then 1 else 0
    case UpdatedMeter => if o.Counted? && a.isUpdate then 1 else 0
    case BytesMeter => if o.Counted? then a.file.size else 0
    case ErrorMeter => if o.Failed? then 1 else 0
  }

  function Tally(plan: seq<Action>, outcomes: seq<Outcome>, m: Meter): nat
    requires |plan| == |outcomes|
  {
    if plan == [] then 0
    else
      var n := |plan| - 1;
      Tally(plan[..n], outcomes[..n], m) + Reading(plan[n], outcomes[n], m)
  }

  lemma {:induction false} TallyUpdate(plan: seq<Action>, outcomes: seq<Outcome>, m: Meter, i: nat, o: Outcome)
    requires |plan| == |outcomes| && i < |plan|
    ensures Tally(plan, outcomes[i := o], m) == Tally(plan, outcomes, m) - Reading(plan[i], outcomes[i], m) + Reading(plan[i], o, m)
    decreases |plan|
  {
    var n := |plan| - 1;
    if i == n {
      assert outcomes[i := o][..n] == outcomes[..n];
    } else {
      TallyUpdate(plan[..n], outcomes[..n], m, i, o);
      assert outcomes[i := o][..n] == outcomes[..n][i := o];
    }
  }

  function StoppedCount(workers: seq<Phase>): nat {
    if workers == [] then 0
    else
      var n := |workers| - 1;
      StoppedCount(workers[..n]) + if Stopped(workers[n]) then 1 else 0
  }

  predicate Stopped(phase: Phase) {
    phase == Stopping || phase == Done(true)
  }

  lemma {:induction false} StoppedUpdate(workers: seq<Phase>, w: nat, phase: Phase)
    requires w < |workers|
    ensures StoppedCount(workers[w := phase]) ==
            StoppedCount(workers) - (if Stopped(workers[w]) then 1 else 0) + (if Stopped(phase) then 1 else 0)
    ensures StoppedCount(workers) <= |workers|
    decreases |workers|
  {
    var n := |workers| - 1;
    if w == n {
      assert workers[w := phase][..n] == workers[..n];
      StoppedAtMost(workers[..n]);
    } else {
      StoppedUpdate(workers[..n], w, phase);
      assert workers[w := phase][..n] == workers[..n][w := phase];
    }
  }

  lemma {:induction false} StoppedAtMost(workers: seq<Phase>)
    ensures StoppedCount(workers) <= |workers|
  {
    if workers != [] {
      StoppedAtMost(workers[..|workers| - 1]);
    }
  }
}
