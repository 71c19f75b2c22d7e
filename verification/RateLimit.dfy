/**
 The token bucket that limits transfer bandwidth (object/sync/ratelimit.go).  Time is in nanoseconds; the
 fractions the source computes in floating point are exact here and are floored where it truncates them.
 */
module RateLimit {

  type Time = int

  const SECOND := 1_000_000_000
  const CHUNK_SIZE := 64 * 1024

  datatype Bucket = Bucket(rate: nat, tokens: int, maxTokens: int, lastRefill: Time)

  function Min(a: int, b: int): int {
    if a < b then a else b
  }

  predicate ValidBucket(b: Bucket) {
    b.rate > 0 && b.maxTokens == b.rate && 0 <= b.tokens <= b.maxTokens
  }

  function Refilled(b: Bucket, now: Time): Bucket
    requires b.lastRefill <= now
  {
    b.(tokens := Min(b.tokens + (now - b.lastRefill) * b.rate / SECOND, b.maxTokens), lastRefill := now)
  }

  function Returned(b: Bucket, n: int): Bucket {
    if n <= 0 then b else b.(tokens := Min(b.tokens + n, b.maxTokens))
  }

  function SleepTime(b: Bucket, needed: int): int
    requires b.rate > 0
  {
    (needed - b.tokens) * SECOND / b.rate
  }

  /** The bucket after an undisturbed wait for `n` tokens that started at `now` and ended at `end`. */
  function AfterWait(b: Bucket, n: int, now: Time, end: Time): Bucket
    requires b.lastRefill <= now <= end
  {
    var b1 := Refilled(b, now);
    var b2 := if n <= b1.tokens then b1 else Refilled(b1, end);
    b2.(tokens := b2.tokens - n)
  }

  /** The tokens a lone wait finds when it can go on. */
  function Found(b: Bucket, n: int, now: Time, end: Time): int
    requires b.lastRefill <= now <= end
  {
    if n <= Refilled(b, now).tokens then Refilled(b, now).tokens else Refilled(Refilled(b, now), end).tokens
  }

  /** When such a wait may end: at once if the tokens are there, or else after the sleep, and a little later. */
  predicate MayEnd(b: Bucket, n: int, now: Time, end: Time)
    requires b.lastRefill <= now && b.rate > 0
  {
    var b1 := Refilled(b, now);
    if n <= b1.tokens then end == now else end > now + SleepTime(b1, n) && now <= end
  }

  /** A read with no other reader about: at most the rate-limited chunk is asked for, and `got` bytes of it come. */
  predicate LoneRead(b: Bucket, want: nat, now: Time, got: nat, end: Time, b': Bucket)
    requires b.lastRefill <= now && b.rate > 0
  {
    var n := Min(want, CHUNK_SIZE);
    got <= n && MayEnd(b, n, now, end) && b' == Returned(AfterWait(b, n, now, end), n - got)
  }

  // ----- arithmetic of one sleep -----

  lemma MulMono(a: int, b: int, c: int)
    requires a <= b && 0 <= c
    ensures a * c <= b * c
  {
  }

  lemma DivLower(x: int, q: int, d: int)
    requires d > 0
    ensures q * d <= x <==> q <= x / d
  {
    if q <= x / d {
      MulMono(q, x / d, d);
    } else {
      MulMono(x / d + 1, q, d);
    }
  }

  /**
   The floored sleep refills the deficit exactly when the division left no remainder; one more nanosecond
   always does, despite the floor in the refill.
   */
  lemma SleepRefillsDeficit(rate: int, deficit: int, slept: int)
    requires rate > 0 && deficit >= 0
    ensures slept > deficit * SECOND / rate ==> deficit <= slept * rate / SECOND
    ensures slept == deficit * SECOND / rate ==> (deficit <= slept * rate / SECOND <==> deficit * SECOND % rate == 0)
  {
    var d, s := deficit, deficit * SECOND / rate;
    DivLower(slept * rate, d, SECOND);
    assert d * SECOND == s * rate + d * SECOND % rate;
    if slept > s {
      MulMono(s + 1, slept, rate);
    }
  }

  /** The time to sleep is the least: any longer is enough, and any shorter is not. */
  lemma SleepTimeIsLeast(b: Bucket, needed: int, slept: int)
    requires ValidBucket(b) && b.tokens < needed && 0 <= slept
    ensures slept > SleepTime(b, needed) ==> needed <= b.tokens + slept * b.rate / SECOND
    ensures slept < SleepTime(b, needed) ==> b.tokens + slept * b.rate / SECOND < needed
  {
    var deficit := needed - b.tokens;
    SleepRefillsDeficit(b.rate, deficit, slept);
    if slept < SleepTime(b, needed) {
      assert deficit * SECOND == SleepTime(b, needed) * b.rate + deficit * SECOND % b.rate;
      MulMono(slept + 1, SleepTime(b, needed), b.rate);
      assert slept * b.rate < deficit * SECOND;
      DivLower(slept * b.rate, deficit, SECOND);
    }
  }

  class TokenBucket {
    const rate: nat
    const maxTokens: int
    var tokens: int
    var lastRefill: Time

    function State(): Bucket
      reads this
    {
      Bucket(rate, tokens, maxTokens, lastRefill)
    }

    /** Full at the start; the burst is one second's worth. */
    constructor (bytesPerSecond: nat, now: Time)
      requires bytesPerSecond > 0
      ensures State() == Bucket(bytesPerSecond, bytesPerSecond, bytesPerSecond, now)
    {
      rate, tokens, maxTokens, lastRefill := bytesPerSecond, bytesPerSecond, bytesPerSecond, now;
    }

    method Refill(now: Time)
      requires lastRefill <= now
      modifies this
      ensures State() == Refilled(old(State()), now)
    {
      var elapsed := now - lastRefill;
      lastRefill := now;
      tokens := tokens + elapsed * rate / SECOND;
      if tokens > maxTokens {
        tokens := maxTokens;
      }
    }

    method ReturnTokens(n: int)
      modifies this
      ensures State() == Returned(old(State()), n)
    {
      if n <= 0 {
        return;
      }
      tokens := tokens + n;
      if tokens > maxTokens {
        tokens := maxTokens;
      }
    }

    /**
     A wait with no other reader about.  It ends after at most one sleep, with the tokens refilled for the
     time it took less the ones it consumed.
     */
    method WaitAlone(n: nat, now: Time) returns (end: Time, slept: nat)
      requires ValidBucket(State()) && lastRefill <= now
      requires n <= maxTokens
      modifies this
      ensures ValidBucket(State())
      ensures slept <= 1 && now <= end
      ensures slept == 0 <==> n <= Refilled(old(State()), now).tokens
      ensures MayEnd(old(State()), n, now, end)
      ensures State() == AfterWait(old(State()), n, now, end) && tokens + n == Found(old(State()), n, now, end)
    {
      end, slept := now, 0;
      NonNegative(now - lastRefill, rate);
      Refill(now);
      ghost var b := State();
      while tokens < n
        invariant ValidBucket(State()) && b.lastRefill == now <= end == lastRefill
        invariant slept == 0 ==> State() == b && end == now
        invariant slept == 1 ==> end > now + SleepTime(b, n) && State() == Refilled(b, end) && b.tokens < n <= tokens
        invariant slept <= 1
        decreases 1 - slept
      {
        var deficit := n - tokens;
        var duration := deficit * SECOND / rate;
        NonNegative(deficit, rate);
        end := Sleep(end, duration);
        SleepRefillsDeficit(rate, deficit, end - now);
        Refill(end);
        slept := slept + 1;
      }
      tokens := tokens - n;
    }

    /**
     A rate-limited read with no other reader about; the underlying reader may return less than it was asked.
     It is called only when one chunk fits the bucket: see OversizedReadNeverEnds for the other case.
     */
    method ReadAlone(want: nat, now: Time) returns (got: nat, end: Time)
      requires ValidBucket(State()) && lastRefill <= now
      requires Min(want, CHUNK_SIZE) <= maxTokens
      modifies this
      ensures ValidBucket(State()) && now <= end && got <= want
      ensures LoneRead(old(State()), want, now, got, end, State())
      ensures tokens + got == Found(old(State()), Min(want, CHUNK_SIZE), now, end)
    {
      var toRead := want;
      if toRead > CHUNK_SIZE {
        toRead := CHUNK_SIZE;
      }
      var slept;
      end, slept := WaitAlone(toRead, now);
      got :| 0 <= got <= toRead;
      if got < toRead {
        ReturnTokens(toRead - got);
      }
    }

    /** Sleeping takes at least the given time and a little more. */
    method Sleep(now: Time, duration: int) returns (woke: Time)
      ensures woke > now + duration
    {
      woke :| woke > now + duration;
    }
  }

  lemma NonNegative(x: int, rate: int)
    requires x >= 0 && rate > 0
    ensures x * rate >= 0 && x * rate / SECOND >= 0 && x * SECOND / rate >= 0
  {
    MulMono(0, x, rate);
    DivLower(x * rate, 0, SECOND);
    DivLower(x * SECOND, 0, rate);
  }

  // ----- any number of readers -----

  /** A reader: between reads, asleep in wait, holding the tokens of a read, or about to return unused ones. */
  datatype Reader = Idle | Sleeping(needed: nat, wake: Time) | Holding(n: nat) | Returning(unused: nat)

  datatype System = System(bucket: Bucket, now: Time, readers: seq<Reader>, delivered: nat)

  /** The lock is held from a refill to the decision that follows it, and released while asleep. */
  datatype Step =
    | Begin(r: nat, want: nat)
    | Wake(r: nat)
    | Deliver(r: nat, got: nat)
    | Return(r: nat)
    | Tick(later: Time)

  predicate Enabled(sys: System, step: Step) {
    match step
    case Begin(r, _) => r < |sys.readers| && sys.readers[r].Idle? && sys.bucket.lastRefill <= sys.now
    case Wake(r) =>
      && r < |sys.readers| && sys.readers[r].Sleeping? && sys.readers[r].wake <= sys.now
      && sys.bucket.lastRefill <= sys.now
    case Deliver(r, got) => r < |sys.readers| && sys.readers[r].Holding? && got <= sys.readers[r].n
    case Return(r) => r < |sys.readers| && sys.readers[r].Returning?
    case Tick(later) => sys.now <= later
  }

  /** Refill, then take the tokens if they are there, or go to sleep for the deficit. */
  function Attempt(sys: System, r: nat, needed: nat): System
    requires r < |sys.readers| && sys.bucket.lastRefill <= sys.now && sys.bucket.rate > 0
  {
    var b := Refilled(sys.bucket, sys.now);
    if b.tokens < needed then
      sys.(bucket := b, readers := sys.readers[r := Sleeping(needed, sys.now + SleepTime(b, needed))])
    else
      sys.(bucket := b.(tokens := b.tokens - needed), readers := sys.readers[r := Holding(needed)])
  }

  function Apply(sys: System, step: Step): System
    requires Enabled(sys, step) && sys.bucket.rate > 0
  {
    match step
    case Begin(r, want) => Attempt(sys, r, if want > CHUNK_SIZE then CHUNK_SIZE else want)
    case Wake(r) => Attempt(sys, r, sys.readers[r].needed)
    case Deliver(r, got) =>
      var unused := sys.readers[r].n - got;
      sys.(delivered := sys.delivered + got,
           readers := sys.readers[r := if unused > 0 then Returning(unused) else Idle])
    case Return(r) =>
      sys.(bucket := Returned(sys.bucket, sys.readers[r].unused), readers := sys.readers[r := Idle])
    case Tick(later) => sys.(now := later)
  }

  function TokensOf(reader: Reader): nat {
    match reader
    case Holding(n) => n
    case Returning(unused) => unused
    case _ => 0
  }

  /** Tokens taken out of the bucket and neither delivered nor returned yet. */
  function Held(readers: seq<Reader>): nat {
    if readers == [] then 0 else Held(readers[..|readers| - 1]) + TokensOf(readers[|readers| - 1])
  }

  lemma {:induction false} HeldUpdate(readers: seq<Reader>, r: nat, reader: Reader)
    requires r < |readers|
    ensures Held(readers[r := reader]) == Held(readers) - TokensOf(readers[r]) + TokensOf(reader)
    decreases |readers|
  {
    var n := |readers| - 1;
    var updated := readers[r := reader];
    if r == n {
      assert updated[..n] == readers[..n];
    } else {
      HeldUpdate(readers[..n], r, reader);
      assert updated[..n] == readers[..n][r := reader];
    }
  }

  /** What was delivered, is held, or is still in the bucket never exceeds the burst plus the refills. */
  predicate Inv(sys: System, t0: Time) {
    var b := sys.bucket;
    && ValidBucket(b) && t0 <= b.lastRefill <= sys.now
    && SECOND * (b.tokens + Held(sys.readers) + sys.delivered - b.rate) <= (b.lastRefill - t0) * b.rate
  }

  lemma RefillKeepsBudget(b: Bucket, now: Time, t0: Time, spent: int)
    requires ValidBucket(b) && t0 <= b.lastRefill <= now
    requires SECOND * (b.tokens + spent - b.rate) <= (b.lastRefill - t0) * b.rate
    ensures
      var b' := Refilled(b, now);
      ValidBucket(b') && SECOND * (b'.tokens + spent - b.rate) <= (now - t0) * b.rate
  {
    var elapsed := now - b.lastRefill;
    NonNegative(elapsed, b.rate);
    assert SECOND * (elapsed * b.rate / SECOND) <= elapsed * b.rate;
    assert (now - t0) * b.rate == (b.lastRefill - t0) * b.rate + elapsed * b.rate;
  }

  lemma StepKeepsInv(sys: System, step: Step, t0: Time)
    requires Inv(sys, t0) && Enabled(sys, step)
    ensures Inv(Apply(sys, step), t0)
    ensures Apply(sys, step).bucket.rate == sys.bucket.rate
    ensures Apply(sys, step).delivered >= sys.delivered
  {
    match step {
      case Begin(r, want) =>
        AttemptKeepsInv(sys, r, if want > CHUNK_SIZE then CHUNK_SIZE else want, t0);
      case Wake(r) =>
        AttemptKeepsInv(sys, r, sys.readers[r].needed, t0);
      case Deliver(r, got) =>
        HeldUpdate(sys.readers, r, Apply(sys, step).readers[r]);
      case Return(r) =>
        HeldUpdate(sys.readers, r, Idle);
      case Tick(_) =>
    }
  }

  lemma AttemptKeepsInv(sys: System, r: nat, needed: nat, t0: Time)
    requires Inv(sys, t0) && r < |sys.readers| && TokensOf(sys.readers[r]) == 0
    ensures Inv(Attempt(sys, r, needed), t0)
  {
    RefillKeepsBudget(sys.bucket, sys.now, t0, Held(sys.readers) + sys.delivered);
    HeldUpdate(sys.readers, r, Attempt(sys, r, needed).readers[r]);
  }

  predicate Initial(sys: System, t0: Time) {
    && sys.bucket.rate > 0 && sys.bucket == Bucket(sys.bucket.rate, sys.bucket.rate, sys.bucket.rate, t0)
    && sys.now == t0 && sys.delivered == 0
    && forall r | 0 <= r < |sys.readers| :: sys.readers[r].Idle?
  }

  ghost predicate IsRun(run: seq<System>, t0: Time) {
    && |run| > 0 && Initial(run[0], t0)
    && forall i | 0 <= i < |run| - 1 :: Next(run[i], run[i + 1])
  }

  ghost predicate Next(sys: System, sys': System) {
    sys.bucket.rate > 0 && exists step :: Enabled(sys, step) && sys' == Apply(sys, step)
  }

  lemma {:induction false} AllIdleHoldsNothing(readers: seq<Reader>)
    requires forall r | 0 <= r < |readers| :: readers[r].Idle?
    ensures Held(readers) == 0
  {
    if readers != [] {
      AllIdleHoldsNothing(readers[..|readers| - 1]);
    }
  }

  lemma {:induction false} RunKeepsInv(run: seq<System>, t0: Time)
    requires IsRun(run, t0)
    ensures Inv(run[|run| - 1], t0) && run[|run| - 1].bucket.rate == run[0].bucket.rate
    decreases |run|
  {
    if |run| == 1 {
      AllIdleHoldsNothing(run[0].readers);
    } else {
      RunKeepsInv(run[..|run| - 1], t0);
      var sys, sys' := run[|run| - 2], run[|run| - 1];
      assert Next(sys, sys');
      var step :| Enabled(sys, step) && sys' == Apply(sys, step);
      StepKeepsInv(sys, step, t0);
    }
  }

  /** Any number of readers together deliver at most one second's burst plus the rate times the elapsed time. */
  lemma BandwidthBound(run: seq<System>, t0: Time)
    requires IsRun(run, t0)
    ensures
      var sys := run[|run| - 1];
      var rate := run[0].bucket.rate;
      && 0 <= sys.bucket.tokens <= sys.bucket.maxTokens
      && SECOND * sys.delivered <= SECOND * rate + rate * (sys.now - t0)
  {
    RunKeepsInv(run, t0);
    var sys := run[|run| - 1];
    MulMono(sys.bucket.lastRefill - t0, sys.now - t0, sys.bucket.rate);
  }

  /** Nothing leaks either: what is in the bucket, held or delivered only grows, but for a return to a full bucket. */
  lemma NothingLeaks(sys: System, step: Step, t0: Time)
    requires Inv(sys, t0) && Enabled(sys, step)
    ensures
      var sys' := Apply(sys, step);
      || sys'.bucket.tokens + Held(sys'.readers) + sys'.delivered >= sys.bucket.tokens + Held(sys.readers) + sys.delivered
      || (step.Return? && sys'.bucket.tokens == sys'.bucket.maxTokens)
  {
    var b := sys.bucket;
    if !step.Tick? {
      HeldUpdate(sys.readers, step.r, Apply(sys, step).readers[step.r]);
    }
    if step.Begin? || step.Wake? {
      NonNegative(sys.now - b.lastRefill, b.rate);
    }
  }

  /** A refill adds the rate times the elapsed time, short of one token, unless the bucket is full. */
  lemma RefillIsDue(b: Bucket, now: Time)
    requires ValidBucket(b) && b.lastRefill <= now
    ensures
      var b' := Refilled(b, now);
      && b'.lastRefill == now && b'.rate == b.rate && b.tokens <= b'.tokens <= b.rate
      && SECOND * (b'.tokens - b.tokens) <= (now - b.lastRefill) * b.rate
      && (b'.tokens < b.rate ==> (now - b.lastRefill) * b.rate < SECOND * (b'.tokens - b.tokens + 1))
  {
    NonNegative(now - b.lastRefill, b.rate);
  }

  // ----- a reader on its own -----

  /** `run` leads from one state to another by steps of the system. */
  ghost predicate Leads(from: System, run: seq<System>, to: System) {
    && |run| > 0 && run[0] == from && run[|run| - 1] == to
    && forall i | 0 <= i < |run| - 1 :: Next(run[i], run[i + 1])
  }

  lemma OneMoreStep(from: System, run: seq<System>, sys: System, step: Step)
    requires Leads(from, run, sys) && Enabled(sys, step) && sys.bucket.rate > 0
    ensures Leads(from, run + [Apply(sys, step)], Apply(sys, step))
  {
    var run' := run + [Apply(sys, step)];
    forall i | 0 <= i < |run'| - 1
      ensures Next(run'[i], run'[i + 1])
    {
      if i < |run| - 1 {
        assert Next(run[i], run[i + 1]);
      }
    }
  }

  /** What the sleeper finds when it wakes up. */
  lemma SleepIsEnough(b: Bucket, n: nat, now: Time, end: Time)
    requires ValidBucket(b) && b.lastRefill <= now && n <= b.maxTokens && MayEnd(b, n, now, end)
    ensures
      var b1 := Refilled(b, now);
      ValidBucket(b1) && (n > b1.tokens ==> n <= Refilled(b1, end).tokens && ValidBucket(Refilled(b1, end)) && now <= end)
  {
    var b1 := Refilled(b, now);
    NonNegative(now - b.lastRefill, b.rate);
    if n > b1.tokens {
      NonNegative(n - b1.tokens, b.rate);
      SleepRefillsDeficit(b.rate, n - b1.tokens, end - now);
    }
  }

  /**
   A wait on its own is a run of the system, in which the other readers, if any, do nothing: it takes its tokens at
   once, or sleeps, wakes up and takes them.
   */
  lemma WaitIsRun(sys: System, r: nat, n: nat, end: Time) returns (run: seq<System>)
    requires ValidBucket(sys.bucket) && sys.bucket.lastRefill <= sys.now && n <= sys.bucket.maxTokens && n <= CHUNK_SIZE
    requires r < |sys.readers| && sys.readers[r].Idle? && MayEnd(sys.bucket, n, sys.now, end)
    ensures Leads(sys, run, sys.(bucket := AfterWait(sys.bucket, n, sys.now, end), now := end, readers := sys.readers[r := Holding(n)]))
  {
    SleepIsEnough(sys.bucket, n, sys.now, end);
    var s1 := Apply(sys, Begin(r, n));
    OneMoreStep(sys, [sys], sys, Begin(r, n));
    run := [sys] + [s1];
    if s1.readers[r].Sleeping? {
      var s2 := Apply(s1, Tick(end));
      OneMoreStep(sys, run, s1, Tick(end));
      OneMoreStep(sys, run + [s2], s2, Wake(r));
      var s3 := Apply(s2, Wake(r));
      run := run + [s2] + [s3];
      assert s3.readers == sys.readers[r := Holding(n)];
    }
  }

  /** And so is a read: it waits, delivers what it got, and returns what it did not use. */
  lemma ReadIsRun(sys: System, r: nat, want: nat, got: nat, end: Time, b': Bucket) returns (run: seq<System>)
    requires ValidBucket(sys.bucket) && sys.bucket.lastRefill <= sys.now && Min(want, CHUNK_SIZE) <= sys.bucket.maxTokens
    requires r < |sys.readers| && sys.readers[r].Idle? && LoneRead(sys.bucket, want, sys.now, got, end, b')
    ensures Leads(sys, run, sys.(bucket := b', now := end, delivered := sys.delivered + got))
  {
    var n := Min(want, CHUNK_SIZE);
    run := WaitIsRun(sys, r, n, end);
    var s1 := run[|run| - 1];
    var s2 := Apply(s1, Deliver(r, got));
    OneMoreStep(sys, run, s1, Deliver(r, got));
    run := run + [s2];
    if got < n {
      OneMoreStep(sys, run, s2, Return(r));
      run := run + [Apply(s2, Return(r))];
    }
    assert run[|run| - 1].readers == sys.readers;
  }

  /** A lone read uses up as many tokens as it gets bytes: the rest are back. */
  lemma ReadCostsBytes(b: Bucket, want: nat, now: Time, got: nat, end: Time, b': Bucket)
    requires ValidBucket(b) && b.lastRefill <= now <= end && Min(want, CHUNK_SIZE) <= b.maxTokens
    requires LoneRead(b, want, now, got, end, b')
    ensures ValidBucket(b') && b'.rate == b.rate && now <= b'.lastRefill <= end
    ensures b'.tokens + got == Found(b, Min(want, CHUNK_SIZE), now, end) <= b.rate
  {
    SleepIsEnough(b, Min(want, CHUNK_SIZE), now, end);
  }

  /** Reads one after the other: at `times[i]` the bucket is `buckets[i]`, and the read of `wants[i]` bytes gets `gots[i]`. */
  ghost predicate LoneReads(buckets: seq<Bucket>, times: seq<Time>, wants: seq<nat>, gots: seq<nat>) {
    && |buckets| == |times| == |wants| + 1 == |gots| + 1
    && ValidBucket(buckets[0]) && buckets[0].lastRefill <= times[0]
    && forall i | 0 <= i < |gots| ::
         && times[i] <= times[i + 1] && Min(wants[i], CHUNK_SIZE) <= buckets[0].rate
         && LoneReadBy(buckets[i], wants[i], times[i], gots[i], times[i + 1], buckets[i + 1])
  }

  /** The read is over by `later`. */
  ghost predicate LoneReadBy(b: Bucket, want: nat, now: Time, got: nat, later: Time, b': Bucket) {
    b.lastRefill <= now && b.rate > 0 && exists end :: now <= end <= later && LoneRead(b, want, now, got, end, b')
  }

  function SumOf(gots: seq<nat>): nat {
    if gots == [] then 0 else SumOf(gots[..|gots| - 1]) + gots[|gots| - 1]
  }

  /** Over any sequence of lone reads, the bytes got and the tokens left stay within the tokens at first and the refills. */
  lemma {:induction false} LoneReadsBound(buckets: seq<Bucket>, times: seq<Time>, wants: seq<nat>, gots: seq<nat>)
    requires LoneReads(buckets, times, wants, gots)
    ensures
      var b := buckets[|gots|];
      && ValidBucket(b) && b.rate == buckets[0].rate && buckets[0].lastRefill <= b.lastRefill <= times[|gots|]
      && SECOND * (b.tokens + SumOf(gots) - buckets[0].tokens) <= (b.lastRefill - buckets[0].lastRefill) * b.rate
    decreases |gots|
  {
    if gots != [] {
      var n := |gots| - 1;
      LoneReadsBound(buckets[..n + 1], times[..n + 1], wants[..n], gots[..n]);
      var b, b' := buckets[n], buckets[n + 1];
      assert LoneReadBy(b, wants[n], times[n], gots[n], times[n + 1], b');
      var end :| times[n] <= end <= times[n + 1] && LoneRead(b, wants[n], times[n], gots[n], end, b');
      var chunk := Min(wants[n], CHUNK_SIZE);
      ReadCostsBytes(b, wants[n], times[n], gots[n], end, b');
      FoundBound(b, chunk, times[n], end, b'.lastRefill);
      assert (b'.lastRefill - buckets[0].lastRefill) * b.rate ==
             (b.lastRefill - buckets[0].lastRefill) * b.rate + (b'.lastRefill - b.lastRefill) * b.rate;
    }
  }

  lemma FoundBound(b: Bucket, n: nat, now: Time, end: Time, refilled: Time)
    requires ValidBucket(b) && b.lastRefill <= now <= end
    requires refilled == if n <= Refilled(b, now).tokens then now else end
    ensures SECOND * (Found(b, n, now, end) - b.tokens) <= (refilled - b.lastRefill) * b.rate
  {
    RefillIsDue(b, now);
    var b1 := Refilled(b, now);
    RefillIsDue(b1, end);
    assert (end - b.lastRefill) * b.rate == (end - now) * b.rate + (now - b.lastRefill) * b.rate;
  }

  // ----- reads larger than the bucket -----

  lemma SleeperSleepsOn(sys: System, t0: Time, r: nat, step: Step)
    requires Inv(sys, t0) && Enabled(sys, step)
    requires r < |sys.readers| && sys.readers[r].Sleeping? && sys.readers[r].needed > sys.bucket.rate
    ensures
      var sys' := Apply(sys, step);
      r < |sys'.readers| && sys'.readers[r].Sleeping? && sys'.readers[r].needed == sys.readers[r].needed
  {
    if step == Wake(r) {
      RefillKeepsBudget(sys.bucket, sys.now, t0, Held(sys.readers) + sys.delivered);
    }
  }

  /**
   A read that asks for more than the bucket can ever hold (a rate below the read size) goes to sleep and is
   asleep for the rest of every run.
   */
  lemma {:induction false} OversizedReadNeverEnds(run: seq<System>, t0: Time, r: nat, k: nat)
    requires IsRun(run, t0) && k < |run| && r < |run[k].readers|
    requires run[k].readers[r].Sleeping? && run[k].readers[r].needed > run[0].bucket.rate
    ensures forall i | k <= i < |run| :: r < |run[i].readers| && run[i].readers[r].Sleeping?
    ensures r < |run[|run| - 1].readers| && run[|run| - 1].readers[r].Sleeping?
    ensures run[|run| - 1].readers[r].needed == run[k].readers[r].needed
    decreases |run|
  {
    if k < |run| - 1 {
      var before := run[..|run| - 1];
      OversizedReadNeverEnds(before, t0, r, k);
      RunKeepsInv(before, t0);
      var sys, sys' := run[|run| - 2], run[|run| - 1];
      assert Next(sys, sys');
      var step :| Enabled(sys, step) && sys' == Apply(sys, step);
      SleeperSleepsOn(sys, t0, r, step);
      forall i | k <= i < |run| - 1
        ensures r < |run[i].readers| && run[i].readers[r].Sleeping?
      {
        assert before[i] == run[i];
      }
    }
  }

  /** And such a read does go to sleep: it never gets its tokens at once. */
  lemma OversizedReadSleeps(sys: System, t0: Time, r: nat, want: nat)
    requires Inv(sys, t0) && Enabled(sys, Begin(r, want))
    requires Min(want, CHUNK_SIZE) > sys.bucket.rate
    ensures Apply(sys, Begin(r, want)).readers[r].Sleeping?
  {
    RefillKeepsBudget(sys.bucket, sys.now, t0, Held(sys.readers) + sys.delivered);
  }
}
