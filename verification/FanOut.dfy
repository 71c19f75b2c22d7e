/**
 Fan-out writing to several backends (object/multi/writer.go) in its three modes.  Backends may fail to open, to
 write or to close at any time: each call is given the positions that fail in it.
 */
module FanOut {
  import opened Wrappers

  datatype Mode = WriteAll | BestEffort | Quorum

  datatype Error = WriterClosed | BackendErrors

  /** A backend's writer.  `failed` records whether a write to it ever went wrong. */
  class UnderlyingWriter {
    var contents: Bytes
    var closed: bool
    ghost var failed: bool

    constructor ()
      ensures contents == [] && !closed && !failed
    {
      contents, closed, failed := [], false, false;
    }

    /** Takes the whole chunk, or fails after some part of it. */
    method Write(p: Bytes, fails: bool) returns (n: nat, ok: bool)
      modifies this
      ensures n <= |p| && closed == old(closed) && ok == !fails
      ensures ok ==> n == |p| && contents == old(contents) + p && failed == old(failed)
      ensures !ok ==> failed && old(contents) + p[..n] == contents
    {
      ok := !fails;
      if ok {
        n := |p|;
      } else {
        n :| 0 <= n <= |p|;
        failed := true;
      }
      assert p[..|p|] == p;
      contents := contents + p[..n];
    }

    method Close(fails: bool) returns (ok: bool)
      modifies this
      ensures closed && contents == old(contents) && failed == old(failed) && ok == !fails
    {
      closed := true;
      ok := !fails;
    }
  }

  /** Opening a backend gives a new writer or fails. */
  method Open(fails: bool) returns (w: UnderlyingWriter?)
    ensures w == null <==> fails
    ensures w != null ==> fresh(w) && w.contents == [] && !w.closed && !w.failed
  {
    if fails {
      w := null;
    } else {
      w := new UnderlyingWriter();
    }
  }

  class Writer {
    const backends: nat
    const mode: Mode

    constructor (backends: nat, mode: Mode)
      requires backends > 0
      ensures this.backends == backends && this.mode == mode
    {
      this.backends, this.mode := backends, mode;
    }

    /** How many backends must open: all of them, a majority, or one. */
    predicate Enough(ready: nat) {
      match mode
      case WriteAll => ready == backends
      case Quorum => ready > backends / 2
      case BestEffort => ready > 0
    }

    /** Succeeds exactly when enough backends open; otherwise whatever opened is closed again. */
    method NewWriter(broken: set<nat>) returns (r: Option<MultiWriteCloser>, ghost ready: seq<UnderlyingWriter>)
      requires backends > 0
      ensures r.Some? <==> Enough(Working(backends, broken))
      ensures r.Some? ==>
                && fresh(r.value) && r.value.Valid() && fresh(r.value.writers)
                && r.value.mode == mode && r.value.offered == [] && r.value.allOk && !r.value.closed
                && r.value.writers == ready && |ready| == Working(backends, broken)
                && forall w | w in ready :: w.contents == [] && !w.failed && !w.closed
      ensures r.None? ==> forall w | w in ready :: w.closed && w.contents == []
      ensures r.None? && mode != WriteAll ==> |ready| == Working(backends, broken)
      ensures r.None? && mode == WriteAll ==>
                |ready| < backends && |ready| in broken && forall k | 0 <= k < |ready| :: k !in broken
    {
      var writers: seq<UnderlyingWriter> := [];
      for b := 0 to backends
        invariant |writers| == Working(b, broken)
        invariant mode == WriteAll ==> |writers| == b && forall k | 0 <= k < b :: k !in broken
        invariant fresh(writers) && Distinct(writers)
        invariant forall w | w in writers :: w.contents == [] && !w.failed && !w.closed
      {
        var w := Open(b in broken);
        if w == null {
          if mode == WriteAll {
            var _ := CloseAll(writers, {});
            WorkingAll(backends, broken);
            return None, writers;
          }
          continue;
        }
        writers := writers + [w];
      }
      if mode == Quorum && |writers| <= backends / 2 {
        var _ := CloseAll(writers, {});
        return None, writers;
      }
      if |writers| == 0 {
        return None, writers;
      }
      var m := new MultiWriteCloser(writers, mode);
      return Some(m), writers;
    }
  }

  predicate Distinct(writers: seq<UnderlyingWriter>) {
    forall i, j | 0 <= i < j < |writers| :: writers[i] != writers[j]
  }

  method CloseAll(writers: seq<UnderlyingWriter>, broken: set<nat>) returns (errors: nat)
    modifies writers
    ensures forall w | w in writers :: w.closed && w.contents == old(w.contents) && w.failed == old(w.failed)
    ensures errors == 0 <==> forall k | 0 <= k < |writers| :: k !in broken
  {
    errors := 0;
    for i := 0 to |writers|
      invariant forall k | 0 <= k < i :: writers[k].closed
      invariant forall w | w in writers :: w.contents == old(w.contents) && w.failed == old(w.failed)
      invariant errors == 0 <==> forall k | 0 <= k < i :: k !in broken
    {
      var ok := writers[i].Close(i in broken);
      if !ok {
        errors := errors + 1;
      }
    }
  }

  class MultiWriteCloser {
    const writers: seq<UnderlyingWriter>
    const mode: Mode
    var closed: bool
    /** All chunks given to Write before the close, joined, and whether each of these calls succeeded. */
    ghost var offered: Bytes
    ghost var allOk: bool

    /**
     Agreement: while every write has succeeded in write-all mode, all writers hold the concatenation of all
     chunks offered; in the other modes every writer that never failed does, even if some calls reported an error.
     */
    ghost predicate Valid()
      reads this, writers
    {
      && writers != [] && Distinct(writers)
      && (mode == WriteAll && allOk ==> forall i | 0 <= i < |writers| :: Holds(i) && !writers[i].failed)
      && (mode != WriteAll ==> forall i | 0 <= i < |writers| :: Holds(i) || writers[i].failed)
    }

    ghost predicate Holds(i: nat)
      requires i < |writers|
      reads this, writers
    {
      writers[i].contents == offered
    }

    constructor (writers: seq<UnderlyingWriter>, mode: Mode)
      requires writers != [] && Distinct(writers) && forall w | w in writers :: w.contents == [] && !w.failed
      ensures Valid() && this.writers == writers && this.mode == mode
      ensures offered == [] && allOk && !closed
    {
      this.writers, this.mode, this.closed := writers, mode, false;
      this.offered, this.allOk := [], true;
    }

    /** Whether enough writers take a chunk when those at `broken` fail. */
    predicate Succeeds(broken: set<nat>) {
      match mode
      case WriteAll => Working(|writers|, broken) == |writers|
      case Quorum => Working(|writers|, broken) > |writers| / 2
      case BestEffort => Working(|writers|, broken) > 0
    }

    /**
     Writes a chunk while the writers at `broken` fail.  Success means that all others are enough: all writers in
     write-all mode, more than half in quorum mode, one in best-effort mode.  Exactly the others take the chunk,
     except that in write-all mode the first failure ends the round.
     */
    method Write(p: Bytes, broken: set<nat>) returns (r: Result<nat, Error>)
      requires Valid()
      modifies this, writers
      ensures Valid() && closed == old(closed)
      ensures closed ==> r == Err(WriterClosed) && offered == old(offered) && allOk == old(allOk)
      ensures closed ==> forall i | 0 <= i < |writers| :: writers[i].contents == old(writers[i].contents)
      ensures !closed ==> offered == old(offered) + p && allOk == (old(allOk) && r.Ok?)
      ensures !closed ==>
                (r.Ok? <==> Succeeds(broken))
      ensures r.Ok? ==> r.value == |p|
      ensures !closed && r.Err? ==> r == Err(BackendErrors)
      ensures !closed && mode != WriteAll ==> forall i | 0 <= i < |writers| ::
                if i in broken then writers[i].failed else Took(writers[i], old(writers[i].contents), old(writers[i].failed), p)
      ensures !closed && mode == WriteAll ==> forall i | 0 <= i < |writers| ::
                if forall k | 0 <= k <= i :: k !in broken then Took(writers[i], old(writers[i].contents), old(writers[i].failed), p)
                else if forall k | 0 <= k < i :: k !in broken then writers[i].failed
                else writers[i].contents == old(writers[i].contents) && writers[i].failed == old(writers[i].failed)
    {
      if closed {
        return Err(WriterClosed);
      }
      offered := offered + p;
      var successCount, maxN;
      successCount, maxN := WriteEach(p, broken);
      WorkingAll(|writers|, broken);
      if (mode == WriteAll && successCount < |writers|) || (mode == Quorum && successCount <= |writers| / 2) || successCount == 0 {
        allOk := false;
        return Err(BackendErrors);
      }
      return Ok(maxN);
    }

    /** Offers the chunk to the writers in turn; in write-all mode the first failure ends the round. */
    method WriteEach(p: Bytes, broken: set<nat>) returns (successCount: nat, maxN: nat)
      requires Distinct(writers)
      modifies writers
      ensures mode != WriteAll ==> successCount == Working(|writers|, broken)
      ensures mode == WriteAll ==> (successCount == |writers| <==> Working(|writers|, broken) == |writers|) && successCount <= |writers|
      ensures successCount > 0 ==> maxN == |p|
      ensures mode != WriteAll ==> forall i | 0 <= i < |writers| ::
                if i in broken then writers[i].failed else Took(writers[i], old(writers[i].contents), old(writers[i].failed), p)
      ensures mode == WriteAll ==> forall i | 0 <= i < |writers| ::
                if forall k | 0 <= k <= i :: k !in broken then Took(writers[i], old(writers[i].contents), old(writers[i].failed), p)
                else if forall k | 0 <= k < i :: k !in broken then writers[i].failed
                else writers[i].contents == old(writers[i].contents) && writers[i].failed == old(writers[i].failed)
    {
      successCount, maxN := 0, 0;
      for i := 0 to |writers|
        invariant successCount == Working(i, broken) && maxN == (if successCount > 0 then |p| else 0)
        invariant mode == WriteAll ==> forall k | 0 <= k < i :: k !in broken
        invariant forall k | 0 <= k < i ::
                    if k in broken then writers[k].failed
                    else Took(writers[k], old(writers[k].contents), old(writers[k].failed), p)
        invariant forall k | i <= k < |writers| :: unchanged(writers[k])
      {
        var written, ok := WriteOne(i, p, i in broken);
        if !ok {
          if mode == WriteAll {
            WorkingAll(i, broken);
            WorkingAll(|writers|, broken);
            return;
          }
        } else {
          successCount := successCount + 1;
          if written > maxN {
            maxN := written;
          }
        }
      }
      WorkingAll(|writers|, broken);
    }

    method WriteOne(i: nat, p: Bytes, fails: bool) returns (n: nat, ok: bool)
      requires Distinct(writers) && i < |writers|
      modifies writers[i]
      ensures ok == !fails
      ensures ok ==> n == |p| && Took(writers[i], old(writers[i].contents), old(writers[i].failed), p)
      ensures !ok ==> writers[i].failed
      ensures forall k | 0 <= k < |writers| && k != i :: unchanged(writers[k])
    {
      n, ok := writers[i].Write(p, fails);
    }

    method Close(broken: set<nat>) returns (ok: bool)
      requires Valid()
      modifies this, writers
      ensures Valid() && closed && offered == old(offered) && allOk == old(allOk)
      ensures ok <==> old(closed) || forall k | 0 <= k < |writers| :: k !in broken
      ensures !old(closed) ==> forall w | w in writers :: w.closed
    {
      if closed {
        return true;
      }
      closed := true;
      var errors := CloseAll(writers, broken);
      return errors == 0;
    }
  }

  /** The writer took the whole chunk after what it held. */
  ghost predicate Took(w: UnderlyingWriter, contents: Bytes, failed: bool, p: Bytes)
    reads w
  {
    w.contents == contents + p && w.failed == failed
  }

  // ----- counting -----

  /** How many of the positions below `n` do not fail. */
  function Working(n: nat, broken: set<nat>): nat {
    if n == 0 then 0 else Working(n - 1, broken) + if n - 1 in broken then 0 else 1
  }

  lemma {:induction false} WorkingAll(n: nat, broken: set<nat>)
    ensures Working(n, broken) <= n
    ensures Working(n, broken) == n <==> forall k | 0 <= k < n :: k !in broken
  {
    if n > 0 {
      WorkingAll(n - 1, broken);
    }
  }

  lemma {:induction false} WorkingSome(n: nat, broken: set<nat>)
    ensures Working(n, broken) > 0 <==> exists k: nat :: k < n && k !in broken
    decreases n
  {
    if n > 0 {
      WorkingSome(n - 1, broken);
      if Working(n - 1, broken) == 0 && n - 1 !in broken {
        assert n - 1 < n && n - 1 !in broken;
      }
    }
  }

  /** The positions below `n` that do not fail. */
  function WorkingAt(n: nat, broken: set<nat>): set<nat> {
    set k: nat | k < n && k !in broken
  }

  lemma {:induction false} WorkingCounts(n: nat, broken: set<nat>)
    ensures Working(n, broken) == |WorkingAt(n, broken)|
    decreases n
  {
    if n > 0 {
      WorkingCounts(n - 1, broken);
      assert WorkingAt(n, broken) == WorkingAt(n - 1, broken) + if n - 1 in broken then {} else {n - 1};
    } else {
      assert WorkingAt(0, broken) == {};
    }
  }

  /** What each mode asks for to open: write-all that no backend fails, best-effort that one does not, quorum that more work than fail. */
  lemma OpeningMeans(w: Writer, broken: set<nat>)
    ensures w.mode == WriteAll ==> (w.Enough(Working(w.backends, broken)) <==> forall k | 0 <= k < w.backends :: k !in broken)
    ensures w.mode == BestEffort ==> (w.Enough(Working(w.backends, broken)) <==> exists k: nat :: k < w.backends && k !in broken)
    ensures w.mode == Quorum ==>
              (w.Enough(Working(w.backends, broken)) <==>
               |WorkingAt(w.backends, broken)| > w.backends - |WorkingAt(w.backends, broken)|)
  {
    WorkingAll(w.backends, broken);
    WorkingSome(w.backends, broken);
    WorkingCounts(w.backends, broken);
  }

  /** And the same of a write, over the writers that opened. */
  lemma WritingMeans(m: MultiWriteCloser, broken: set<nat>)
    ensures m.mode == WriteAll ==> (m.Succeeds(broken) <==> forall k | 0 <= k < |m.writers| :: k !in broken)
    ensures m.mode == BestEffort ==> (m.Succeeds(broken) <==> exists k: nat :: k < |m.writers| && k !in broken)
    ensures m.mode == Quorum ==>
              (m.Succeeds(broken) <==> |WorkingAt(|m.writers|, broken)| > |m.writers| - |WorkingAt(|m.writers|, broken)|)
  {
    WorkingAll(|m.writers|, broken);
    WorkingSome(|m.writers|, broken);
    WorkingCounts(|m.writers|, broken);
  }

  /** If at every position one of two calls fails, their successes add up to no more than the positions. */
  lemma {:induction false} FewSuccesses(n: nat, broken1: set<nat>, broken2: set<nat>)
    requires forall i | 0 <= i < n :: i in broken1 || i in broken2
    ensures Working(n, broken1) + Working(n, broken2) <= n
  {
    if n > 0 {
      FewSuccesses(n - 1, broken1, broken2);
    }
  }

  /** Any two successful quorum writes share a writer, so the later one lands where the earlier one did. */
  lemma QuorumsMeet(n: nat, broken1: set<nat>, broken2: set<nat>)
    requires Working(n, broken1) > n / 2 && Working(n, broken2) > n / 2
    ensures exists i: nat :: i < n && i !in broken1 && i !in broken2
  {
    if forall i | 0 <= i < n :: i in broken1 || i in broken2 {
      FewSuccesses(n, broken1, broken2);
    }
  }

  /** Any number of the positions can be the ones that do not fail. */
  lemma {:induction false} SomeFailures(n: nat, k: nat) returns (broken: set<nat>)
    requires k <= n
    ensures Working(n, broken) == k
  {
    if k == n {
      broken := {};
      WorkingAll(n, broken);
    } else {
      var fewer := SomeFailures(n - 1, k);
      broken := fewer + {n - 1};
      WorkingSame(n - 1, fewer, broken);
    }
  }

  lemma {:induction false} WorkingSame(n: nat, broken1: set<nat>, broken2: set<nat>)
    requires forall i | 0 <= i < n :: i in broken1 <==> i in broken2
    ensures Working(n, broken1) == Working(n, broken2)
  {
    if n > 0 {
      WorkingSame(n - 1, broken1, broken2);
    }
  }

  /**
   The documentation promises a majority of the backends.  A write counts only the writers that opened: on what
   NewWriter returned in quorum mode, every successful Write is taken by a majority of the backends exactly when the
   writers and the backends have the same half.
   */
  lemma QuorumVersusBackends(w: Writer, m: MultiWriteCloser, unopened: set<nat>)
    requires w.mode == Quorum && m.mode == Quorum
    requires w.Enough(Working(w.backends, unopened)) && |m.writers| == Working(w.backends, unopened)
    ensures
      (forall broken: set<nat> | m.Succeeds(broken) :: Working(|m.writers|, broken) > w.backends / 2)
      <==> |m.writers| / 2 == w.backends / 2
  {
    var ready := |m.writers|;
    WorkingAll(w.backends, unopened);
    if ready / 2 != w.backends / 2 {
      var broken := SomeFailures(ready, ready / 2 + 1);
      assert m.Succeeds(broken) && Working(ready, broken) <= w.backends / 2;
    }
  }

  /** Three of five backends open, two of the three take the chunk: a success that only two backends hold. */
  method QuorumOfMinority(p: Bytes) returns (w: Writer, m: MultiWriteCloser, r: Result<nat, Error>)
    ensures r == Ok(|p|) && m.mode == w.mode == Quorum && w.backends == 5 && |m.writers| == 3
    ensures m.writers[0].contents == p && m.writers[1].contents == p && m.writers[2].failed
    ensures Working(|m.writers|, {2}) <= w.backends / 2
  {
    w := new Writer(5, Quorum);
    var made, ready := w.NewWriter({3, 4});
    m := made.value;
    r := m.Write(p, {2});
    assert [] + p == p;
  }
}
