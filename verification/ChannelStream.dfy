/**
 Streaming through a channel (object/backend/channel/backend.go) in its non-persistent mode: one writer and
 any number of readers of one path, each read and write an atomic step.
 */
module ChannelStream {
  import opened Wrappers

  /** The Go channel behind a path: messages in flight, the buffer size, and whether it was closed. */
  datatype Chan = Chan(queue: seq<Bytes>, size: nat, closed: bool)

  datatype Cursor = Cursor(current: Bytes, offset: nat, closed: bool)

  datatype Reply = Data(bytes: Bytes) | EOF | ReaderClosed

  predicate ValidCursor(c: Cursor) {
    c.offset <= |c.current|
  }

  /** Whether a read returns at once; otherwise it blocks on the channel. */
  predicate CanRead(c: Cursor, ch: Chan) {
    c.closed || c.offset < |c.current| || ch.queue != [] || ch.closed
  }

  function Take(bytes: Bytes, room: nat): Bytes {
    if room < |bytes| then bytes[..room] else bytes
  }

  /** A read into a buffer of `room` bytes: first what is left of the current message, then the next one. */
  function ReadNext(c: Cursor, ch: Chan, room: nat): (Cursor, Chan, Reply)
    requires ValidCursor(c) && CanRead(c, ch)
  {
    if c.closed then (c, ch, ReaderClosed)
    else if c.offset < |c.current| then
      var part := Take(c.current[c.offset..], room);
      (c.(offset := c.offset + |part|), ch, Data(part))
    else if ch.queue != [] then
      var part := Take(ch.queue[0], room);
      (c.(current := ch.queue[0], offset := |part|), ch.(queue := ch.queue[1..]), Data(part))
    else (c, ch, EOF)
  }

  class ChannelInfo {
    var queue: seq<Bytes>
    const size: nat
    var closed: bool

    function State(): Chan
      reads this
    {
      Chan(queue, size, closed)
    }

    constructor (size: nat)
      ensures State() == Chan([], size, false)
    {
      this.queue, this.size, this.closed := [], size, false;
    }
  }

  datatype WriteError = WriterClosed | ClosedPipe

  class ChannelWriter {
    const info: ChannelInfo
    var closed: bool

    constructor (info: ChannelInfo)
      ensures this.info == info && !closed
    {
      this.info, this.closed := info, false;
    }

    /** Called when the channel has room: a full channel blocks the writer. */
    method Write(p: Bytes) returns (r: Result<nat, WriteError>)
      requires closed || info.closed || |info.queue| < info.size
      modifies info
      ensures closed == old(closed) && info.closed == old(info.closed)
      ensures closed ==> r == Err(WriterClosed)
      ensures !closed && info.closed ==> r == Err(ClosedPipe)
      ensures info.queue == if r.Ok? then old(info.queue) + [p] else old(info.queue)
      ensures !closed && !info.closed ==> r == Ok(|p|)
    {
      if closed {
        return Err(WriterClosed);
      }
      if info.closed {
        return Err(ClosedPipe);
      }
      info.queue := info.queue + [p];
      return Ok(|p|);
    }

    method Close()
      modifies this, info
      ensures closed && info.queue == old(info.queue)
      ensures info.closed == (old(info.closed) || !old(closed))
    {
      if closed {
        return;
      }
      closed := true;
      if !info.closed {
        info.closed := true;
      }
    }
  }

  class ChannelReader {
    const info: ChannelInfo
    var current: Bytes
    var offset: nat
    var closed: bool

    function State(): Cursor
      reads this
    {
      Cursor(current, offset, closed)
    }

    constructor (info: ChannelInfo)
      ensures this.info == info && State() == Cursor([], 0, false)
    {
      this.info, this.current, this.offset, this.closed := info, [], 0, false;
    }

    /** Called when it need not block; the bytes land at the front of the caller's buffer. */
    method Read(p: array<byte>) returns (reply: Reply)
      requires ValidCursor(State()) && CanRead(State(), info.State())
      modifies this, info, p
      ensures ValidCursor(State())
      ensures (State(), info.State(), reply) == ReadNext(old(State()), old(info.State()), p.Length)
      ensures
        var n := if reply.Data? then |reply.bytes| else 0;
        n <= p.Length && (reply.Data? ==> p[..n] == reply.bytes) && p[n..] == old(p[n..])
    {
      if closed {
        return ReaderClosed;
      }
      if offset < |current| {
        var rest := current[offset..];
        var n := Copy(p, rest);
        offset := offset + n;
        assert rest[..n] == Take(rest, p.Length);
        return Data(rest[..n]);
      }
      if |info.queue| == 0 {
        return EOF;
      }
      current := info.queue[0];
      info.queue := info.queue[1..];
      var n := Copy(p, current);
      offset := n;
      assert current[..n] == Take(current, p.Length);
      return Data(current[..n]);
    }

    method Copy(p: array<byte>, from: Bytes) returns (n: nat)
      modifies p
      ensures n == |Take(from, p.Length)| && n <= |from|
      ensures p[..n] == from[..n] && p[n..] == old(p[n..])
    {
      n := if |from| < p.Length then |from| else p.Length;
      for i := 0 to n
        invariant p[..i] == from[..i]
        invariant forall k | i <= k < p.Length :: p[k] == old(p[k])
      {
        p[i] := from[i];
      }
    }

    method Close()
      modifies this
      ensures State() == old(State()).(closed := true)
    {
      closed := true;
    }
  }

  // ----- interleavings -----

  /**
   One writer and some readers.  `sent`, `takers` and `got` are history: the messages accepted from the
   writer, which reader took each of them, and the bytes every reader was given.
   */
  datatype System = System(
    writerClosed: bool,
    ch: Chan,
    readers: seq<Cursor>,
    sent: seq<Bytes>,
    takers: seq<nat>,
    got: seq<Bytes>)

  /** A hand-off passes a message straight to a waiting reader; it is how an unbuffered channel works. */
  datatype Step =
    | Write(data: Bytes)
    | CloseWriter
    | Read(r: nat, room: nat)
    | HandOff(r: nat, data: Bytes, room: nat)
    | CloseReader(r: nat)

  predicate Enabled(sys: System, step: Step) {
    match step
    case Write(_) => !sys.writerClosed && !sys.ch.closed && |sys.ch.queue| < sys.ch.size
    case CloseWriter => true
    case Read(r, _) => r < |sys.readers| && ValidCursor(sys.readers[r]) && CanRead(sys.readers[r], sys.ch)
    case HandOff(r, _, _) =>
      && !sys.writerClosed && !sys.ch.closed && sys.ch.queue == []
      && r < |sys.readers| && ValidCursor(sys.readers[r]) && !CanRead(sys.readers[r], sys.ch)
    case CloseReader(r) => r < |sys.readers|
  }

  function ApplyRead(sys: System, r: nat, room: nat): System
    requires r < |sys.readers| && r < |sys.got| && ValidCursor(sys.readers[r]) && CanRead(sys.readers[r], sys.ch)
  {
    var (cursor, ch, reply) := ReadNext(sys.readers[r], sys.ch, room);
    sys.(ch := ch,
         readers := sys.readers[r := cursor],
         takers := if |ch.queue| < |sys.ch.queue| then sys.takers + [r] else sys.takers,
         got := if reply.Data? then sys.got[r := sys.got[r] + reply.bytes] else sys.got)
  }

  function Apply(sys: System, step: Step): System
    requires Enabled(sys, step) && |sys.got| == |sys.readers|
  {
    match step
    case Write(data) => sys.(ch := sys.ch.(queue := sys.ch.queue + [data]), sent := sys.sent + [data])
    case CloseWriter => sys.(writerClosed := true, ch := sys.ch.(closed := true))
    case Read(r, room) => ApplyRead(sys, r, room)
    case HandOff(r, data, room) =>
      ApplyRead(sys.(ch := sys.ch.(queue := [data]), sent := sys.sent + [data]), r, room)
    case CloseReader(r) => sys.(readers := sys.readers[r := sys.readers[r].(closed := true)])
  }

  /** The messages that reader `r` took, in the order in which they were sent. */
  function TakenBy(sent: seq<Bytes>, takers: seq<nat>, r: nat): seq<Bytes>
    requires |takers| <= |sent|
    decreases |takers|
  {
    if takers == [] then []
    else
      var n := |takers| - 1;
      TakenBy(sent, takers[..n], r) + if takers[n] == r then [sent[n]] else []
  }

  predicate ReaderOk(sys: System, r: nat)
    requires r < |sys.readers| && r < |sys.got| && |sys.takers| <= |sys.sent|
  {
    var c := sys.readers[r];
    ValidCursor(c) && sys.got[r] + c.current[c.offset..] == Concat(TakenBy(sys.sent, sys.takers, r))
  }

  /** Taken messages are a prefix of the sent ones, and the channel holds the rest. */
  predicate Inv(sys: System) {
    && |sys.got| == |sys.readers|
    && |sys.takers| <= |sys.sent|
    && sys.ch.queue == sys.sent[|sys.takers|..]
    && (forall i | 0 <= i < |sys.takers| :: sys.takers[i] < |sys.readers|)
    && (sys.ch.closed ==> sys.writerClosed)
    && forall r | 0 <= r < |sys.readers| :: ReaderOk(sys, r)
  }

  lemma {:induction false} TakenByMoreSent(sent: seq<Bytes>, data: Bytes, takers: seq<nat>, r: nat)
    requires |takers| <= |sent|
    ensures TakenBy(sent + [data], takers, r) == TakenBy(sent, takers, r)
    decreases |takers|
  {
    if takers != [] {
      TakenByMoreSent(sent, data, takers[..|takers| - 1], r);
    }
  }

  lemma MoreSent(sys: System, data: Bytes, ch: Chan)
    requires Inv(sys) && ch.queue == sys.ch.queue + [data] && ch.closed == sys.ch.closed
    ensures Inv(sys.(ch := ch, sent := sys.sent + [data]))
  {
    var sys' := sys.(ch := ch, sent := sys.sent + [data]);
    forall r | 0 <= r < |sys.readers|
      ensures ReaderOk(sys', r)
    {
      assert ReaderOk(sys, r);
      TakenByMoreSent(sys.sent, data, sys.takers, r);
    }
  }

  lemma OwnRead(sys: System, r: nat, room: nat)
    requires Inv(sys) && r < |sys.readers| && ValidCursor(sys.readers[r]) && CanRead(sys.readers[r], sys.ch)
    ensures
      var sys' := ApplyRead(sys, r, room);
      |sys'.takers| <= |sys'.sent| && ReaderOk(sys', r)
  {
    assert ReaderOk(sys, r);
    var c := sys.readers[r];
    if !c.closed {
      if c.offset < |c.current| {
        OwnReadInHand(sys, r, room);
      } else if sys.ch.queue != [] {
        OwnReadNext(sys, r, room);
      }
    }
  }

  /** A read from the message in hand. */
  lemma OwnReadInHand(sys: System, r: nat, room: nat)
    requires Inv(sys) && r < |sys.readers| && ReaderOk(sys, r)
    requires !sys.readers[r].closed && sys.readers[r].offset < |sys.readers[r].current|
    ensures
      var sys' := ApplyRead(sys, r, room);
      |sys'.takers| <= |sys'.sent| && ReaderOk(sys', r)
  {
    var c := sys.readers[r];
    var sys' := ApplyRead(sys, r, room);
    var (c', ch', reply) := ReadNext(c, sys.ch, room);
    assert sys'.takers == sys.takers;
    assert sys'.got[r] + c'.current[c'.offset..] == sys.got[r] + (reply.bytes + c'.current[c'.offset..]);
    assert reply.bytes + c'.current[c'.offset..] == c.current[c.offset..];
  }

  /** A read that takes the next message from the channel. */
  lemma OwnReadNext(sys: System, r: nat, room: nat)
    requires Inv(sys) && r < |sys.readers| && ReaderOk(sys, r)
    requires !sys.readers[r].closed && sys.readers[r].offset >= |sys.readers[r].current| && sys.ch.queue != []
    ensures
      var sys' := ApplyRead(sys, r, room);
      |sys'.takers| <= |sys'.sent| && ReaderOk(sys', r)
  {
    var c := sys.readers[r];
    var sys' := ApplyRead(sys, r, room);
    var (c', ch', reply) := ReadNext(c, sys.ch, room);
    assert sys'.takers == sys.takers + [r];
    assert sys'.takers[..|sys.takers|] == sys.takers;
    ConcatOneMore(TakenBy(sys.sent, sys.takers, r), sys.ch.queue[0]);
    assert c.current[c.offset..] == [];
    assert sys'.got[r] + c'.current[c'.offset..] == sys.got[r] + (reply.bytes + c'.current[c'.offset..]);
    assert reply.bytes + c'.current[c'.offset..] == sys.ch.queue[0];
  }

  lemma ReadKeepsInv(sys: System, r: nat, room: nat)
    requires Inv(sys) && r < |sys.readers| && ValidCursor(sys.readers[r]) && CanRead(sys.readers[r], sys.ch)
    ensures Inv(ApplyRead(sys, r, room))
  {
    OwnRead(sys, r, room);
    var sys' := ApplyRead(sys, r, room);
    assert sys'.takers == sys.takers || sys'.takers[..|sys.takers|] == sys.takers;
    forall q | 0 <= q < |sys.readers| && q != r
      ensures ReaderOk(sys', q)
    {
      assert ReaderOk(sys, q);
      assert TakenBy(sys'.sent, sys'.takers, q) == TakenBy(sys.sent, sys.takers, q);
    }
  }

  lemma StepKeepsInv(sys: System, step: Step)
    requires Inv(sys) && Enabled(sys, step)
    ensures Inv(Apply(sys, step))
  {
    match step {
      case Write(data) =>
        MoreSent(sys, data, sys.ch.(queue := sys.ch.queue + [data]));
      case Read(r, room) =>
        ReadKeepsInv(sys, r, room);
      case HandOff(r, data, room) =>
        assert sys.ch.queue + [data] == [data];
        MoreSent(sys, data, sys.ch.(queue := [data]));
        ReadKeepsInv(sys.(ch := sys.ch.(queue := [data]), sent := sys.sent + [data]), r, room);
      case CloseWriter =>
        assert forall r | 0 <= r < |sys.readers| :: ReaderOk(sys, r) ==> ReaderOk(Apply(sys, step), r);
      case CloseReader(r) =>
        assert forall q | 0 <= q < |sys.readers| :: ReaderOk(sys, q) ==> ReaderOk(Apply(sys, step), q);
    }
  }

  predicate Initial(sys: System) {
    && !sys.writerClosed && sys.ch.queue == [] && !sys.ch.closed
    && sys.sent == [] && sys.takers == [] && |sys.got| == |sys.readers|
    && forall r | 0 <= r < |sys.readers| :: sys.readers[r] == Cursor([], 0, false) && sys.got[r] == []
  }

  ghost predicate Next(sys: System, sys': System) {
    |sys.got| == |sys.readers| && exists step :: Enabled(sys, step) && sys' == Apply(sys, step)
  }

  ghost predicate IsRun(run: seq<System>) {
    |run| > 0 && Initial(run[0]) && forall i | 0 <= i < |run| - 1 :: Next(run[i], run[i + 1])
  }

  lemma {:induction false} RunKeepsInv(run: seq<System>)
    requires IsRun(run)
    ensures Inv(run[|run| - 1]) && |run[|run| - 1].readers| == |run[0].readers|
    decreases |run|
  {
    if |run| > 1 {
      RunKeepsInv(run[..|run| - 1]);
      var sys, sys' := run[|run| - 2], run[|run| - 1];
      assert Next(sys, sys');
      var step :| Enabled(sys, step) && sys' == Apply(sys, step);
      StepKeepsInv(sys, step);
    }
  }

  /**
   In every interleaving each sent message is with exactly one reader or still in the channel, the earliest
   ones first, and every reader has been given the bytes of its messages in the order they were sent, up to
   the rest of the message it is in.
   */
  lemma EveryMessageToOneReader(run: seq<System>, r: nat)
    requires IsRun(run) && r < |run[0].readers|
    ensures
      var sys := run[|run| - 1];
      && |sys.takers| <= |sys.sent| && sys.ch.queue == sys.sent[|sys.takers|..]
      && (forall i | 0 <= i < |sys.takers| :: sys.takers[i] < |sys.readers|)
      && r < |sys.readers| == |sys.got| && ReaderOk(sys, r)
  {
    RunKeepsInv(run);
  }

  lemma {:induction false} OneReaderTakesAll(sent: seq<Bytes>, takers: seq<nat>)
    requires |takers| <= |sent| && forall i | 0 <= i < |takers| :: takers[i] == 0
    ensures TakenBy(sent, takers, 0) == sent[..|takers|]
    decreases |takers|
  {
    if takers != [] {
      var n := |takers| - 1;
      OneReaderTakesAll(sent, takers[..n]);
      assert sent[..|takers|] == sent[..n] + [sent[n]];
    }
  }

  /**
   A single reader gets a prefix of what was sent, whatever the sizes of its reads, and is told EOF only when
   the writer has closed and it has been given every byte.
   */
  lemma SingleReaderStream(run: seq<System>, room: nat)
    requires IsRun(run) && |run[0].readers| == 1
    ensures
      var sys := run[|run| - 1];
      && |sys.readers| == 1 && |sys.got| == 1
      && sys.got[0] <= Concat(sys.sent)
      && (ValidCursor(sys.readers[0]) && CanRead(sys.readers[0], sys.ch) && ReadNext(sys.readers[0], sys.ch, room).2.EOF? ==>
            sys.writerClosed && sys.got[0] == Concat(sys.sent))
  {
    RunKeepsInv(run);
    var sys := run[|run| - 1];
    assert ReaderOk(sys, 0);
    OneReaderTakesAll(sys.sent, sys.takers);
    ConcatPrefix(sys.sent, |sys.takers|);
    var c := sys.readers[0];
    var taken := Concat(sys.sent[..|sys.takers|]);
    assert sys.got[0] == taken[..|sys.got[0]|];
    if c.offset == |c.current| && sys.ch.queue == [] {
      assert sys.sent[..|sys.takers|] == sys.sent;
      assert c.current[c.offset..] == [];
      assert sys.got[0] + [] == sys.got[0];
    }
  }

  /** With several readers, EOF means that all messages are taken and the reader has all bytes of its own. */
  lemma EofAfterOwnBytes(run: seq<System>, r: nat, room: nat)
    requires IsRun(run) && r < |run[0].readers|
    ensures
      var sys := run[|run| - 1];
      && r < |sys.readers| && r < |sys.got| && |sys.takers| <= |sys.sent|
      && (ValidCursor(sys.readers[r]) && CanRead(sys.readers[r], sys.ch) && ReadNext(sys.readers[r], sys.ch, room).2.EOF? ==>
            && sys.writerClosed && |sys.takers| == |sys.sent|
            && sys.got[r] == Concat(TakenBy(sys.sent, sys.takers, r)))
  {
    RunKeepsInv(run);
    var sys := run[|run| - 1];
    assert ReaderOk(sys, r);
    var c := sys.readers[r];
    if c.offset == |c.current| {
      assert sys.got[r] + c.current[c.offset..] == sys.got[r];
    }
  }

  /** What is there to read: the rest of the message in hand, or else the next one. */
  function Ahead(c: Cursor, ch: Chan): Bytes
    requires ValidCursor(c)
  {
    if c.offset < |c.current| then c.current[c.offset..] else if ch.queue != [] then ch.queue[0] else []
  }

  /**
   A read makes progress: it gives as many of the bytes ahead as there is room for, the next ones first, and the reader
   goes on right behind them.
   */
  lemma ReadProgress(c: Cursor, ch: Chan, room: nat)
    requires ValidCursor(c) && !c.closed && CanRead(c, ch) && (c.offset < |c.current| || ch.queue != [])
    ensures
      var (c', ch', reply) := ReadNext(c, ch, room);
      var ahead := Ahead(c, ch);
      && reply.Data? && |reply.bytes| == (if room < |ahead| then room else |ahead|)
      && ValidCursor(c') && reply.bytes + c'.current[c'.offset..] == ahead
      && (reply.bytes == [] <==> room == 0 || ahead == [])
  {
    var (c', ch', reply) := ReadNext(c, ch, room);
    var ahead := Ahead(c, ch);
    assert reply.bytes == ahead[..|reply.bytes|];
    assert c'.current[c'.offset..] == ahead[|reply.bytes|..];
  }

  /** How many bytes a single reader has still to read: the rest of its message and all that is queued. */
  function Unread(c: Cursor, queue: seq<Bytes>): nat
    requires ValidCursor(c)
  {
    |c.current| - c.offset + |Concat(queue)|
  }

  /** A single reader that leaves room gets through: its reads use up what is unread, byte by byte and message by message. */
  lemma ReadsGetThrough(c: Cursor, ch: Chan, room: nat)
    requires ValidCursor(c) && !c.closed && CanRead(c, ch) && room > 0
    ensures
      var (c', ch', reply) := ReadNext(c, ch, room);
      && ValidCursor(c')
      && (reply.Data? ==>
            && Unread(c', ch'.queue) + |reply.bytes| == Unread(c, ch.queue)
            && (|reply.bytes| > 0 || |ch'.queue| < |ch.queue|))
      && (reply.EOF? <==> c.offset == |c.current| && ch.queue == [])
  {
    if c.offset >= |c.current| && ch.queue != [] {
      ConcatFirst(ch.queue);
    }
  }

  lemma {:induction false} ConcatFirst(messages: seq<Bytes>)
    requires messages != []
    ensures Concat(messages) == messages[0] + Concat(messages[1..])
    decreases |messages|
  {
    var n := |messages| - 1;
    if n > 0 {
      ConcatFirst(messages[..n]);
      assert messages[..n][1..] == messages[1..][..n - 1];
      assert messages[1..][n - 1] == messages[n];
    }
  }
}
