/** Comparing two files by their content, in chunks (object/sync/check.go). */
module CheckModel {
  import opened Wrappers

  /** How the bytes of a reader end: with the end of the file, or with an error. */
  datatype Ending = EndOfFile | Fault

  /** All that can be read from a file. */
  datatype Stream = Stream(readable: Bytes, ending: Ending)

  datatype ReadError = NoError | Eof | UnexpectedEof | Failed

  class Reader {
    const stream: Stream
    var position: nat

    constructor (stream: Stream)
      ensures this.stream == stream && position == 0
    {
      this.stream, position := stream, 0;
    }

    ghost predicate Valid()
      reads this
    {
      position <= |stream.readable|
    }

    /** Reads some bytes, as many as it likes up to `size`, or reports how the stream ends. */
    method Read(size: nat) returns (chunk: Bytes, e: ReadError)
      requires Valid() && size > 0
      modifies this
      ensures Valid() && position == old(position) + |chunk| && |chunk| <= size
      ensures chunk == stream.readable[old(position)..position]
      ensures e == NoError ==> chunk != []
      ensures e != NoError ==> chunk == [] && position == |stream.readable|
      ensures e != NoError ==> e == if stream.ending == EndOfFile then Eof else Failed
    {
      if position == |stream.readable| {
        return [], if stream.ending == EndOfFile then Eof else Failed;
      }
      var n: nat :| 0 < n <= size && position + n <= |stream.readable|;
      position := position + n;
      return stream.readable[position - n..position], NoError;
    }

    /** Reads until the buffer of `size` bytes is full or the stream ends. */
    method ReadFull(size: nat) returns (chunk: Bytes, e: ReadError)
      requires Valid() && size > 0
      modifies this
      ensures Valid() && position == old(position) + |chunk|
      ensures chunk == stream.readable[old(position)..position]
      ensures |chunk| == if |stream.readable| - old(position) < size then |stream.readable| - old(position) else size
      ensures e == ErrorOf(stream, |chunk|, size)
    {
      chunk, e := [], NoError;
      while |chunk| < size && e == NoError
        invariant Valid() && position == old(position) + |chunk| && |chunk| <= size
        invariant chunk == stream.readable[old(position)..position]
        invariant e != NoError ==> position == |stream.readable| && e == if stream.ending == EndOfFile then Eof else Failed
        decreases size - |chunk|, if e == NoError then 1 else 0
      {
        var more;
        more, e := Read(size - |chunk|);
        chunk := chunk + more;
      }
      if |chunk| >= size {
        e := NoError;
      } else if |chunk| > 0 && e == Eof {
        e := UnexpectedEof;
      }
    }
  }

  function ErrorOf(stream: Stream, n: nat, size: nat): ReadError {
    if n >= size then NoError
    else if stream.ending == Fault then Failed
    else if n > 0 then UnexpectedEof
    else Eof
  }

  const CHUNK := 65536

  /**
   What the comparison must find: files with different readable bytes differ; with the same ones, they are equal
   if both end there, cannot be compared if reading fails there on both sides, and count as different otherwise.
   */
  function Verdict(a: Stream, b: Stream): Result<bool, ReadError> {
    if a.readable != b.readable then Ok(false)
    else if a.ending == EndOfFile && b.ending == EndOfFile then Ok(true)
    else if a.ending == Fault && b.ending == Fault then Err(Failed)
    else Ok(false)
  }

  /** The byte loop over two chunks of equal length. */
  method EqualChunks(a: Bytes, b: Bytes) returns (same: bool)
    requires |a| == |b|
    ensures same <==> a == b
  {
    for i := 0 to |a|
      invariant a[..i] == b[..i]
    {
      if a[i] != b[i] {
        return false;
      }
    }
    return true;
  }

  /** Reads chunk after chunk from both sides.  It ends, and with the verdict, for all lengths and endings. */
  method CompareStreams(a: Reader, b: Reader) returns (r: Result<bool, ReadError>)
    requires a != b && a.position == 0 && b.position == 0
    modifies a, b
    ensures r == Verdict(a.stream, b.stream)
  {
    ghost var x, y := a.stream.readable, b.stream.readable;
    while true
      invariant a.position == b.position && a.Valid() && b.Valid()
      invariant x[..a.position] == y[..a.position]
      decreases |x| - a.position
    {
      ghost var from := a.position;
      var aChunk, aErr := a.ReadFull(CHUNK);
      var bChunk, bErr := b.ReadFull(CHUNK);
      if |aChunk| != |bChunk| {
        return Ok(false);
      }
      var same := EqualChunks(aChunk, bChunk);
      if !same {
        DifferentParts(x, y, from, a.position);
        return Ok(false);
      }
      EqualParts(x, y, from, a.position);
      var aEof := aErr == Eof || aErr == UnexpectedEof;
      var bEof := bErr == Eof || bErr == UnexpectedEof;
      if aEof && bEof {
        return Ok(true);
      }
      if aEof != bEof {
        return Ok(false);
      }
      if aErr != NoError && !aEof {
        return Err(aErr);
      }
      if bErr != NoError && !bEof {
        return Err(bErr);
      }
    }
  }

  lemma DifferentParts(x: Bytes, y: Bytes, i: nat, j: nat)
    requires i <= j <= |x| && j <= |y| && x[i..j] != y[i..j]
    ensures x != y
  {
  }

  lemma EqualParts(x: Bytes, y: Bytes, i: nat, j: nat)
    requires i <= j <= |x| && j <= |y| && x[..i] == y[..i] && x[i..j] == y[i..j]
    ensures x[..j] == y[..j]
  {
    assert x[..j] == x[..i] + x[i..j] && y[..j] == y[..i] + y[i..j];
  }

  /** The part of a file that can be read: all of it, or what comes before a fault. */
  ghost predicate Reads(stream: Stream, data: Bytes) {
    stream.readable <= data && (stream.ending == EndOfFile ==> stream.readable == data)
  }

  /**
   Which errors come to light.  The comparison of two files reports an error exactly when reading fails on both
   sides after the same bytes.  If it fails on one side only, equal files are reported as different.
   */
  lemma FaultsInVerdict(a: Stream, b: Stream, x: Bytes, y: Bytes)
    requires Reads(a, x) && Reads(b, y)
    ensures Verdict(a, b) == Ok(true) ==> x == y
    ensures a.ending == EndOfFile && b.ending == EndOfFile ==> Verdict(a, b) == Ok(x == y)
    ensures Verdict(a, b).Err? <==> a.ending == Fault && b.ending == Fault && a.readable == b.readable
    ensures x == y ==> (Verdict(a, b) == Ok(false) <==> a.ending != b.ending || a.readable != b.readable)
  {
  }

  // ----- opening -----

  /** What a backend gives for a path: nothing, or a stream. */
  datatype Opening = Refused | Opened(stream: Stream)

  /** All openings of one backend, by path. */
  type Readings = string -> Opening

  /** The file can be opened and read to its end. */
  predicate Sound(o: Opening) {
    o.Opened? && o.stream.ending == EndOfFile
  }

  function OpenedVerdict(a: Opening, b: Opening): Result<bool, ReadError> {
    if a.Refused? || b.Refused? then Err(Failed) else Verdict(a.stream, b.stream)
  }

  ghost predicate ReadsOf(o: Opening, data: Bytes) {
    o.Opened? ==> Reads(o.stream, data)
  }

  /** With everything readable the verdict is equality of the bytes, and it is never a false match. */
  lemma SoundVerdict(a: Opening, b: Opening, x: Bytes, y: Bytes)
    requires ReadsOf(a, x) && ReadsOf(b, y)
    ensures Sound(a) && Sound(b) ==> OpenedVerdict(a, b) == Ok(x == y)
    ensures OpenedVerdict(a, b) == Ok(true) ==> x == y
    ensures OpenedVerdict(a, b).Err? <==>
            a.Refused? || b.Refused?
            || (a.stream.ending == Fault && b.stream.ending == Fault && a.stream.readable == b.stream.readable)
  {
    if a.Opened? && b.Opened? {
      FaultsInVerdict(a.stream, b.stream, x, y);
    }
  }
}
