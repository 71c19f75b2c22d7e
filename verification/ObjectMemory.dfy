/**
 The in-memory backend (object/backend/memory/backend.go), and single copies between two backends with their
 retries (object/sync/sync.go, object/sync/retry.go).  Paths are taken as already cleaned.
 */
module ObjectMemory {
  import opened Wrappers
  import opened SyncModel
  import opened Paths

  datatype Error = BackendClosed | InvalidPath | NotFound | IsDirectory | WriterClosed | ReaderClosed | Interrupted

  class Backend {
    var objects: Tree
    var closed: bool

    constructor ()
      ensures objects == map[] && !closed
    {
      objects, closed := map[], false;
    }

    predicate Refuses(p: string)
      reads this
    {
      closed || p == ""
    }

    method NewWriter(p: string) returns (r: Result<MemoryWriter, Error>)
      ensures r.Ok? <==> !Refuses(p)
      ensures r.Ok? ==> fresh(r.value) && r.value.backend == this && r.value.path == p && r.value.buffer == [] && !r.value.closed
    {
      if closed {
        return Err(BackendClosed);
      }
      if p == "" {
        return Err(InvalidPath);
      }
      var w := new MemoryWriter(this, p);
      return Ok(w);
    }

    /** A reader works on a copy of the bytes from `offset` on, `limit` of them if that is positive. */
    method NewReader(p: string, offset: int, limit: int) returns (r: Result<MemoryReader, Error>)
      ensures r.Ok? <==> !Refuses(p) && p in objects && !objects[p].isDir
      ensures r.Ok? ==> fresh(r.value) && !r.value.closed && r.value.position == 0 && r.value.data == Window(objects[p].data, offset, limit)
    {
      if closed {
        return Err(BackendClosed);
      }
      if p == "" {
        return Err(InvalidPath);
      }
      if p !in objects {
        return Err(NotFound);
      }
      if objects[p].isDir {
        return Err(IsDirectory);
      }
      var data := objects[p].data;
      if offset > 0 {
        if offset >= |data| {
          data := [];
        } else {
          data := data[offset..];
        }
      }
      if limit > 0 && |data| > limit {
        data := data[..limit];
      }
      var reader := new MemoryReader(data);
      return Ok(reader);
    }

    method Exists(p: string) returns (r: Result<bool, Error>)
      ensures r.Err? <==> Refuses(p)
      ensures r.Ok? ==> (r.value <==> p in objects)
    {
      if closed {
        return Err(BackendClosed);
      }
      if p == "" {
        return Err(InvalidPath);
      }
      return Ok(p in objects);
    }

    /** Deleting what is not there succeeds. */
    method Delete(p: string) returns (e: Option<Error>)
      modifies this
      ensures closed == old(closed) && (e.Some? <==> old(Refuses(p)))
      ensures objects == if e.Some? then old(objects) else old(objects) - {p}
    {
      if closed {
        return Some(BackendClosed);
      }
      if p == "" {
        return Some(InvalidPath);
      }
      objects := objects - {p};
      return None;
    }

    /** The server-side copy: all or nothing. */
    method Copy(src: string, dst: string, now: Time) returns (e: Option<Error>)
      modifies this
      ensures closed == old(closed)
      ensures e.None? <==> !old(Refuses(src)) && !old(Refuses(dst)) && src in old(objects) && !old(objects)[src].isDir
      ensures e.Some? ==> objects == old(objects)
      ensures e.None? ==> objects == old(objects)[dst := Object(old(objects)[src].data, now, "", false)]
    {
      if closed {
        return Some(BackendClosed);
      }
      if src == "" || dst == "" {
        return Some(InvalidPath);
      }
      if src !in objects {
        return Some(NotFound);
      }
      if objects[src].isDir {
        return Some(IsDirectory);
      }
      objects := objects[dst := Object(objects[src].data, now, "", false)];
      return None;
    }

    /** The server-side move; a move onto itself loses the object, for the old path is deleted last. */
    method Move(src: string, dst: string, now: Time) returns (e: Option<Error>)
      modifies this
      ensures closed == old(closed)
      ensures e.None? <==> !old(Refuses(src)) && !old(Refuses(dst)) && src in old(objects) && !old(objects)[src].isDir
      ensures e.Some? ==> objects == old(objects)
      ensures e.None? ==> src !in objects && forall p | p != src && p != dst :: Same(objects, old(objects), p)
      ensures e.None? ==> (HasBytes(objects, dst, old(objects)[src].data) <==> src != dst)
    {
      if closed {
        return Some(BackendClosed);
      }
      if src == "" || dst == "" {
        return Some(InvalidPath);
      }
      if src !in objects {
        return Some(NotFound);
      }
      if objects[src].isDir {
        return Some(IsDirectory);
      }
      objects := objects[dst := Object(objects[src].data, now, "", false)];
      objects := objects - {src};
      return None;
    }

    /** Lists the files whose path starts with the prefix, each once. */
    method List(prefix: string) returns (r: Result<seq<string>, Error>)
      ensures r.Err? <==> closed
      ensures r.Ok? ==> forall i, j | 0 <= i < j < |r.value| :: r.value[i] != r.value[j]
      ensures r.Ok? ==> forall p :: p in r.value <==> p in objects && !objects[p].isDir && Matches(prefix, p)
    {
      if closed {
        return Err(BackendClosed);
      }
      var paths: seq<string> := [];
      var left := objects.Keys;
      while left != {}
        invariant left <= objects.Keys
        invariant forall i, j | 0 <= i < j < |paths| :: paths[i] != paths[j]
        invariant forall p :: p in paths <==> p in objects && p !in left && !objects[p].isDir && Matches(prefix, p)
        decreases |left|
      {
        var p :| p in left;
        left := left - {p};
        if objects[p].isDir {
          continue;
        }
        if prefix == "" || prefix <= p || prefix + "/" <= p {
          paths := paths + [p];
        }
      }
      return Ok(paths);
    }

    method Close()
      modifies this
      ensures closed && objects == map[]
    {
      closed, objects := true, map[];
    }
  }

  /** No file has the base as a prefix of its path without lying below it. */
  ghost predicate Bounded(objects: Tree, base: string) {
    forall p | p in objects && !objects[p].isDir :: Clean(p) && (Matches(base, p) ==> Below(base, p))
  }

  /**
   Listing a base and cutting it off each path gives the files of the subtree, each once, and every path given
   leads back to the file listed.
   */
  method ListRelative(b: Backend, base: string) returns (r: Result<seq<string>, Error>)
    requires Bounded(b.objects, base)
    ensures r.Err? <==> b.closed
    ensures r.Ok? ==> forall i, j | 0 <= i < j < |r.value| :: r.value[i] != r.value[j]
    ensures r.Ok? ==> forall rel :: rel in r.value <==> rel in TreeOf(b.objects, base) && !TreeOf(b.objects, base)[rel].isDir
  {
    var listed := b.List(base);
    if listed.Err? {
      return Err(listed.error);
    }
    var paths, rels := listed.value, [];
    for i := 0 to |paths|
      invariant |rels| == i && forall k | 0 <= k < i :: rels[k] == Relative(base, paths[k])
    {
      var rel := paths[i];
      if base != "" && |paths[i]| > |base| {
        rel := paths[i][|base|..];
        if rel[0] == '/' {
          rel := rel[1..];
        }
      }
      rels := rels + [rel];
    }
    forall k | 0 <= k < |rels|
      ensures rels[k] != "" && Full(base, rels[k]) == paths[k]
    {
      assert paths[k] in paths;
      RelativeRecovers(base, paths[k]);
    }
    forall rel: string
      ensures rel in rels <==> rel in TreeOf(b.objects, base) && !TreeOf(b.objects, base)[rel].isDir
    {
      RelativeListed(b.objects, base, paths, rels, rel);
    }
    return Ok(rels);
  }

  lemma RelativeListed(objects: Tree, base: string, paths: seq<string>, rels: seq<string>, rel: string)
    requires |rels| == |paths| && forall p :: p in paths <==> p in objects && !objects[p].isDir && Matches(base, p)
    requires forall k | 0 <= k < |rels| :: rels[k] == Relative(base, paths[k]) && rels[k] != "" && Full(base, rels[k]) == paths[k]
    ensures rel in rels <==> rel in TreeOf(objects, base) && !TreeOf(objects, base)[rel].isDir
  {
    if rel != "" {
      TreeAt(objects, base, rel);
      FullIsBelow(base, rel);
      if Full(base, rel) in objects && !objects[Full(base, rel)].isDir {
        var k :| 0 <= k < |paths| && paths[k] == Full(base, rel);
        assert rels[k] == rel;
      }
    }
    if rel in rels {
      var k :| 0 <= k < |rels| && rels[k] == rel;
      assert paths[k] in paths;
    }
  }

  function Window(data: Bytes, offset: int, limit: int): Bytes {
    var rest := if offset <= 0 then data else if offset >= |data| then [] else data[offset..];
    if limit > 0 && |rest| > limit then rest[..limit] else rest
  }

  /** A window starts at the offset, past what is before it, and has what is left, up to the limit if there is one. */
  lemma WindowMeans(data: Bytes, offset: nat, limit: int)
    ensures
      var w := Window(data, offset, limit);
      var rest := if offset < |data| then |data| - offset else 0;
      && |w| == (if 0 < limit < rest then limit else rest)
      && forall i | 0 <= i < |w| :: w[i] == data[offset + i]
    ensures forall negative: int | negative < 0 :: Window(data, negative, limit) == Window(data, 0, limit)
  {
  }

  class MemoryWriter {
    const backend: Backend
    const path: string
    var buffer: Bytes
    var closed: bool

    constructor (backend: Backend, path: string)
      ensures this.backend == backend && this.path == path && buffer == [] && !closed
    {
      this.backend, this.path, buffer, closed := backend, path, [], false;
    }

    method Write(chunk: Bytes) returns (e: Option<Error>)
      modifies this
      ensures closed == old(closed) && (e.Some? <==> old(closed))
      ensures buffer == if e.Some? then old(buffer) else old(buffer) + chunk
    {
      if closed {
        return Some(WriterClosed);
      }
      buffer := buffer + chunk;
      return None;
    }

    /** Commits the bytes written, the first time. */
    method Close(now: Time) returns (e: Option<Error>)
      modifies this, backend
      ensures closed && buffer == old(buffer) && backend.closed == old(backend.closed)
      ensures e.Some? <==> !old(closed) && old(backend.closed)
      ensures backend.objects == if old(closed) || old(backend.closed) then old(backend.objects)
                                 else old(backend.objects)[path := Object(buffer, now, "", false)]
    {
      if closed {
        return None;
      }
      closed := true;
      if backend.closed {
        return Some(BackendClosed);
      }
      backend.objects := backend.objects[path := Object(buffer, now, "", false)];
      return None;
    }
  }

  class MemoryReader {
    const data: Bytes
    var position: nat
    var closed: bool

    constructor (data: Bytes)
      ensures this.data == data && position == 0 && !closed
    {
      this.data, position, closed := data, 0, false;
    }

    /** Up to `size` of the bytes left; no bytes and success is the end of the file. */
    method Read(size: nat) returns (r: Result<Bytes, Error>)
      requires position <= |data|
      modifies this
      ensures closed == old(closed) && position <= |data|
      ensures r.Err? <==> old(closed)
      ensures r.Err? ==> position == old(position)
      ensures r.Ok? ==> position == old(position) + |r.value| && |r.value| <= size && r.value == data[old(position)..position]
      ensures r.Ok? && size > 0 ==> (r.value == [] <==> old(position) == |data|)
    {
      if closed {
        return Err(ReaderClosed);
      }
      var n := if |data| - position < size then |data| - position else size;
      position := position + n;
      return Ok(data[position - n..position]);
    }
  }

  /** The source is a file and both backends take the paths. */
  predicate Copyable(src: Backend, srcPath: string, dst: Backend, dstPath: string)
    reads src, dst
  {
    !src.Refuses(srcPath) && srcPath in src.objects && !src.objects[srcPath].isDir && !dst.Refuses(dstPath)
  }

  const COPY_BUFFER := 32768

  /** A broken copy leaves the path alone or holds the first bytes of the source. */
  ghost predicate Truncated(from: Tree, p: string, to: Tree, to': Tree, q: string) {
    to' == to || (q in to' && p in from && to'[q].data <= from[p].data)
  }

  /**
   One attempt.  Within one backend the copy is made by the backend.  Otherwise bytes are read and written until
   the source ends or the transfer is interrupted; in either case the writer is closed, which commits what was
   written so far.  A success is a whole copy, and a failure touches nothing but the destination path, where it
   leaves a beginning of the source.  A copy that is not interrupted succeeds exactly when both paths can be used.
   */
  method CopyFileSingle(src: Backend, dst: Backend, srcPath: string, dstPath: string, interrupts: bool) returns (ok: bool)
    modifies dst
    ensures dst.closed == old(dst.closed) && (src != dst ==> src.objects == old(src.objects))
    ensures CopyResult(old(src.objects), srcPath, old(dst.objects), dst.objects, dstPath, ok)
    ensures Truncated(old(src.objects), srcPath, old(dst.objects), dst.objects, dstPath)
    ensures src == dst && !ok ==> dst.objects == old(dst.objects)
    ensures ok ==> old(Copyable(src, srcPath, dst, dstPath))
    ensures !interrupts && old(Copyable(src, srcPath, dst, dstPath)) ==> ok
  {
    var now: Time := *;
    if src == dst {
      var e := src.Copy(srcPath, dstPath, now);
      return e.None?;
    }
    var source := src.NewReader(srcPath, 0, 0);
    if source.Err? {
      return false;
    }
    var reader := source.value;
    var created := dst.NewWriter(dstPath);
    if created.Err? {
      return false;
    }
    var writer := created.value;
    var broken := Transfer(reader, writer, interrupts);
    var e := writer.Close(now);
    return !broken && e.None?;
  }

  /** The copy loop: what is written is what was read, and all of it unless the transfer breaks. */
  method Transfer(reader: MemoryReader, writer: MemoryWriter, interrupts: bool) returns (broken: bool)
    requires reader.position == 0 && !reader.closed && writer.buffer == [] && !writer.closed
    modifies reader, writer
    ensures !writer.closed && writer.buffer <= reader.data
    ensures !broken ==> writer.buffer == reader.data
    ensures broken ==> interrupts
  {
    broken := false;
    while true
      invariant reader.position <= |reader.data| && !reader.closed && !writer.closed
      invariant writer.buffer == reader.data[..reader.position]
      decreases |reader.data| - reader.position
    {
      var interrupted: bool := *;
      if interrupted && interrupts {
        return true;
      }
      var r := reader.Read(COPY_BUFFER);
      if r.Err? {
        return true;
      }
      if r.value == [] {
        return false;
      }
      var e := writer.Write(r.value);
      if e.Some? {
        return true;
      }
    }
  }

  lemma CopyAgain(from: Tree, from': Tree, p: string, to: Tree, to': Tree, to'': Tree, q: string, ok: bool)
    requires CopyResult(from, p, to, to', q, false) && Same(from', from, p) && CopyResult(from', p, to', to'', q, ok)
    ensures CopyResult(from, p, to, to'', q, ok)
  {
    forall r | r != q
      ensures Same(to'', to, r)
    {
      assert Same(to', to, r) && Same(to'', to', r);
    }
  }

  /** Retries keep the contract of a single attempt, for each starts the destination over. */
  method CopyFileWithContext(src: Backend, dst: Backend, srcPath: string, dstPath: string, maxRetries: int, interrupts: bool)
    returns (ok: bool)
    modifies dst
    ensures dst.closed == old(dst.closed) && (src != dst ==> src.objects == old(src.objects))
    ensures CopyResult(old(src.objects), srcPath, old(dst.objects), dst.objects, dstPath, ok)
    ensures ok ==> old(Copyable(src, srcPath, dst, dstPath))
    ensures !interrupts && old(Copyable(src, srcPath, dst, dstPath)) ==> ok
  {
    if maxRetries <= 0 {
      ok := CopyFileSingle(src, dst, srcPath, dstPath, interrupts);
      return;
    }
    ok := false;
    for attempt := 0 to maxRetries + 1
      invariant !ok && dst.closed == old(dst.closed) && src.objects == old(src.objects)
      invariant CopyResult(old(src.objects), srcPath, old(dst.objects), dst.objects, dstPath, false)
      invariant attempt > 0 ==> interrupts || !old(Copyable(src, srcPath, dst, dstPath))
    {
      ghost var from, to := src.objects, dst.objects;
      assert Same(from, old(src.objects), srcPath);
      ok := CopyFileSingle(src, dst, srcPath, dstPath, interrupts);
      CopyAgain(old(src.objects), from, srcPath, old(dst.objects), to, dst.objects, dstPath, ok);
      if ok {
        return;
      }
      var giveUp: bool := *;
      if giveUp {
        return;
      }
    }
  }
}
