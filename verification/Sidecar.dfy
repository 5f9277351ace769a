/** Capped sidecars (src/dr_store/document_directory/sidecar.py).

    A sidecar keeps the first bytes of a stream and, separately, the last bytes of what remains. The file and
    the bytes fed to the hasher are sequences; SHA-256 is any function from bytes to content hashes. */
module Sidecar {
  import opened Wrappers
  import opened ObjectReferences
  import opened BoundedReads

  /** No head cap keeps the whole stream as head. */
  datatype Caps = Caps(head: Option<nat>, tail: nat)

  // ---- What a sidecar of a whole stream is ----

  function HeadLength(caps: Caps, length: nat): (n: nat)
    ensures n <= length
  {
    if caps.head.None? then length else Min(caps.head.value, length)
  }

  function Head(caps: Caps, stream: Bytes): Bytes {
    stream[..HeadLength(caps, |stream|)]
  }

  /** What the head leaves over. */
  function Rest(caps: Caps, stream: Bytes): Bytes {
    stream[HeadLength(caps, |stream|)..]
  }

  function Last(bytes: Bytes, count: nat): Bytes {
    bytes[|bytes| - Min(count, |bytes|)..]
  }

  function Tail(caps: Caps, stream: Bytes): Bytes {
    Last(Rest(caps, stream), caps.tail)
  }

  function Stored(caps: Caps, stream: Bytes): Bytes {
    Head(caps, stream) + Tail(caps, stream)
  }

  function Flatten(chunks: seq<Bytes>): Bytes {
    if chunks == [] then [] else Flatten(chunks[..|chunks| - 1]) + chunks[|chunks| - 1]
  }

  // ---- The writer ----

  /** The writer's fields. */
  datatype Accounting = Accounting(
    headLength: nat, file: Bytes, hashed: Bytes, tail: Bytes, dropped: nat, produced: nat)

  const NOTHING := Accounting(0, [], [], [], 0, 0)

  /** The fields that a stream, however it was cut, should leave behind. */
  function Retained(caps: Caps, stream: Bytes): Accounting {
    var head, tail := Head(caps, stream), Tail(caps, stream);
    Accounting(|head|, head, head, tail, |stream| - |head| - |tail|, |stream|)
  }

  function StoreHead(a: Accounting, part: Bytes): Accounting {
    a.(file := a.file + part, hashed := a.hashed + part, headLength := a.headLength + |part|)
  }

  function KeepTail(caps: Caps, a: Accounting, remainder: Bytes): Accounting {
    if remainder == [] then a
    else if caps.tail == 0 then a.(dropped := a.dropped + |remainder|)
    else
      var extended := a.tail + remainder;
      var overflow := |extended| - caps.tail;
      if overflow > 0 then a.(tail := extended[overflow..], dropped := a.dropped + overflow)
      else a.(tail := extended)
  }

  /** One write that succeeds. */
  function Absorb(caps: Caps, a: Accounting, chunk: Bytes): Accounting {
    var counted := a.(produced := a.produced + |chunk|);
    if caps.head.None? then StoreHead(counted, chunk)
    else
      var room := caps.head.value - a.headLength;
      if room > 0 then
        var taken := Min(room, |chunk|);
        KeepTail(caps, StoreHead(counted, chunk[..taken]), chunk[taken..])
      else KeepTail(caps, counted, chunk)
  }

  function AbsorbAll(caps: Caps, chunks: seq<Bytes>): Accounting {
    if chunks == [] then NOTHING else Absorb(caps, AbsorbAll(caps, chunks[..|chunks| - 1]), chunks[|chunks| - 1])
  }

  datatype Summary = Summary(headLength: nat, tailLength: nat, produced: nat, dropped: nat, sidecarHash: string)

  predicate CapOk(cap: Option<int>) {
    cap.None? || cap.value >= 0
  }

  class SidecarWriter {
    const caps: Caps
    var headLength: nat
    var file: Bytes
    var hashed: Bytes
    var tail: Bytes
    var dropped: nat
    var produced: nat
    var closed: bool

    constructor (caps: Caps)
      ensures this.caps == caps && Fields() == NOTHING && !closed
    {
      this.caps := caps;
      headLength, file, hashed, tail, dropped, produced := 0, [], [], [], 0, 0;
      closed := false;
    }

    function Fields(): Accounting
      reads this
    {
      Accounting(headLength, file, hashed, tail, dropped, produced)
    }

    /** Negative caps are refused before the file is opened; a missing tail cap is zero. */
    static method Create(headCap: Option<int>, tailCap: Option<int>, fileOpens: bool) returns (w: Option<SidecarWriter>)
      ensures w.Some? <==> CapOk(headCap) && CapOk(tailCap) && fileOpens
      ensures w.Some? ==> fresh(w.value) && w.value.Fields() == NOTHING && !w.value.closed
      ensures w.Some? && headCap.Some? ==> w.value.caps.head == Some(headCap.value)
      ensures w.Some? && headCap.None? ==> w.value.caps.head.None?
      ensures w.Some? ==> w.value.caps.tail == if tailCap.None? then 0 else tailCap.value
    {
      if !CapOk(headCap) || !CapOk(tailCap) || !fileOpens {
        return None;
      }
      var head: Option<nat> := if headCap.None? then None else Some(headCap.value);
      var writer := new SidecarWriter(Caps(head, if tailCap.None? then 0 else tailCap.value));
      return Some(writer);
    }

    /** An error leaves the chunk counted and nothing else changed; the writer is then abandoned. */
    method Write(chunk: Bytes, fileAccepts: bool) returns (ok: bool)
      modifies this
      ensures fileAccepts ==> ok
      ensures ok ==> Fields() == Absorb(caps, old(Fields()), chunk)
      ensures !ok ==> Fields() == old(Fields()).(produced := old(produced) + |chunk|)
      ensures closed == old(closed)
    {
      produced := produced + |chunk|;
      var remainder := chunk;
      if caps.head.None? {
        ok := StoreHeadPart(chunk, fileAccepts);
        return;
      }
      var room := caps.head.value - headLength;
      if room > 0 {
        var taken := Min(room, |chunk|);
        ok := StoreHeadPart(chunk[..taken], fileAccepts);
        if !ok {
          return;
        }
        remainder := chunk[taken..];
      }
      KeepTailPart(remainder);
      return true;
    }

    method KeepTailPart(remainder: Bytes)
      modifies this`tail, this`dropped
      ensures Fields() == KeepTail(caps, old(Fields()), remainder)
    {
      if remainder == [] {
        return;
      }
      if caps.tail == 0 {
        dropped := dropped + |remainder|;
        return;
      }
      tail := tail + remainder;
      var overflow := |tail| - caps.tail;
      if overflow > 0 {
        tail := tail[overflow..];
        dropped := dropped + overflow;
      }
    }

    method StoreHeadPart(part: Bytes, fileAccepts: bool) returns (ok: bool)
      modifies this`file, this`hashed, this`headLength
      ensures ok == fileAccepts
      ensures Fields() == if ok then StoreHead(old(Fields()), part) else old(Fields())
    {
      if fileAccepts {
        file := file + part;
        hashed := hashed + part;
        headLength := headLength + |part|;
      }
      return fileAccepts;
    }

    /** The tail follows the head in the file; the file is closed whatever happens. */
    method Finish(sha256: Bytes -> string, fileAccepts: bool) returns (r: Option<Summary>)
      modifies this
      ensures closed && (r.Some? <==> fileAccepts)
      ensures r.Some? ==> file == old(file + tail)
      ensures r.Some? ==> r.value == Summary(old(headLength), |old(tail)|, old(produced), old(dropped),
              sha256(old(hashed + tail)))
    {
      var last := tail;
      if !fileAccepts {
        closed := true;
        return None;
      }
      file := file + last;
      closed := true;
      hashed := hashed + last;
      return Some(Summary(headLength, |last|, produced, dropped, sha256(hashed)));
    }
  }

  // ---- Chunk independence ----

  lemma LastOfLast(a: Bytes, b: Bytes, count: nat)
    ensures Last(Last(a, count) + b, count) == Last(a + b, count)
  {}

  /** The tail of a stream's rest, extended. */
  lemma KeepTailExtends(caps: Caps, a: Accounting, rest: Bytes, more: Bytes)
    requires a.tail == Last(rest, caps.tail)
    ensures KeepTail(caps, a, more)
            == a.(tail := Last(rest + more, caps.tail),
                  dropped := a.dropped + |a.tail| + |more| - |Last(rest + more, caps.tail)|)
  {
    if more == [] {
      assert rest + more == rest;
    } else if caps.tail == 0 {
      assert a.tail == [] && Last(rest + more, 0) == [];
    } else {
      LastOfLast(rest, more, caps.tail);
      assert Last(a.tail + more, caps.tail)
             == (if |a.tail + more| > caps.tail then (a.tail + more)[|a.tail + more| - caps.tail..] else a.tail + more);
    }
  }

  /** A full head stays, and the whole chunk is left over. */
  lemma FullHeadExtends(caps: Caps, stream: Bytes, chunk: Bytes)
    requires caps.head.Some? && caps.head.value <= |stream|
    ensures Head(caps, stream + chunk) == Head(caps, stream) && |Head(caps, stream)| == caps.head.value
    ensures Rest(caps, stream + chunk) == Rest(caps, stream) + chunk
  {}

  /** A head with room takes what it can, and the remainder of the chunk is left over. */
  lemma RoomyHeadExtends(caps: Caps, stream: Bytes, chunk: Bytes, taken: nat)
    requires caps.head.Some? && |stream| < caps.head.value && taken == Min(caps.head.value - |stream|, |chunk|)
    ensures Head(caps, stream) == stream && Rest(caps, stream) == []
    ensures Head(caps, stream + chunk) == stream + chunk[..taken]
    ensures Rest(caps, stream + chunk) == chunk[taken..]
  {}

  /** A stream within the head cap is all head. */
  lemma WithinHead(caps: Caps, stream: Bytes)
    requires caps.head.Some? && |stream| <= caps.head.value
    ensures Retained(caps, stream) == Accounting(|stream|, stream, stream, [], 0, |stream|)
  {}

  /** A write into a roomy head fills it and passes the remainder on. */
  lemma AbsorbFillsHead(caps: Caps, stream: Bytes, chunk: Bytes, taken: nat)
    requires caps.head.Some? && |stream| < caps.head.value && taken == Min(caps.head.value - |stream|, |chunk|)
    ensures var head := stream + chunk[..taken];
            Absorb(caps, Accounting(|stream|, stream, stream, [], 0, |stream|), chunk)
            == KeepTail(caps, Accounting(|head|, head, head, [], 0, |stream| + |chunk|), chunk[taken..])
  {}

  lemma RetainedOverHead(caps: Caps, whole: Bytes, head: Bytes, rest: Bytes)
    requires Head(caps, whole) == head && Rest(caps, whole) == rest && |whole| == |head| + |rest|
    ensures Retained(caps, whole)
            == Accounting(|head|, head, head, Last(rest, caps.tail), |rest| - |Last(rest, caps.tail)|, |whole|)
  {}

  lemma AbsorbIntoRoom(caps: Caps, stream: Bytes, chunk: Bytes)
    requires caps.head.Some? && |stream| < caps.head.value
    ensures Absorb(caps, Retained(caps, stream), chunk) == Retained(caps, stream + chunk)
  {
    var taken := Min(caps.head.value - |stream|, |chunk|);
    var head, rest := stream + chunk[..taken], chunk[taken..];
    WithinHead(caps, stream);
    AbsorbFillsHead(caps, stream, chunk, taken);
    RoomKeepsTail(caps, Accounting(|head|, head, head, [], 0, |stream| + |chunk|), rest);
    RoomyHeadExtends(caps, stream, chunk, taken);
    RetainedOverHead(caps, stream + chunk, head, rest);
  }

  lemma RoomKeepsTail(caps: Caps, a: Accounting, rest: Bytes)
    requires a.tail == [] && a.dropped == 0
    ensures KeepTail(caps, a, rest) == a.(tail := Last(rest, caps.tail), dropped := |rest| - |Last(rest, caps.tail)|)
  {
    KeepTailExtends(caps, a, [], rest);
    assert [] + rest == rest;
  }

  lemma AbsorbPastFullHead(caps: Caps, stream: Bytes, chunk: Bytes)
    requires caps.head.Some? && caps.head.value <= |stream|
    ensures Absorb(caps, Retained(caps, stream), chunk) == Retained(caps, stream + chunk)
  {
    FullHeadExtends(caps, stream, chunk);
    KeepTailExtends(caps, Retained(caps, stream).(produced := |stream| + |chunk|), Rest(caps, stream), chunk);
  }

  lemma AbsorbWithoutCap(caps: Caps, stream: Bytes, chunk: Bytes)
    requires caps.head.None?
    ensures Absorb(caps, Retained(caps, stream), chunk) == Retained(caps, stream + chunk)
  {
    assert Head(caps, stream) == stream && Head(caps, stream + chunk) == stream + chunk;
  }

  /** One write takes the retained form of a stream to the retained form of the longer stream. */
  lemma AbsorbExtends(caps: Caps, stream: Bytes, chunk: Bytes)
    ensures Absorb(caps, Retained(caps, stream), chunk) == Retained(caps, stream + chunk)
  {
    if caps.head.None? {
      AbsorbWithoutCap(caps, stream, chunk);
    } else if |stream| < caps.head.value {
      AbsorbIntoRoom(caps, stream, chunk);
    } else {
      AbsorbPastFullHead(caps, stream, chunk);
    }
  }

  /** CHUNK INDEPENDENCE: however a stream is cut into writes, what is kept is the first head-cap bytes of the
      stream and the last tail-cap bytes of what remains; the file and the hasher hold the same bytes. */
  lemma {:induction false} ChunkIndependence(caps: Caps, chunks: seq<Bytes>)
    ensures AbsorbAll(caps, chunks) == Retained(caps, Flatten(chunks))
  {
    if chunks != [] {
      var before := chunks[..|chunks| - 1];
      ChunkIndependence(caps, before);
      AbsorbExtends(caps, Flatten(before), chunks[|chunks| - 1]);
    }
  }

  /** A stream is its head, a dropped middle and its tail; nothing is dropped unless both caps are full. */
  lemma StreamSplits(caps: Caps, stream: Bytes)
    ensures var head, tail := Head(caps, stream), Tail(caps, stream);
            && |head| + |tail| <= |stream|
            && stream == head + stream[|head|..|stream| - |tail|] + tail
            && (caps.head.None? ==> head == stream && tail == [])
            && (|head| + |tail| < |stream| ==> caps.head.Some? && |head| == caps.head.value && |tail| == caps.tail)
  {
    var head, tail := Head(caps, stream), Tail(caps, stream);
    assert tail == stream[|stream| - |tail|..];
    assert stream == stream[..|head|] + stream[|head|..|stream| - |tail|] + stream[|stream| - |tail|..];
  }

  /** Every byte produced is in the head, in the tail or dropped; a byte is dropped only from between a full
      head and a full tail; the hasher has seen exactly the bytes of the finished file. */
  lemma KeptBytes(caps: Caps, chunks: seq<Bytes>)
    ensures var a, stream := AbsorbAll(caps, chunks), Flatten(chunks);
            && a.produced == |stream| == a.headLength + |a.tail| + a.dropped
            && a.headLength == |a.file| && a.hashed == a.file
            && stream == a.file + stream[a.headLength..a.headLength + a.dropped] + a.tail
            && (caps.head.None? ==> a.file == stream)
            && (a.dropped > 0 ==> caps.head.Some? && a.headLength == caps.head.value && |a.tail| == caps.tail)
  {
    ChunkIndependence(caps, chunks);
    StreamSplits(caps, Flatten(chunks));
  }

  // ---- Verification ----

  /** verify_sidecar: one verified read of exactly the expected length. It accepts exactly a file that verifies and
      whose reads succeed, and passes on the reason for which the read is refused. */
  method VerifySidecar(
    sha256: Bytes -> string, child: Child, expectedHash: string, expectedHead: int, expectedTail: int, calls: ReadCalls)
    returns (failure: Option<FailureReason>)
    ensures failure.None? <==>
              SidecarVerifies(sha256, child, expectedHash, expectedHead, expectedTail)
              && !ReadFails(child.content, expectedHead + expectedTail, calls)
    ensures expectedHead < 0 || expectedTail < 0 ==> failure == Some(BoundsExceeded)
    ensures expectedHead >= 0 && expectedTail >= 0 && failure.Some? ==>
              var length := expectedHead + expectedTail;
              failure.value == RefusalReason(child, length, length, expectedHash,
                  ReadFails(child.content, length, calls))
  {
    if expectedHead < 0 || expectedTail < 0 {
      return Some(BoundsExceeded);
    }
    var length := expectedHead + expectedTail;
    var r, _, _ := ReadVerified(sha256, child, length, length, expectedHash, calls);
    return if r.Success? then None else Some(r.error);
  }

  predicate SidecarVerifies(sha256: Bytes -> string, child: Child, expectedHash: string, expectedHead: int,
      expectedTail: int) {
    && expectedHead >= 0 && expectedTail >= 0
    && Verifies(sha256, child, expectedHead + expectedTail, expectedHead + expectedTail, expectedHash)
  }

  /** FINALIZED SIDECARS VERIFY: the file left by any chunking of any stream verifies against its summary, and
      a file verifies against that summary only if it has the same length and hash. */
  lemma FinalizedSidecarVerifies(sha256: Bytes -> string, caps: Caps, chunks: seq<Bytes>, child: Child)
    requires forall b :: IsContentHash(sha256(b))
    requires child.Readable()
    ensures var a := AbsorbAll(caps, chunks);
            var stored := Stored(caps, Flatten(chunks));
            SidecarVerifies(sha256, child, sha256(a.hashed + a.tail), a.headLength, |a.tail|)
            <==> |child.content| == |stored| && sha256(child.content) == sha256(stored)
  {
    ChunkIndependence(caps, chunks);
  }
}
