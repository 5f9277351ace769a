/** Bounded and verified whole-file reads (src/dr_store/core/descriptor_io.py, src/dr_store/core/verified_read.py).

    A file is its bytes, fixed while one reader reads it. An os.read call may fail and may return any
    non-empty part of what was asked for. SHA-256 is any function from bytes to text. */
module BoundedReads {
  import opened Wrappers
  import opened ObjectReferences

  type Bytes = seq<bv8>

  const DEFAULT_CHUNK_BYTES := 0x10000

  /** What the successive os.read calls on one descriptor do: fail, or return up to so many bytes. */
  type ReadCalls = nat -> Option<nat>

  function Min(a: int, b: int): int {
    if a < b then a else b
  }

  /** The number of bytes one successful os.read returns: none when none are asked for or left, otherwise
      any number from one to what is asked for and left, as the call is willing. */
  function ReadCount(left: nat, requested: nat, willing: nat): (count: nat)
    ensures count <= requested && count <= left
    ensures count == 0 <==> requested == 0 || left == 0
  {
    if requested == 0 || left == 0 then 0
    else if willing == 0 then 1
    else Min(willing, Min(requested, left))
  }

  /** The first count bytes, or all of them. */
  function Upto(content: Bytes, count: nat): Bytes {
    content[..Min(count, |content|)]
  }

  /** The number of bytes the first k calls return, up to limit bytes of a file of this length. */
  function Got(length: nat, limit: nat, chunkBytes: nat, calls: ReadCalls, k: nat): (got: nat)
    ensures got <= length && got <= limit
  {
    if k == 0 then 0
    else
      var before := Got(length, limit, chunkBytes, calls, k - 1);
      var willing := if calls(k - 1).None? then 0 else calls(k - 1).value;
      before + ReadCount(length - before, Min(chunkBytes, limit - before), willing)
  }

  /** Every call before k succeeded and returned something. */
  ghost predicate Progressed(length: nat, limit: nat, chunkBytes: nat, calls: ReadCalls, k: nat) {
    forall j | 0 <= j < k ::
      calls(j).Some? && Got(length, limit, chunkBytes, calls, j) < Got(length, limit, chunkBytes, calls, j + 1)
  }

  /** Call k is made while bytes are still wanted. */
  ghost predicate IsMade(length: nat, limit: nat, chunkBytes: nat, calls: ReadCalls, k: nat) {
    Progressed(length, limit, chunkBytes, calls, k) && Got(length, limit, chunkBytes, calls, k) < limit
  }

  /** One of the calls that are made fails. */
  ghost predicate SomeReadFails(length: nat, limit: nat, chunkBytes: nat, calls: ReadCalls) {
    exists k: nat :: IsMade(length, limit, chunkBytes, calls, k) && calls(k).None?
  }

  lemma EarlierCallsProgressed(length: nat, limit: nat, chunkBytes: nat, calls: ReadCalls, k: nat, m: nat)
    requires k < m && Progressed(length, limit, chunkBytes, calls, m)
    ensures calls(k).Some? && Got(length, limit, chunkBytes, calls, k) < Got(length, limit, chunkBytes, calls, k + 1)
  {}

  /** After a call that returned nothing, or enough, no further call is made. */
  lemma CallsEnd(length: nat, limit: nat, chunkBytes: nat, calls: ReadCalls, k: nat)
    requires Progressed(length, limit, chunkBytes, calls, k)
    requires Got(length, limit, chunkBytes, calls, k) >= limit
             || (calls(k).Some?
                 && Got(length, limit, chunkBytes, calls, k + 1) == Got(length, limit, chunkBytes, calls, k))
    ensures !SomeReadFails(length, limit, chunkBytes, calls)
  {
    forall m: nat | IsMade(length, limit, chunkBytes, calls, m) ensures calls(m).Some? {
      if k < m {
        EarlierCallsProgressed(length, limit, chunkBytes, calls, k, m);
      } else if m < k {
        EarlierCallsProgressed(length, limit, chunkBytes, calls, m, k);
      }
    }
  }

  lemma CallProgresses(length: nat, limit: nat, chunkBytes: nat, calls: ReadCalls, k: nat)
    requires Progressed(length, limit, chunkBytes, calls, k) && calls(k).Some?
    requires Got(length, limit, chunkBytes, calls, k) < Got(length, limit, chunkBytes, calls, k + 1)
    ensures Progressed(length, limit, chunkBytes, calls, k + 1)
  {}

  lemma GotGrows(length: nat, limit: nat, chunkBytes: nat, calls: ReadCalls, k: nat)
    requires calls(k).Some?
    ensures var got := Got(length, limit, chunkBytes, calls, k);
            Got(length, limit, chunkBytes, calls, k + 1)
            == got + ReadCount(length - got, Min(chunkBytes, limit - got), calls(k).value)
  {}

  /** One successful call of the loop. */
  lemma OneCall(length: nat, limit: nat, chunkBytes: nat, calls: ReadCalls, k: nat, got: nat, count: nat)
    requires Progressed(length, limit, chunkBytes, calls, k) && calls(k).Some?
    requires got == Got(length, limit, chunkBytes, calls, k)
    requires count == ReadCount(length - got, Min(chunkBytes, limit - got), calls(k).value)
    ensures Got(length, limit, chunkBytes, calls, k + 1) == got + count
    ensures if count == 0 then !SomeReadFails(length, limit, chunkBytes, calls)
            else Progressed(length, limit, chunkBytes, calls, k + 1)
  {
    GotGrows(length, limit, chunkBytes, calls, k);
    if count == 0 {
      CallsEnd(length, limit, chunkBytes, calls, k);
    } else {
      CallProgresses(length, limit, chunkBytes, calls, k);
    }
  }

  /** One successful os.read at an offset. */
  method OsRead(content: Bytes, at: nat, requested: nat, willing: nat) returns (chunk: Bytes)
    requires at <= |content|
    ensures |chunk| == ReadCount(|content| - at, requested, willing)
    ensures content[..at] + chunk == content[..at + |chunk|]
  {
    chunk := content[at..at + ReadCount(|content| - at, requested, willing)];
  }

  /** Whatever the calls return, the bytes read are the file's first maxBytes + 1, or the whole file: an
      over-long file is always seen to be over-long, and never read further. No bytes are read when the
      chunk size is zero. The read fails exactly when one of its calls fails. */
  method ReadBounded(content: Bytes, maxBytes: nat, chunkBytes: nat, calls: ReadCalls) returns (r: Option<Bytes>)
    ensures r.None? <==> SomeReadFails(|content|, maxBytes + 1, chunkBytes, calls)
    ensures r.Some? ==> r.value == if chunkBytes == 0 then [] else Upto(content, maxBytes + 1)
  {
    var chunks: Bytes := [];
    var limit := maxBytes + 1;
    var k: nat := 0;
    while |chunks| < limit
      invariant |chunks| <= |content| && |chunks| <= limit
      invariant chunks == content[..|chunks|] && |chunks| == Got(|content|, limit, chunkBytes, calls, k)
      invariant chunkBytes == 0 ==> chunks == []
      invariant Progressed(|content|, limit, chunkBytes, calls, k)
      decreases limit - |chunks|
    {
      var requested := Min(chunkBytes, limit - |chunks|);
      if calls(k).None? {
        assert IsMade(|content|, limit, chunkBytes, calls, k);
        return None;
      }
      var chunk := OsRead(content, |chunks|, requested, calls(k).value);
      OneCall(|content|, limit, chunkBytes, calls, k, |chunks|, |chunk|);
      if chunk == [] {
        return Some(chunks);
      }
      chunks := chunks + chunk;
      k := k + 1;
    }
    CallsEnd(|content|, limit, chunkBytes, calls, k);
    return Some(chunks);
  }

  // ---- Verified reads ----

  datatype FailureReason = Missing | NotRegular | Mismatch | BoundsExceeded | UnsupportedPlatform

  datatype OpenResult = Opened | NoSuchEntry | SymbolicLink | OtherError

  /** What a caller names: whether the name is safe, and what opening the directory and the child would do. */
  datatype Child = Child(
    safeName: bool, supported: bool, directory: OpenResult, entry: OpenResult, regular: bool, content: Bytes)
  {
    /** A readable regular child of an existing directory. */
    predicate Readable() {
      safeName && supported && directory.Opened? && entry.Opened? && regular
    }
  }

  function DirectoryOpenReason(result: OpenResult): FailureReason {
    if result.NoSuchEntry? then Missing else Mismatch
  }

  function ChildOpenReason(result: OpenResult): FailureReason {
    match result
    case NoSuchEntry => Missing
    case SymbolicLink => NotRegular
    case _ => Mismatch
  }

  function ArgumentFailure(maxBytes: int, expectedLength: int, expectedHash: string): Option<FailureReason> {
    if maxBytes < 0 || expectedLength < 0 || expectedLength > maxBytes then Some(BoundsExceeded)
    else if !IsContentHash(expectedHash) then Some(Mismatch)
    else None
  }

  /** The child is there and is exactly what the caller expects, within the bound. */
  predicate Verifies(
    sha256: Bytes -> string, child: Child, maxBytes: int, expectedLength: int, expectedHash: string)
  {
    && child.Readable()
    && 0 <= |child.content| == expectedLength <= maxBytes
    && IsContentHash(expectedHash)
    && sha256(child.content) == expectedHash
  }

  /** One of the calls that a verified read of this file makes fails. */
  ghost predicate ReadFails(content: Bytes, maxBytes: int, calls: ReadCalls) {
    maxBytes >= 0 && SomeReadFails(|content|, maxBytes + 1, DEFAULT_CHUNK_BYTES, calls)
  }

  /** The reason of a verified read that is refused: the arguments come first, then the way to the file, then
      reading it, and only then what it holds. */
  function RefusalReason(child: Child, maxBytes: int, expectedLength: int, expectedHash: string, readFails: bool):
    FailureReason
  {
    var refused := ArgumentFailure(maxBytes, expectedLength, expectedHash);
    if refused.Some? then refused.value
    else if !child.safeName then BoundsExceeded
    else if !child.supported then UnsupportedPlatform
    else if !child.directory.Opened? then DirectoryOpenReason(child.directory)
    else if !child.entry.Opened? then ChildOpenReason(child.entry)
    else if !child.regular then NotRegular
    else if readFails then Mismatch
    else if |child.content| > maxBytes then BoundsExceeded
    else Mismatch
  }

  /** The whole content is returned exactly when the child verifies and no read fails, under every pattern of short
      reads; each failure has its own reason, a failing read's being a mismatch. Every descriptor opened is closed. */
  method ReadVerified(
    sha256: Bytes -> string, child: Child, maxBytes: int, expectedLength: int, expectedHash: string, calls: ReadCalls)
    returns (r: Result<Bytes, FailureReason>, opens: nat, closes: nat)
    ensures r.Success? <==>
              Verifies(sha256, child, maxBytes, expectedLength, expectedHash)
                  && !ReadFails(child.content, maxBytes, calls)
    ensures r.Success? ==> r.value == child.content
    ensures r.Failure? ==>
              r.error
              == RefusalReason(child, maxBytes, expectedLength, expectedHash, ReadFails(child.content, maxBytes, calls))
    ensures opens == closes
  {
    opens, closes := 0, 0;
    var refused := ArgumentFailure(maxBytes, expectedLength, expectedHash);
    if refused.Some? {
      return Failure(refused.value), opens, closes;
    }
    if !child.safeName {
      return Failure(BoundsExceeded), opens, closes;
    }
    if !child.supported {
      return Failure(UnsupportedPlatform), opens, closes;
    }
    if !child.directory.Opened? {
      return Failure(DirectoryOpenReason(child.directory)), opens, closes;
    }
    opens := opens + 1;
    if !child.entry.Opened? {
      r := Failure(ChildOpenReason(child.entry));
    } else {
      opens := opens + 1;
      r := ReadOpened(sha256, child, maxBytes, expectedLength, expectedHash, calls);
      closes := closes + 1;
    }
    closes := closes + 1;
  }

  /** The part between opening the child and closing it. */
  method ReadOpened(
    sha256: Bytes -> string, child: Child, maxBytes: nat, expectedLength: nat, expectedHash: string, calls: ReadCalls)
    returns (r: Result<Bytes, FailureReason>)
    ensures !child.regular ==> r == Failure(NotRegular)
    ensures child.regular && r.Success? ==>
              r.value == child.content && |child.content| == expectedLength <= maxBytes
              && sha256(child.content) == expectedHash
    ensures child.regular && ReadFails(child.content, maxBytes, calls) ==> r == Failure(Mismatch)
    ensures child.regular && r.Failure? && !ReadFails(child.content, maxBytes, calls) ==>
              if |child.content| > maxBytes then r.error == BoundsExceeded
              else r.error == Mismatch && (|child.content| != expectedLength || sha256(child.content) != expectedHash)
  {
    if !child.regular {
      return Failure(NotRegular);
    }
    var raw := ReadBounded(child.content, maxBytes, DEFAULT_CHUNK_BYTES, calls);
    if raw.None? {
      return Failure(Mismatch);
    }
    if |raw.value| > maxBytes {
      return Failure(BoundsExceeded);
    }
    assert raw.value == child.content;
    if |raw.value| != expectedLength {
      return Failure(Mismatch);
    }
    if sha256(raw.value) != expectedHash {
      return Failure(Mismatch);
    }
    return Success(raw.value);
  }
}
