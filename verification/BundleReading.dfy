/** Reading and auditing a published artifact bundle (src/dr_store/artifact_bundle/reading.py).

    The manifest has been read; what each child read would do is given. A consumer is the list of read sizes
    it asks for, whatever makes it choose them, and whether it raises in the end. */
module BundleReading {
  import opened Wrappers
  import opened BoundedReads
  import BundlePublication

  type Descriptor = BundlePublication.Descriptor

  datatype Limits = Limits(maxArtifacts: nat, maxBytesPerArtifact: nat, maxTotalArtifactBytes: nat)

  datatype LimitKind = TooMany | TooLong | TotalTooLong

  datatype ReadError =
    | LimitExceeded(name: string, kind: LimitKind)
    | ExceedsRemaining(name: string)
    | NotVerified(name: string, reason: FailureReason)
    | Unreadable(name: string)
    | Undeclared(name: string)
    | ConsumerFailed(name: string)
    | IncompleteConsumption(name: string)
    | Disagreement(name: string)

  // ---- Manifest limits ----

  function Total(artifacts: seq<Descriptor>): nat {
    if artifacts == [] then 0 else Total(artifacts[..|artifacts| - 1]) + artifacts[|artifacts| - 1].byteLength
  }

  predicate Bounded(artifacts: seq<Descriptor>, limits: Limits) {
    && (forall d | d in artifacts :: d.byteLength <= limits.maxBytesPerArtifact)
    && Total(artifacts) <= limits.maxTotalArtifactBytes
  }

  predicate WithinLimits(artifacts: seq<Descriptor>, limits: Limits) {
    |artifacts| <= limits.maxArtifacts && Bounded(artifacts, limits)
  }

  lemma {:induction false} TotalOfPrefix(artifacts: seq<Descriptor>, n: nat)
    requires n <= |artifacts|
    ensures Total(artifacts[..n]) <= Total(artifacts)
    decreases |artifacts|
  {
    if n == |artifacts| {
      assert artifacts[..n] == artifacts;
    } else {
      TotalOfPrefix(artifacts[..|artifacts| - 1], n);
      assert artifacts[..|artifacts| - 1][..n] == artifacts[..n];
    }
  }

  /** One more artifact adds its declared length, and no prefix declares more than the whole. */
  lemma TotalStep(artifacts: seq<Descriptor>, i: nat)
    requires i < |artifacts|
    ensures Total(artifacts[..i + 1]) == Total(artifacts[..i]) + artifacts[i].byteLength <= Total(artifacts)
  {
    var next := artifacts[..i + 1];
    assert next[..i] == artifacts[..i];
    TotalOfPrefix(artifacts, i + 1);
  }

  lemma BoundedStep(artifacts: seq<Descriptor>, limits: Limits, i: nat)
    requires i < |artifacts| && Bounded(artifacts[..i], limits)
    ensures Bounded(artifacts[..i + 1], limits) <==>
              artifacts[i].byteLength <= limits.maxBytesPerArtifact
                  && Total(artifacts[..i + 1]) <= limits.maxTotalArtifactBytes
  {
    var next := artifacts[..i + 1];
    assert next == artifacts[..i] + [artifacts[i]];
    assert artifacts[i] in next;
  }

  /** Nothing is reported exactly when the manifest is within its limits; otherwise the report names the
      first artifact at which a limit breaks. */
  method ValidateLimits(artifacts: seq<Descriptor>, limits: Limits) returns (failure: Option<ReadError>)
    ensures failure.None? <==> WithinLimits(artifacts, limits)
    ensures |artifacts| > limits.maxArtifacts ==>
              failure == Some(LimitExceeded(artifacts[limits.maxArtifacts].name, TooMany))
    ensures failure.Some? && |artifacts| <= limits.maxArtifacts ==>
              exists i :: FirstExcess(artifacts, limits, i) && failure.value == ExcessAt(artifacts, limits, i)
  {
    if |artifacts| > limits.maxArtifacts {
      return Some(LimitExceeded(artifacts[limits.maxArtifacts].name, TooMany));
    }
    var declared := 0;
    for i := 0 to |artifacts|
      invariant declared == Total(artifacts[..i])
      invariant Bounded(artifacts[..i], limits)
    {
      var d := artifacts[i];
      TotalStep(artifacts, i);
      BoundedStep(artifacts, limits, i);
      if d.byteLength > limits.maxBytesPerArtifact {
        assert FirstExcess(artifacts, limits, i);
        return Some(LimitExceeded(d.name, TooLong));
      }
      declared := declared + d.byteLength;
      if declared > limits.maxTotalArtifactBytes {
        assert FirstExcess(artifacts, limits, i);
        return Some(LimitExceeded(d.name, TotalTooLong));
      }
    }
    assert artifacts[..|artifacts|] == artifacts;
    return None;
  }

  ghost predicate FirstExcess(artifacts: seq<Descriptor>, limits: Limits, i: nat) {
    i < |artifacts| && Bounded(artifacts[..i], limits) && !Bounded(artifacts[..i + 1], limits)
  }

  function ExcessAt(artifacts: seq<Descriptor>, limits: Limits, i: nat): ReadError
    requires i < |artifacts|
  {
    LimitExceeded(
      artifacts[i].name, if artifacts[i].byteLength > limits.maxBytesPerArtifact then TooLong else TotalTooLong)
  }

  // ---- Verified whole reads ----

  predicate ArtifactVerifies(sha256: Bytes -> string, child: Child, d: Descriptor) {
    Verifies(sha256, child, d.byteLength, d.byteLength, d.sha256)
  }

  predicate AllVerify(sha256: Bytes -> string, children: string -> Child, artifacts: seq<Descriptor>) {
    forall d | d in artifacts :: ArtifactVerifies(sha256, children(d.name), d)
  }

  /** The error of a child read that is refused. */
  function ReadErrorFor(d: Descriptor, reason: FailureReason): ReadError {
    if reason.UnsupportedPlatform? then Unreadable(d.name) else NotVerified(d.name, reason)
  }

  method ReadArtifact(sha256: Bytes -> string, child: Child, d: Descriptor, maxBytes: int, calls: ReadCalls)
    returns (r: Result<Bytes, ReadError>)
    ensures r == Failure(ExceedsRemaining(d.name)) <==> d.byteLength > maxBytes
    ensures r.Success? <==>
              d.byteLength <= maxBytes && ArtifactVerifies(sha256, child, d)
                  && !ReadFails(child.content, maxBytes, calls)
    ensures r.Success? ==> r.value == child.content
    ensures d.byteLength <= maxBytes && r.Failure? ==>
              r.error
              == ReadErrorFor(
                   d, RefusalReason(child, maxBytes, d.byteLength, d.sha256, ReadFails(child.content, maxBytes, calls)))
  {
    if d.byteLength > maxBytes {
      return Failure(ExceedsRemaining(d.name));
    }
    var raw, _, _ := ReadVerified(sha256, child, maxBytes, d.byteLength, d.sha256, calls);
    if raw.Success? {
      return Success(raw.value);
    }
    return Failure(ReadErrorFor(d, raw.error));
  }

  // ---- Audit ----

  lemma AllVerifyStep(sha256: Bytes -> string, children: string -> Child, artifacts: seq<Descriptor>, i: nat)
    requires i < |artifacts| && AllVerify(sha256, children, artifacts[..i])
    requires ArtifactVerifies(sha256, children(artifacts[i].name), artifacts[i])
    ensures AllVerify(sha256, children, artifacts[..i + 1])
  {
    assert artifacts[..i + 1] == artifacts[..i] + [artifacts[i]];
  }

  /** The bound of the audit's read of artifact i: its own limit, or what is left of the total. */
  function AuditBound(artifacts: seq<Descriptor>, limits: Limits, i: nat): int
    requires i < |artifacts|
  {
    Min(limits.maxBytesPerArtifact, limits.maxTotalArtifactBytes - Total(artifacts[..i]))
  }

  ghost predicate AuditReadFails(
    artifacts: seq<Descriptor>, children: string -> Child, limits: Limits, calls: nat -> ReadCalls, i: nat)
    requires i < |artifacts|
  {
    ReadFails(children(artifacts[i].name).content, AuditBound(artifacts, limits, i), calls(i))
  }

  /** Every child verifies, and no read the audit makes of one fails. */
  ghost predicate AuditSucceeds(
    sha256: Bytes -> string, artifacts: seq<Descriptor>, children: string -> Child, limits: Limits,
    calls: nat -> ReadCalls)
  {
    AllVerify(sha256, children, artifacts)
    && forall i | 0 <= i < |artifacts| :: !AuditReadFails(artifacts, children, limits, calls, i)
  }

  lemma AuditStops(
    sha256: Bytes -> string, artifacts: seq<Descriptor>, children: string -> Child, limits: Limits,
    calls: nat -> ReadCalls, i: nat)
    requires i < |artifacts|
    requires AuditReadFails(artifacts, children, limits, calls, i)
             || !ArtifactVerifies(sha256, children(artifacts[i].name), artifacts[i])
    ensures !AuditSucceeds(sha256, artifacts, children, limits, calls)
  {
    assert artifacts[i] in artifacts;
  }

  /** AUDIT: the remaining budget always covers the next declared length, so the second bound never fires and
      no more than the total bound is ever returned by the reads; the audit succeeds exactly when the manifest
      is within its limits, every child verifies and no read it makes fails, and otherwise names the first artifact
      at which that breaks. */
  method Audit(
    sha256: Bytes -> string, artifacts: seq<Descriptor>, children: string -> Child, limits: Limits,
    calls: nat -> ReadCalls)
    returns (failure: Option<ReadError>, returned: nat)
    ensures failure.Some? ==> !failure.value.ExceedsRemaining?
    ensures returned <= limits.maxTotalArtifactBytes
    ensures failure.None? ==> returned == Total(artifacts)
    ensures failure.None? <==>
              WithinLimits(artifacts, limits) && AuditSucceeds(sha256, artifacts, children, limits, calls)
    ensures failure.Some? && WithinLimits(artifacts, limits) ==>
              exists i :: 0 <= i < |artifacts| && failure.value.name == artifacts[i].name
                          && AllVerify(sha256, children, artifacts[..i])
                          && (AuditReadFails(artifacts, children, limits, calls, i)
                              || !ArtifactVerifies(sha256, children(artifacts[i].name), artifacts[i]))
  {
    returned := 0;
    failure := ValidateLimits(artifacts, limits);
    if failure.Some? {
      return;
    }
    var verifiedTotal := 0;
    for i := 0 to |artifacts|
      invariant verifiedTotal == returned == Total(artifacts[..i])
      invariant AllVerify(sha256, children, artifacts[..i])
      invariant forall j | 0 <= j < i :: !AuditReadFails(artifacts, children, limits, calls, j)
      invariant returned <= limits.maxTotalArtifactBytes
    {
      var d := artifacts[i];
      TotalStep(artifacts, i);
      var remaining := limits.maxTotalArtifactBytes - verifiedTotal;
      var bound := Min(limits.maxBytesPerArtifact, remaining);
      assert bound == AuditBound(artifacts, limits, i) && d.byteLength <= bound;
      var content := ReadArtifact(sha256, children(d.name), d, bound, calls(i));
      if content.Failure? {
        AuditStops(sha256, artifacts, children, limits, calls, i);
        failure := Some(content.error);
        return;
      }
      AllVerifyStep(sha256, children, artifacts, i);
      returned := returned + |content.value|;
      verifiedTotal := verifiedTotal + d.byteLength;
    }
    assert artifacts[..|artifacts|] == artifacts;
  }

  // ---- The callback facade ----

  const READ_CHUNK_BYTES := 0x10000

  datatype FacadeError = Inactive | BadSize

  /** How far a consumer has come: the bytes delivered and whether it has seen the end. */
  datatype Progress = Progress(position: nat, eof: bool)

  predicate SizeOk(size: int) {
    size >= -1
  }

  /** One read of an active facade over length bytes. */
  function Advance(length: nat, p: Progress, size: int): Progress {
    if size == -1 then Progress(if p.eof then p.position else length, true)
    else if size <= 0 || p.eof then p
    else if p.position >= length then p.(eof := true)
    else p.(position := Min(p.position + size, length))
  }

  class VerifyingArtifactReader {
    const descriptor: Descriptor
    const content: Bytes
    var position: nat
    var hashed: Bytes
    var byteLength: nat
    var eof: bool
    var active: bool

    constructor (descriptor: Descriptor, content: Bytes)
      ensures this.descriptor == descriptor && this.content == content
      ensures Valid() && active && State() == Progress(0, false)
    {
      this.descriptor, this.content := descriptor, content;
      position, hashed, byteLength, eof, active := 0, [], 0, false, true;
    }

    ghost predicate Valid()
      reads this
    {
      && position <= |content|
      && byteLength == position
      && hashed == content[..position]
      && (eof ==> position == |content|)
    }

    function State(): Progress
      reads this
    {
      Progress(position, eof)
    }

    /** The delivered bytes are always the next ones of the content. */
    method Read(size: int) returns (r: Result<Bytes, FacadeError>)
      requires Valid()
      modifies this
      ensures Valid() && active == old(active)
      ensures !active ==> r == Failure(Inactive)
      ensures active && !SizeOk(size) ==> r == Failure(BadSize)
      ensures r.Failure? ==> State() == old(State())
      ensures r.Success? ==> State() == Advance(|content|, old(State()), size)
      ensures r.Success? ==> old(position) <= position && r.value == content[old(position)..position]
      ensures active && SizeOk(size) ==> r.Success?
    {
      if !active {
        return Failure(Inactive);
      }
      if size < -1 {
        return Failure(BadSize);
      }
      if size == 0 {
        return Success([]);
      }
      if eof {
        return Success([]);
      }
      if size == -1 {
        var chunks: Bytes := [];
        while !eof
          invariant Valid() && active
          invariant old(position) <= position && chunks == content[old(position)..position]
          decreases |content| - position, !eof
        {
          var chunk := ReadOnce(READ_CHUNK_BYTES);
          chunks := chunks + chunk;
        }
        return Success(chunks);
      }
      var chunk := ReadOnce(size);
      return Success(chunk);
    }

    method ReadOnce(requested: nat) returns (chunk: Bytes)
      requires Valid() && !eof && requested > 0
      modifies this`position, this`hashed, this`byteLength, this`eof
      ensures Valid() && State() == Advance(|content|, old(State()), requested)
      ensures old(position) <= position && chunk == content[old(position)..position]
    {
      chunk := content[position..Min(position + requested, |content|)];
      if chunk == [] {
        eof := true;
        return;
      }
      assert content[..position] + chunk == content[..position + |chunk|];
      position := position + |chunk|;
      hashed := hashed + chunk;
      byteLength := byteLength + |chunk|;
    }

    method Invalidate()
      requires Valid()
      modifies this`active
      ensures Valid() && !active
    {
      active := false;
    }

    method RequireVerified(sha256: Bytes -> string) returns (failure: Option<ReadError>)
      requires Valid()
      ensures !eof ==> failure == Some(IncompleteConsumption(descriptor.name))
      ensures eof ==>
                failure == if |content| == descriptor.byteLength && sha256(content) == descriptor.sha256 then None
                           else Some(Disagreement(descriptor.name))
    {
      if !eof {
        return Some(IncompleteConsumption(descriptor.name));
      }
      assert hashed == content;
      if byteLength != descriptor.byteLength || sha256(hashed) != descriptor.sha256 {
        return Some(Disagreement(descriptor.name));
      }
      return None;
    }
  }

  /** Where a list of reads leaves a consumer; refused sizes change nothing. */
  function AdvanceAll(length: nat, sizes: seq<int>): Progress {
    if sizes == [] then Progress(0, false)
    else
      var before := AdvanceAll(length, sizes[..|sizes| - 1]);
      var size := sizes[|sizes| - 1];
      if SizeOk(size) then Advance(length, before, size) else before
  }

  /** The bytes asked for by the reads of positive size. */
  function Wanted(sizes: seq<int>): nat {
    if sizes == [] then 0
    else Wanted(sizes[..|sizes| - 1]) + (if sizes[|sizes| - 1] > 0 then sizes[|sizes| - 1] else 0)
  }

  ghost predicate SeesEnd(length: nat, sizes: seq<int>, k: nat) {
    k < |sizes| && (sizes[k] == -1 || (sizes[k] > 0 && Wanted(sizes[..k]) >= length))
  }

  /** The end is seen exactly by a read-all, or by a read of positive size after enough was asked for; until
      then the position is just what was asked for, up to the whole content. */
  lemma {:induction false} EndIsSeen(length: nat, sizes: seq<int>)
    ensures AdvanceAll(length, sizes).eof <==> exists k :: SeesEnd(length, sizes, k)
    ensures !AdvanceAll(length, sizes).eof ==> AdvanceAll(length, sizes).position == Min(Wanted(sizes), length)
    ensures AdvanceAll(length, sizes).eof ==> AdvanceAll(length, sizes).position == length
  {
    if sizes != [] {
      var n := |sizes| - 1;
      var before := sizes[..n];
      EndIsSeen(length, before);
      forall k: nat | k < n ensures SeesEnd(length, before, k) <==> SeesEnd(length, sizes, k) {
        assert before[..k] == sizes[..k];
      }
      assert SeesEnd(length, sizes, n) <==> sizes[n] == -1 || (sizes[n] > 0 && Wanted(before) >= length);
      if AdvanceAll(length, before).eof {
        var k :| SeesEnd(length, before, k);
        assert SeesEnd(length, sizes, k);
      }
    }
  }

  /** DELIVERY: for any consumer the delivered bytes are the prefix of the content it advanced over, and the
      delivery of verified content succeeds exactly when the consumer returned after seeing the end. */
  method Deliver(sha256: Bytes -> string, d: Descriptor, content: Bytes, sizes: seq<int>, raises: bool)
    returns (failure: Option<ReadError>, delivered: Bytes, facade: VerifyingArtifactReader)
    ensures fresh(facade) && facade.Valid() && !facade.active
    ensures AdvanceAll(|content|, sizes).position <= |content|
    ensures delivered == content[..AdvanceAll(|content|, sizes).position]
    ensures raises ==> failure == Some(ConsumerFailed(d.name))
    ensures |content| == d.byteLength && sha256(content) == d.sha256 && !raises ==>
              failure == if AdvanceAll(|content|, sizes).eof then None else Some(IncompleteConsumption(d.name))
    ensures failure.None? ==> delivered == content && |delivered| == d.byteLength && sha256(delivered) == d.sha256
  {
    facade := new VerifyingArtifactReader(d, content);
    delivered := [];
    for i := 0 to |sizes|
      invariant fresh(facade) && facade.Valid() && facade.active && facade.content == content && facade.descriptor == d
      invariant facade.State() == AdvanceAll(|content|, sizes[..i])
      invariant delivered == content[..facade.position]
    {
      var chunk := facade.Read(sizes[i]);
      assert sizes[..i + 1][..i] == sizes[..i];
      delivered := delivered + if chunk.Success? then chunk.value else [];
    }
    assert sizes[..|sizes|] == sizes;
    facade.Invalidate();
    if raises {
      return Some(ConsumerFailed(d.name)), delivered, facade;
    }
    failure := facade.RequireVerified(sha256);
  }

  ghost predicate FirstNamed(artifacts: seq<Descriptor>, name: string, k: nat) {
    k < |artifacts| && artifacts[k].name == name && forall i | 0 <= i < k :: artifacts[i].name != name
  }

  function ConsumeBound(limits: Limits): int {
    Min(limits.maxBytesPerArtifact, limits.maxTotalArtifactBytes)
  }

  /** A consumption succeeds only for a declared artifact whose whole verified content was delivered; once the
      manifest is within its limits the child's declared length never exceeds the read's bound. */
  method ConsumeAndVerify(
    sha256: Bytes -> string, artifacts: seq<Descriptor>, children: string -> Child, limits: Limits, name: string,
    calls: ReadCalls, sizes: seq<int>, raises: bool)
    returns (r: Result<Descriptor, ReadError>, delivered: Bytes)
    ensures r.Failure? ==> !r.error.ExceedsRemaining?
    ensures r.Success? ==>
              && WithinLimits(artifacts, limits) && r.value in artifacts && r.value.name == name
              && delivered == children(name).content && ArtifactVerifies(sha256, children(name), r.value)
    ensures WithinLimits(artifacts, limits) && (forall d | d in artifacts :: d.name != name) ==>
              r == Failure(Undeclared(name)) && delivered == []
    ensures forall k: nat | FirstNamed(artifacts, name, k) && WithinLimits(artifacts, limits) ::
              r.Success? <==>
                && ArtifactVerifies(sha256, children(name), artifacts[k])
                && !ReadFails(children(name).content, ConsumeBound(limits), calls)
                && !raises && AdvanceAll(|children(name).content|, sizes).eof
  {
    delivered := [];
    var limit := ValidateLimits(artifacts, limits);
    if limit.Some? {
      return Failure(limit.value), delivered;
    }
    var at := FindArtifact(artifacts, name);
    if at.None? {
      return Failure(Undeclared(name)), delivered;
    }
    var d := artifacts[at.value];
    TotalStep(artifacts, at.value);
    var content := ReadArtifact(
      sha256, children(name), d, ConsumeBound(limits), calls);
    if content.Failure? {
      return Failure(content.error), delivered;
    }
    var failure, bytes, _ := Deliver(sha256, d, content.value, sizes, raises);
    delivered := bytes;
    if failure.Some? {
      return Failure(failure.value), delivered;
    }
    return Success(d), delivered;
  }

  /** The first descriptor with the name. */
  method FindArtifact(artifacts: seq<Descriptor>, name: string) returns (at: Option<nat>)
    ensures at.None? <==> forall d | d in artifacts :: d.name != name
    ensures at.Some? ==> at.value < |artifacts| && artifacts[at.value].name == name
    ensures at.Some? ==> forall i | 0 <= i < at.value :: artifacts[i].name != name
  {
    for i := 0 to |artifacts|
      invariant forall j | 0 <= j < i :: artifacts[j].name != name
    {
      if artifacts[i].name == name {
        assert artifacts[i] in artifacts;
        return Some(i);
      }
    }
    return None;
  }
}
