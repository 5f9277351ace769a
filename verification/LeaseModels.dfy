/** Lease requests, leases, terminals and authority rows (src/dr_store/lease/models.py).
    Times are integer microseconds. */
module LeaseModels {
  import opened Wrappers
  import opened ObjectReferences

  const MAX_FENCE := 0x7FFF_FFFF_FFFF_FFFF

  datatype ReplayPolicy = Idempotent | DurableWorkflow | NoRedrive

  /** Non-empty text without NUL, up to a length. */
  predicate IsText(value: string, maximum: nat) {
    value != "" && '\0' !in value && |value| <= maximum
  }

  datatype LeaseRequest = LeaseRequest(semanticKey: string, requestHash: string, replayPolicy: ReplayPolicy) {
    predicate Valid() {
      IsContentHash(requestHash) && IsText(semanticKey, 1024)
    }
  }

  predicate FenceInRange(fence: int) {
    1 <= fence <= MAX_FENCE
  }

  /** The identity a lease, a terminal and a row share. */
  predicate ValidHolder(request: LeaseRequest, ownerId: string, attemptId: string, fence: int) {
    request.Valid() && IsText(ownerId, 255) && IsText(attemptId, 255) && FenceInRange(fence)
  }

  datatype Lease = Lease(request: LeaseRequest, ownerId: string, attemptId: string, fence: int, expiresAt: int) {
    predicate Valid() {
      ValidHolder(request, ownerId, attemptId, fence)
    }

    /** The holder a fence stands for. */
    predicate SameHolder(other: Lease) {
      request == other.request && ownerId == other.ownerId && attemptId == other.attemptId && fence == other.fence
    }
  }

  datatype TerminalOutcome = Succeeded | Failed | RecoveryRequired

  /** What a recovery failure records about the lease that ran out. */
  datatype RecoveryPayload = RecoveryPayload(
    semanticKey: string, requestHash: string, ownerId: string, attemptId: string, fence: int, expiresAt: int)

  datatype FailureDetails = CallerDetails(json: string) | RecoveryDetails(payload: RecoveryPayload)

  datatype TerminalFailure = TerminalFailure(code: string, message: string, details: FailureDetails)

  datatype Terminal = Terminal(
    request: LeaseRequest, outcome: TerminalOutcome, ownerId: string, attemptId: string, fence: int,
    resultRef: Option<ObjectReference>, failure: Option<TerminalFailure>)
  {
    predicate Valid() {
      && ValidHolder(request, ownerId, attemptId, fence)
      && match outcome {
           case Succeeded => resultRef.Some? && failure.None?
           case Failed => resultRef.Some? && failure.Some?
           case RecoveryRequired => failure.Some? && resultRef.None?
         }
    }
  }

  datatype StoredState = Leased | StateSucceeded | StateFailed | StateRecoveryRequired

  function StateOf(outcome: TerminalOutcome): StoredState {
    match outcome
    case Succeeded => StateSucceeded
    case Failed => StateFailed
    case RecoveryRequired => StateRecoveryRequired
  }

  datatype LeaseRow = LeaseRow(
    request: LeaseRequest, state: StoredState, ownerId: string, attemptId: string, fence: int,
    expiresAt: Option<int>, terminal: Option<Terminal>)
  {
    /** The agreement between a row's state and its lease or terminal fields. */
    predicate WellFormed() {
      && ValidHolder(request, ownerId, attemptId, fence)
      && (state == Leased ==> expiresAt.Some? && terminal.None?)
      && (state != Leased ==>
            && expiresAt.None?
            && terminal.Some?
            && terminal.value.Valid()
            && StateOf(terminal.value.outcome) == state
            && terminal.value.request == request
            && terminal.value.ownerId == ownerId
            && terminal.value.attemptId == attemptId
            && terminal.value.fence == fence)
    }

    /** The active lease; absent when the row is corrupt or terminal. */
    function ActiveLease(): Option<Lease> {
      if state != Leased || expiresAt.None? || !ValidHolder(request, ownerId, attemptId, fence) then None
      else Some(Lease(request, ownerId, attemptId, fence, expiresAt.value))
    }
  }

  function LeasedRow(lease: Lease): LeaseRow {
    LeaseRow(lease.request, Leased, lease.ownerId, lease.attemptId, lease.fence, Some(lease.expiresAt), None)
  }

  function TerminalRow(terminal: Terminal): LeaseRow {
    LeaseRow(terminal.request, StateOf(terminal.outcome), terminal.ownerId, terminal.attemptId, terminal.fence,
             None, Some(terminal))
  }

  datatype AcquireOutcome =
    Acquired | Busy | AcquireSucceeded | AcquireFailed | RequestConflict | AcquireRecoveryRequired

  function OutcomeOf(outcome: TerminalOutcome): AcquireOutcome {
    match outcome
    case Succeeded => AcquireSucceeded
    case Failed => AcquireFailed
    case RecoveryRequired => AcquireRecoveryRequired
  }

  datatype AcquireResult = AcquireResult(
    request: LeaseRequest, outcome: AcquireOutcome, lease: Option<Lease>, terminal: Option<Terminal>,
    busyExpiresAt: Option<int>, existingRequestHash: Option<string>, existingReplayPolicy: Option<ReplayPolicy>)
  {
    /** The result validator: each outcome carries exactly its own evidence. */
    predicate Valid() {
      && (lease.Some? <==> outcome == Acquired)
      && (busyExpiresAt.Some? <==> outcome == Busy)
      && (existingRequestHash.Some? <==> outcome == RequestConflict)
      && (existingReplayPolicy.Some? <==> outcome == RequestConflict)
      && (terminal.Some? <==> outcome in {AcquireSucceeded, AcquireFailed, AcquireRecoveryRequired})
      && (lease.Some? ==> lease.value.Valid() && lease.value.request == request)
      && (terminal.Some? ==>
            terminal.value.Valid() && terminal.value.request == request && OutcomeOf(terminal.value.outcome) == outcome)
    }
  }
}
