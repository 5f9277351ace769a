/** The authority's transitions on one row (src/dr_store/lease/authority.py).
    A transition is a function of the stored row and the authority's time. */
module LeaseTransitions {
  import opened Wrappers
  import opened ObjectReferences
  import opened LeaseModels

  datatype StaleReason = MissingRow | ForeignRow | Superseded
  datatype ConflictReason = DifferentTerminal | NotAuthoritative

  datatype LeaseError =
    | StaleLease(why: StaleReason)
    | TerminalConflict(reason: ConflictReason)
    | FenceExhausted
    | Corruption

  datatype Reply =
    | AcquireReply(result: AcquireResult)
    | RenewReply(lease: Lease)
    | TerminalReply(terminal: Terminal)

  /** What a transition asks of its store: a row and a reply, or an exception that must leave the row alone. */
  datatype Outcome = Returned(updated: Option<LeaseRow>, reply: Reply) | Raised(error: LeaseError)

  datatype Call =
    | Acquire(request: LeaseRequest, ownerId: string, attemptId: string, duration: int)
    | Renew(lease: Lease, duration: int)
    | Succeed(lease: Lease, resultRef: ObjectReference)
    | Fail(lease: Lease, resultRef: ObjectReference, failure: TerminalFailure)
    | VerifyTerminal(terminal: Terminal)
  {
    /** Argument validation that happens before any store is touched. */
    predicate Valid() {
      match this
      case Acquire(request, ownerId, attemptId, duration) =>
        request.Valid() && IsText(ownerId, 255) && IsText(attemptId, 255) && duration > 0
      case Renew(lease, duration) => lease.Valid() && duration > 0
      case Succeed(lease, _) => lease.Valid()
      case Fail(lease, _, _) => lease.Valid()
      case VerifyTerminal(terminal) => terminal.Valid()
    }

    function Key(): string {
      match this
      case Acquire(request, _, _, _) => request.semanticKey
      case Renew(lease, _) => lease.request.semanticKey
      case Succeed(lease, _) => lease.request.semanticKey
      case Fail(lease, _, _) => lease.request.semanticKey
      case VerifyTerminal(terminal) => terminal.request.semanticKey
    }
  }

  /** The digest of a recovery payload is left uninterpreted. */
  type Digest = RecoveryPayload -> string

  const RECOVERY_MESSAGE := "the non-redrivable effect lease expired without a terminal outcome"

  function RecoveryTerminal(digest: Digest, lease: Lease): Terminal {
    var payload := RecoveryPayload(lease.request.semanticKey, lease.request.requestHash, lease.ownerId,
                                   lease.attemptId, lease.fence, lease.expiresAt);
    Terminal(lease.request, RecoveryRequired, lease.ownerId, lease.attemptId, lease.fence, None,
             Some(TerminalFailure("effect-recovery:" + digest(payload), RECOVERY_MESSAGE, RecoveryDetails(payload))))
  }

  function AcquiredResult(lease: Lease): Reply {
    AcquireReply(AcquireResult(lease.request, Acquired, Some(lease), None, None, None, None))
  }

  function EndedResult(terminal: Terminal): Reply {
    AcquireReply(AcquireResult(terminal.request, OutcomeOf(terminal.outcome), None, Some(terminal), None, None, None))
  }

  function AcquireTransition(digest: Digest, request: LeaseRequest, ownerId: string, attemptId: string, duration: int,
                             row: Option<LeaseRow>, now: int): Outcome
  {
    var expiresAt := now + duration;
    match row
    case None =>
      var lease := Lease(request, ownerId, attemptId, 1, expiresAt);
      Returned(Some(LeasedRow(lease)), AcquiredResult(lease))
    case Some(stored) =>
      if stored.request != request then
        Returned(row, AcquireReply(AcquireResult(request, RequestConflict, None, None, None,
                                                 Some(stored.request.requestHash), Some(stored.request.replayPolicy))))
      else if stored.terminal.Some? then
        Returned(row, EndedResult(stored.terminal.value))
      else
        match stored.ActiveLease()
        case None => Raised(Corruption)
        case Some(lease) =>
          if lease.expiresAt > now then
            if lease.ownerId == ownerId && lease.attemptId == attemptId then
              Returned(row, AcquiredResult(lease))
            else
              Returned(row, AcquireReply(AcquireResult(request, Busy, None, None, Some(lease.expiresAt), None, None)))
          else if request.replayPolicy == NoRedrive then
            var terminal := RecoveryTerminal(digest, lease);
            Returned(Some(TerminalRow(terminal)), EndedResult(terminal))
          else if lease.fence == MAX_FENCE then
            Raised(FenceExhausted)
          else
            var takeover := Lease(request, ownerId, attemptId, lease.fence + 1, expiresAt);
            Returned(Some(LeasedRow(takeover)), AcquiredResult(takeover))
  }

  /** The holder check that renewal and terminal publication share. */
  predicate HoldsNow(current: Lease, lease: Lease, now: int) {
    && current.ownerId == lease.ownerId
    && current.attemptId == lease.attemptId
    && current.fence == lease.fence
    && current.expiresAt == lease.expiresAt
    && current.expiresAt > now
  }

  function RenewTransition(lease: Lease, duration: int, row: Option<LeaseRow>, now: int): Outcome {
    match row
    case None => Raised(StaleLease(MissingRow))
    case Some(stored) =>
      if stored.request != lease.request then Raised(StaleLease(ForeignRow))
      else if stored.terminal.Some? then Raised(StaleLease(Superseded))
      else
        match stored.ActiveLease()
        case None => Raised(Corruption)
        case Some(current) =>
          if !HoldsNow(current, lease, now) then Raised(StaleLease(Superseded))
          else if now + duration <= current.expiresAt then Returned(row, RenewReply(current))
          else
            var renewed := current.(expiresAt := now + duration);
            Returned(Some(LeasedRow(renewed)), RenewReply(renewed))
  }

  function TerminalizeTransition(lease: Lease, terminal: Terminal, row: Option<LeaseRow>, now: int): Outcome {
    match row
    case None => Raised(StaleLease(MissingRow))
    case Some(stored) =>
      if stored.request != lease.request then Raised(StaleLease(ForeignRow))
      else if stored.terminal.Some? then
        if stored.terminal.value == terminal then Returned(row, TerminalReply(terminal))
        else Raised(TerminalConflict(DifferentTerminal))
      else
        match stored.ActiveLease()
        case None => Raised(Corruption)
        case Some(current) =>
          if !HoldsNow(current, lease, now) then Raised(StaleLease(Superseded))
          else Returned(Some(TerminalRow(terminal)), TerminalReply(terminal))
  }

  function VerifyTransition(terminal: Terminal, row: Option<LeaseRow>): Outcome {
    if row.Some? && row.value.terminal == Some(terminal) then Returned(row, TerminalReply(terminal))
    else Raised(TerminalConflict(NotAuthoritative))
  }

  function Transition(digest: Digest, call: Call, row: Option<LeaseRow>, now: int): Outcome {
    match call
    case Acquire(request, ownerId, attemptId, duration) =>
      AcquireTransition(digest, request, ownerId, attemptId, duration, row, now)
    case Renew(lease, duration) => RenewTransition(lease, duration, row, now)
    case Succeed(lease, resultRef) =>
      TerminalizeTransition(
        lease, Terminal(lease.request, Succeeded, lease.ownerId, lease.attemptId, lease.fence, Some(resultRef), None),
        row, now)
    case Fail(lease, resultRef, failure) =>
      TerminalizeTransition(
        lease, Terminal(lease.request, Failed, lease.ownerId, lease.attemptId, lease.fence, Some(resultRef),
        Some(failure)),
        row, now)
    case VerifyTerminal(terminal) => VerifyTransition(terminal, row)
  }

  /** One atomic application: an exception leaves the row as it was. */
  function RowAfter(digest: Digest, call: Call, row: Option<LeaseRow>, now: int): Option<LeaseRow> {
    match Transition(digest, call, row, now)
    case Returned(updated, _) => updated
    case Raised(_) => row
  }

  function ReplyTo(digest: Digest, call: Call, row: Option<LeaseRow>, now: int): Result<Reply, LeaseError> {
    match Transition(digest, call, row, now)
    case Returned(_, reply) => Success(reply)
    case Raised(error) => Failure(error)
  }

  /** A lease a reply hands to its caller. */
  function IssuedBy(reply: Result<Reply, LeaseError>): Option<Lease> {
    match reply
    case Success(AcquireReply(result)) => result.lease
    case Success(RenewReply(lease)) => Some(lease)
    case _ => None
  }

  /** A terminal a reply hands to its caller. */
  function TerminalIn(reply: Result<Reply, LeaseError>): Option<Terminal> {
    match reply
    case Success(AcquireReply(result)) => result.terminal
    case Success(TerminalReply(terminal)) => Some(terminal)
    case _ => None
  }

  ghost predicate RowOk(row: Option<LeaseRow>) {
    row.Some? ==> row.value.WellFormed()
  }

  /** Every transition keeps the row agreement, never deletes a row or changes its request, and never
      reports corruption of a well-formed row. */
  lemma TransitionKeepsRow(digest: Digest, call: Call, row: Option<LeaseRow>, now: int)
    requires call.Valid() && RowOk(row)
    ensures RowOk(RowAfter(digest, call, row, now))
    ensures row.Some? ==> RowAfter(digest, call, row, now).Some?
    ensures Transition(digest, call, row, now) != Raised(Corruption)
    ensures Transition(digest, call, row, now).Returned? ==> Transition(digest, call, row, now).updated.Some?
    ensures RowAfter(digest, call, row, now).Some? ==>
              RowAfter(digest, call, row, now).value.request.semanticKey
                  == (if row.Some? then row.value.request.semanticKey else call.Key())
    ensures row.Some? ==> RowAfter(digest, call, row, now).value.request == row.value.request
  {}

  /** An acquire is answered only with a result that its validator accepts. */
  lemma AcquireAnswersValidly(digest: Digest, call: Call, row: Option<LeaseRow>, now: int)
    requires call.Valid() && RowOk(row)
    requires ReplyTo(digest, call, row, now).Success? && ReplyTo(digest, call, row, now).value.AcquireReply?
    ensures call.Acquire? && ReplyTo(digest, call, row, now).value.result.request == call.request
    ensures ReplyTo(digest, call, row, now).value.result.Valid()
  {}

  /** A call that finds no row is refused whatever the time is, unless it acquires. */
  lemma AbsentRowIsTimeless(digest: Digest, call: Call, now: int, later: int)
    requires !call.Acquire?
    ensures Transition(digest, call, None, now) == Transition(digest, call, None, later)
    ensures Transition(digest, call, None, now).Raised?
  {}
}
