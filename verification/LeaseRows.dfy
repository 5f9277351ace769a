/** The persisted form of an authority row (src/dr_store/lease/_storage.py). */
module LeaseRows {
  import opened Wrappers
  import opened ObjectReferences
  import opened LeaseModels

  /** One table row without its key column. */
  datatype RawRow = RawRow(
    requestHash: string, replayPolicy: string, state: string, ownerId: string, attemptId: string, fence: int,
    expiresAt: Option<string>, terminalJson: Option<string>)

  /** The timestamp and terminal encodings, left uninterpreted. */
  datatype TextCodec = TextCodec(
    timeText: int -> string, parseTime: string -> Option<int>,
    terminalText: Terminal -> string, parseTerminal: string -> Option<Terminal>)
  {
    /** Parsing inverts writing, and a parsed terminal passed its model's validation. */
    ghost predicate RoundTrips() {
      && (forall t: int :: parseTime(timeText(t)) == Some(t))
      && (forall t: Terminal :: t.Valid() ==> parseTerminal(terminalText(t)) == Some(t))
      && (forall s: string :: parseTerminal(s).Some? ==> parseTerminal(s).value.Valid())
    }
  }

  function PolicyText(policy: ReplayPolicy): string {
    match policy
    case Idempotent => "idempotent"
    case DurableWorkflow => "durable_workflow"
    case NoRedrive => "no_redrive"
  }

  function ParsePolicy(text: string): Option<ReplayPolicy> {
    if text == "idempotent" then Some(Idempotent)
    else if text == "durable_workflow" then Some(DurableWorkflow)
    else if text == "no_redrive" then Some(NoRedrive)
    else None
  }

  function StateText(state: StoredState): string {
    match state
    case Leased => "leased"
    case StateSucceeded => "succeeded"
    case StateFailed => "failed"
    case StateRecoveryRequired => "recovery_required"
  }

  function ParseState(text: string): Option<StoredState> {
    if text == "leased" then Some(Leased)
    else if text == "succeeded" then Some(StateSucceeded)
    else if text == "failed" then Some(StateFailed)
    else if text == "recovery_required" then Some(StateRecoveryRequired)
    else None
  }

  /** The values that insert and update write, and that the compare-and-set matches. */
  function Encode(codec: TextCodec, row: LeaseRow): RawRow {
    RawRow(row.request.requestHash, PolicyText(row.request.replayPolicy), StateText(row.state), row.ownerId,
           row.attemptId, row.fence,
           if row.expiresAt.None? then None else Some(codec.timeText(row.expiresAt.value)),
           if row.terminal.None? then None else Some(codec.terminalText(row.terminal.value)))
  }

  /** The conditional update's WHERE clause on a stored row. */
  predicate Matches(codec: TextCodec, raw: RawRow, original: LeaseRow) {
    raw == Encode(codec, original)
  }

  datatype DecodeError = UnreadableField | CorruptRow

  function Decode(codec: TextCodec, key: string, raw: RawRow): Result<LeaseRow, DecodeError> {
    var policy := ParsePolicy(raw.replayPolicy);
    var state := ParseState(raw.state);
    var expiresAt := if raw.expiresAt.None? then None else codec.parseTime(raw.expiresAt.value);
    var terminal := if raw.terminalJson.None? then None else codec.parseTerminal(raw.terminalJson.value);
    if policy.None? || state.None? then Failure(UnreadableField)
    else if raw.expiresAt.Some? && expiresAt.None? then Failure(UnreadableField)
    else if raw.terminalJson.Some? && terminal.None? then Failure(UnreadableField)
    else
      var request := LeaseRequest(key, raw.requestHash, policy.value);
      var row := LeaseRow(request, state.value, raw.ownerId, raw.attemptId, raw.fence, expiresAt, terminal);
      if !request.Valid() then Failure(UnreadableField)
      else if state.value == Leased && (terminal.Some? || row.ActiveLease().None?) then Failure(CorruptRow)
      else if state.value != Leased && expiresAt.Some? then Failure(CorruptRow)
      else if state.value != Leased && (terminal.None? || StateOf(terminal.value.outcome) != state.value) then
        Failure(CorruptRow)
      else if terminal.Some? && (|| terminal.value.request != request
                                 || terminal.value.ownerId != row.ownerId
                                 || terminal.value.attemptId != row.attemptId
                                 || terminal.value.fence != row.fence) then Failure(CorruptRow)
      else Success(row)
  }

  lemma TextsInvert(policy: ReplayPolicy, state: StoredState)
    ensures ParsePolicy(PolicyText(policy)) == Some(policy)
    ensures ParseState(StateText(state)) == Some(state)
  {
    assert "leased"[0] != "succeeded"[0] && "leased"[0] != "failed"[0];
  }

  /** Decoding an encoded well-formed row gives the row back. */
  lemma DecodeInvertsEncode(codec: TextCodec, row: LeaseRow)
    requires codec.RoundTrips() && row.WellFormed()
    ensures Decode(codec, row.request.semanticKey, Encode(codec, row)) == Success(row)
  {
    TextsInvert(row.request.replayPolicy, row.state);
    var raw := Encode(codec, row);
    assert raw.terminalJson.Some? ==> codec.parseTerminal(raw.terminalJson.value) == row.terminal;
    if row.expiresAt.Some? {
      var t: int := row.expiresAt.value;
      assert codec.parseTime(codec.timeText(t)) == Some(t);
    }
    assert row.request == LeaseRequest(row.request.semanticKey, raw.requestHash, row.request.replayPolicy);
  }

  /** Decoding accepts only rows that meet the leased/terminal agreement, under the requested key. */
  lemma DecodeAcceptsOnlyWellFormed(codec: TextCodec, key: string, raw: RawRow)
    requires codec.RoundTrips() && Decode(codec, key, raw).Success?
    ensures Decode(codec, key, raw).value.WellFormed()
    ensures Decode(codec, key, raw).value.request.semanticKey == key
  {}

  /** The match values identify the row: a stored encoding matches exactly the row it came from. */
  lemma MatchIdentifiesRow(codec: TextCodec, stored: LeaseRow, original: LeaseRow)
    requires codec.RoundTrips() && stored.WellFormed() && original.WellFormed()
    requires stored.request.semanticKey == original.request.semanticKey
    ensures Matches(codec, Encode(codec, stored), original) <==> stored == original
  {
    DecodeInvertsEncode(codec, stored);
    DecodeInvertsEncode(codec, original);
  }
}
