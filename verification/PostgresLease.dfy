/** The PostgreSQL lease transaction as interleaved statements (src/dr_store/lease/_postgres.py).

    Any number of transactions on one key run statement by statement at READ COMMITTED: SELECT ... FOR UPDATE
    waits for the row's lock holder, INSERT ... ON CONFLICT DO NOTHING waits for an uncommitted insert of the
    same key, an uncommitted write is invisible to the others, and a connection may be lost at any statement.
    The log is ghost state: it lists the atomic applications that the interleaving amounts to. */
module PostgresLease {
  import opened Wrappers
  import opened LeaseModels
  import opened LeaseTransitions
  import opened LeaseRows
  import opened LeaseRuns
  import LeaseStores

  type TxId = nat

  /** The exits that report a corrupt authority. */
  datatype Exit = RowRemoved | RowDisappeared | RowUnreadable | UpdateLost

  datatype Pc =
    | Started
    | Selected(original: Option<LeaseRow>)
    | Decided(original: Option<LeaseRow>, now: int, updated: LeaseRow, reply: Reply)
    | Conflicted
    | Wrote(original: Option<LeaseRow>, now: int, updated: LeaseRow, reply: Reply)
    | Unchanged(original: Option<LeaseRow>, now: int, reply: Reply)
    | Failing(original: Option<LeaseRow>, now: int, error: LeaseError)
    | Finished(result: Result<Reply, LeaseError>)
    | Disconnected
    | Broken(exit: Exit)

  datatype Tx = Tx(call: Call, pc: Pc)

  datatype Logged = Logged(tx: TxId, event: Event, result: Result<Reply, LeaseError>)

  /** steady says that the database clock never goes backwards. */
  datatype Config = Config(digest: Digest, codec: TextCodec, key: string, epoch: int, steady: bool)

  datatype State = State(
    table: Option<RawRow>, pending: Option<RawRow>, holder: Option<TxId>, clock: int, txs: map<TxId, Tx>,
    log: seq<Logged>)
  {
    function To(id: TxId, pc: Pc): State
      requires id in txs
    {
      this.(txs := txs[id := txs[id].(pc := pc)])
    }

    function Log(id: TxId, now: int, result: Result<Reply, LeaseError>): State
      requires id in txs
    {
      this.(log := log + [Logged(id, Event(now, txs[id].call), result)])
    }
  }

  datatype Action =
    | Begin(id: TxId, call: Call)
    | Tick(clock: int)
    | Select(id: TxId)
    | Decide(id: TxId)
    | Insert(id: TxId)
    | Reselect(id: TxId)
    | Update(id: TxId)
    | Commit(id: TxId)
    | LostAck(id: TxId)
    | Rollback(id: TxId)
    | Disconnect(id: TxId)

  function Initial(cfg: Config): State {
    State(None, None, None, cfg.epoch, map[], [])
  }

  /** SELECT ... FOR UPDATE of an existing row takes its lock and decodes it. */
  function LockRow(cfg: Config, s: State, id: TxId): State
    requires id in s.txs && s.table.Some?
  {
    match Decode(cfg.codec, cfg.key, s.table.value)
    case Success(row) => s.(holder := Some(id)).To(id, Selected(Some(row)))
    case Failure(_) => s.(holder := Some(id)).To(id, Broken(RowUnreadable))
  }

  /** The first read. A call that finds no row and does not acquire is refused whatever the time is, so it
      takes effect here; the log gives it the starting time. */
  function SelectStep(cfg: Config, s: State, id: TxId): Option<State>
    requires id in s.txs
  {
    if !s.txs[id].pc.Started? then None
    else if s.table.Some? then if s.holder.None? then Some(LockRow(cfg, s, id)) else None
    else
      var t := s.To(id, Selected(None));
      if s.txs[id].call.Acquire? then Some(t)
      else Some(t.Log(id, cfg.epoch, ReplyTo(cfg.digest, s.txs[id].call, None, cfg.epoch)))
  }

  /** Read the clock and run the transition. */
  function DecideStep(cfg: Config, s: State, id: TxId): Option<State>
    requires id in s.txs
  {
    match s.txs[id].pc
    case Selected(original) =>
      (match Transition(cfg.digest, s.txs[id].call, original, s.clock)
       case Raised(error) => Some(s.To(id, Failing(original, s.clock, error)))
       case Returned(updated, reply) =>
         if updated == original then Some(s.To(id, Unchanged(original, s.clock, reply)))
         else if updated.None? then Some(s.To(id, Broken(RowRemoved)))
         else Some(s.To(id, Decided(original, s.clock, updated.value, reply))))
    case _ => None
  }

  function InsertStep(cfg: Config, s: State, id: TxId): Option<State>
    requires id in s.txs
  {
    match s.txs[id].pc
    case Decided(None, now, updated, reply) =>
      if s.table.Some? then Some(s.To(id, Conflicted))
      else if s.holder.None? then
        var locked := s.(holder := Some(id), pending := Some(Encode(cfg.codec, updated)));
        Some(locked.To(id, Wrote(None, now, updated, reply)))
      else None
    case _ => None
  }

  function ReselectStep(cfg: Config, s: State, id: TxId): Option<State>
    requires id in s.txs
  {
    if !s.txs[id].pc.Conflicted? then None
    else if s.table.None? then Some(s.To(id, Broken(RowDisappeared)))
    else if s.holder.None? then Some(LockRow(cfg, s, id))
    else None
  }

  /** The conditional update: one row changed, or the authority reports that the update was lost. */
  function UpdateStep(cfg: Config, s: State, id: TxId): Option<State>
    requires id in s.txs
  {
    match s.txs[id].pc
    case Decided(Some(original), now, updated, reply) =>
      if s.table.Some? && Matches(cfg.codec, s.table.value, original) then
        Some(s.(pending := Some(Encode(cfg.codec, updated))).To(id, Wrote(Some(original), now, updated, reply)))
      else Some(s.To(id, Broken(UpdateLost)))
    case _ => None
  }

  function CommitStep(s: State, id: TxId): Option<State>
    requires id in s.txs
  {
    match s.txs[id].pc
    case Wrote(_, now, _, reply) =>
      var committed := s.(table := s.pending, pending := None, holder := None);
      Some(committed.To(id, Finished(Success(reply))).Log(id, now, Success(reply)))
    case Unchanged(_, now, reply) =>
      Some(s.(holder := None).To(id, Finished(Success(reply))).Log(id, now, Success(reply)))
    case _ => None
  }

  /** A commit that takes effect while its client only sees the connection lost. */
  function LostAckStep(s: State, id: TxId): Option<State>
    requires id in s.txs
  {
    match CommitStep(s, id)
    case None => None
    case Some(t) => Some(t.To(id, Disconnected))
  }

  function RollbackStep(s: State, id: TxId): Option<State>
    requires id in s.txs
  {
    match s.txs[id].pc
    case Failing(None, _, error) => Some(s.To(id, Finished(Failure(error))))
    case Failing(Some(_), now, error) =>
      Some(s.(holder := None).To(id, Finished(Failure(error))).Log(id, now, Failure(error)))
    case _ => None
  }

  /** A connection lost before the commit takes effect rolls the transaction back, wherever it was. */
  function DisconnectStep(s: State, id: TxId): Option<State>
    requires id in s.txs
  {
    if s.txs[id].pc.Finished? || s.txs[id].pc.Disconnected? then None
    else if s.holder == Some(id) then Some(s.(holder := None, pending := None).To(id, Disconnected))
    else Some(s.To(id, Disconnected))
  }

  function Step(cfg: Config, s: State, action: Action): Option<State> {
    match action
    case Begin(id, call) =>
      if id in s.txs || !call.Valid() || call.Key() != cfg.key then None
      else Some(s.(txs := s.txs[id := Tx(call, Started)]))
    case Tick(clock) => if cfg.steady && clock < s.clock then None else Some(s.(clock := clock))
    case Select(id) => if id in s.txs then SelectStep(cfg, s, id) else None
    case Decide(id) => if id in s.txs then DecideStep(cfg, s, id) else None
    case Insert(id) => if id in s.txs then InsertStep(cfg, s, id) else None
    case Reselect(id) => if id in s.txs then ReselectStep(cfg, s, id) else None
    case Update(id) => if id in s.txs then UpdateStep(cfg, s, id) else None
    case Commit(id) => if id in s.txs then CommitStep(s, id) else None
    case LostAck(id) => if id in s.txs then LostAckStep(s, id) else None
    case Rollback(id) => if id in s.txs then RollbackStep(s, id) else None
    case Disconnect(id) => if id in s.txs then DisconnectStep(s, id) else None
  }

  /** The state after an interleaving; absent when some action was not enabled. */
  function Run(cfg: Config, actions: seq<Action>): Option<State> {
    if actions == [] then Some(Initial(cfg))
    else
      match Run(cfg, actions[..|actions| - 1])
      case None => None
      case Some(s) => Step(cfg, s, actions[|actions| - 1])
  }

  // ---- The log as a history of atomic applications ----

  function Events(log: seq<Logged>): (events: seq<Event>)
    ensures |events| == |log| && forall i | 0 <= i < |log| :: events[i] == log[i].event
  {
    seq(|log|, i requires 0 <= i < |log| => log[i].event)
  }

  function Current(cfg: Config, log: seq<Logged>): Option<LeaseRow> {
    RowAt(cfg.digest, Events(log), |log|)
  }

  /** The logged result is the reply of the one-lock store at that point. */
  ghost predicate EntryOk(cfg: Config, log: seq<Logged>, i: nat)
    requires i < |log|
  {
    log[i].event.call.Valid() && log[i].result == ReplyAt(cfg.digest, Events(log), i)
  }

  ghost predicate LogOk(cfg: Config, log: seq<Logged>) {
    forall i | 0 <= i < |log| :: EntryOk(cfg, log, i)
  }

  lemma EventsAppend(log: seq<Logged>, entry: Logged)
    ensures Events(log + [entry]) == Events(log) + [entry.event]
  {}

  lemma CurrentAppends(cfg: Config, log: seq<Logged>, entry: Logged)
    ensures Current(cfg, log + [entry]) == RowAfter(cfg.digest, entry.event.call, Current(cfg, log), entry.event.now)
  {
    EventsAppend(log, entry);
    LeaseStores.RowAtPrefix(cfg.digest, Events(log), [entry.event], |log|);
  }

  lemma EntryStaysOk(cfg: Config, log: seq<Logged>, entry: Logged, i: nat)
    requires i < |log| && EntryOk(cfg, log, i)
    ensures EntryOk(cfg, log + [entry], i)
  {
    EventsAppend(log, entry);
    LeaseStores.ReplyAtPrefix(cfg.digest, Events(log), [entry.event], i);
  }

  lemma NewEntryOk(cfg: Config, log: seq<Logged>, entry: Logged)
    requires entry.event.call.Valid()
    requires entry.result == ReplyTo(cfg.digest, entry.event.call, Current(cfg, log), entry.event.now)
    ensures EntryOk(cfg, log + [entry], |log|)
  {
    EventsAppend(log, entry);
    LeaseStores.RowAtPrefix(cfg.digest, Events(log), [entry.event], |log|);
  }

  lemma LogAppends(cfg: Config, log: seq<Logged>, entry: Logged)
    requires LogOk(cfg, log) && EntryOk(cfg, log + [entry], |log|)
    ensures LogOk(cfg, log + [entry])
  {
    forall i | 0 <= i < |log| + 1 ensures EntryOk(cfg, log + [entry], i) {
      if i < |log| {
        EntryStaysOk(cfg, log, entry, i);
      }
    }
  }

  // ---- The invariant ----

  ghost predicate NotLogged(log: seq<Logged>, id: TxId) {
    forall i | 0 <= i < |log| :: log[i].tx != id
  }

  ghost predicate LoggedOnce(log: seq<Logged>, id: TxId, call: Call, result: Result<Reply, LeaseError>) {
    exists i | 0 <= i < |log| ::
      && log[i].tx == id && log[i].event.call == call && log[i].result == result
      && forall j | 0 <= j < |log| && log[j].tx == id :: j == i
  }

  /** What holds of a transaction at each statement: with the row's lock it works on the current row. */
  ghost predicate TxOk(cfg: Config, s: State, row: Option<LeaseRow>, id: TxId, tx: Tx) {
    var locked := s.holder == Some(id);
    && tx.call.Valid() && tx.call.Key() == cfg.key
    && match tx.pc {
         case Started => !locked && NotLogged(s.log, id)
         case Selected(None) =>
           && !locked
           && (tx.call.Acquire? ==> NotLogged(s.log, id))
           && (!tx.call.Acquire? ==>
                 LoggedOnce(s.log, id, tx.call, ReplyTo(cfg.digest, tx.call, None, cfg.epoch)))
         case Selected(Some(original)) =>
           locked && s.pending.None? && row == Some(original) && NotLogged(s.log, id)
         case Decided(original, now, updated, reply) =>
           && Transition(cfg.digest, tx.call, original, now) == Returned(Some(updated), reply)
           && NotLogged(s.log, id)
           && (original.Some? ==> locked && s.pending.None? && row == original)
           && (original.None? ==> !locked && tx.call.Acquire?)
         case Conflicted => !locked && s.table.Some? && NotLogged(s.log, id)
         case Wrote(original, now, updated, reply) =>
           && Transition(cfg.digest, tx.call, original, now) == Returned(Some(updated), reply)
           && NotLogged(s.log, id)
           && locked && row == original && s.pending == Some(Encode(cfg.codec, updated))
         case Unchanged(original, now, reply) =>
           && Transition(cfg.digest, tx.call, original, now) == Returned(original, reply)
           && NotLogged(s.log, id)
           && locked && s.pending.None? && row == original
         case Failing(original, now, error) =>
           && Transition(cfg.digest, tx.call, original, now) == Raised(error)
           && (original.Some? ==> locked && s.pending.None? && row == original && NotLogged(s.log, id))
           && (original.None? ==> !locked && LoggedOnce(s.log, id, tx.call, Failure(error)))
         case Finished(result) => !locked && LoggedOnce(s.log, id, tx.call, result)
         case Disconnected => !locked
         case Broken(_) => false
       }
  }

  ghost predicate Inv(cfg: Config, s: State) {
    var row := Current(cfg, s.log);
    && LogOk(cfg, s.log)
    && RowOk(row)
    && (row.Some? ==> row.value.request.semanticKey == cfg.key)
    && s.table == (if row.None? then None else Some(Encode(cfg.codec, row.value)))
    && (s.holder.None? ==> s.pending.None?)
    && (s.holder.Some? ==> s.holder.value in s.txs)
    && (forall i | 0 <= i < |s.log| :: s.log[i].tx in s.txs && s.log[i].event.call == s.txs[s.log[i].tx].call)
    && (forall i, j | 0 <= i < j < |s.log| :: s.log[i].tx != s.log[j].tx)
    && (forall id | id in s.txs :: TxOk(cfg, s, row, id, s.txs[id]))
  }

  /** Another transaction's logged entry leaves what is logged of this one. */
  lemma LoggingKeepsOthers(log: seq<Logged>, id: TxId, entry: Logged)
    requires entry.tx != id
    ensures NotLogged(log, id) ==> NotLogged(log + [entry], id)
    ensures forall call, result :: LoggedOnce(log, id, call, result) ==> LoggedOnce(log + [entry], id, call, result)
  {
    forall call, result | LoggedOnce(log, id, call, result)
      ensures LoggedOnce(log + [entry], id, call, result)
    {
      var i :| 0 <= i < |log| && log[i].tx == id && log[i].event.call == call && log[i].result == result
               && forall j | 0 <= j < |log| && log[j].tx == id :: j == i;
      assert (log + [entry])[i] == log[i];
    }
  }

  /** A transaction does not notice another's step, logged or not, that leaves it its locked row. */
  lemma OthersKeepOk(cfg: Config, s: State, t: State, id: TxId, tx: Tx, entry: Logged)
    requires TxOk(cfg, s, Current(cfg, s.log), id, tx)
    requires s.holder == Some(id) <==> t.holder == Some(id)
    requires s.holder == Some(id) ==> t.pending == s.pending && Current(cfg, t.log) == Current(cfg, s.log)
    requires s.table.Some? ==> t.table.Some?
    requires t.log == s.log || (t.log == s.log + [entry] && entry.tx != id)
    ensures TxOk(cfg, t, Current(cfg, t.log), id, tx)
  {
    if t.log != s.log {
      LoggingKeepsOthers(s.log, id, entry);
    }
  }

  lemma LoggingIsOnce(s: State, entry: Logged)
    requires NotLogged(s.log, entry.tx)
    ensures LoggedOnce(s.log + [entry], entry.tx, entry.event.call, entry.result)
  {
    assert (s.log + [entry])[|s.log|] == entry;
  }

  /** A step of transaction id that logs nothing and commits nothing. */
  lemma QuietStepKeepsInv(cfg: Config, s: State, t: State, id: TxId)
    requires Inv(cfg, s) && id in s.txs
    requires t.txs.Keys == s.txs.Keys && forall other | other in s.txs && other != id :: t.txs[other] == s.txs[other]
    requires t.table == s.table && t.log == s.log
    requires || (t.holder == s.holder && (t.pending == s.pending || s.holder == Some(id)))
             || (s.holder.None? && t.holder == Some(id))
             || (s.holder == Some(id) && t.holder.None? && t.pending.None?)
    requires t.txs[id].call == s.txs[id].call && TxOk(cfg, t, Current(cfg, t.log), id, t.txs[id])
    ensures Inv(cfg, t)
  {
    forall other | other in t.txs ensures TxOk(cfg, t, Current(cfg, t.log), other, t.txs[other]) {
      if other != id {
        OthersKeepOk(cfg, s, t, other, s.txs[other], Logged(id, Event(0, s.txs[id].call), Failure(Corruption)));
      }
    }
  }

  /** What a logging step leaves to all other transactions. */
  lemma LoggingLeavesOthersOk(cfg: Config, s: State, t: State, id: TxId, entry: Logged)
    requires Inv(cfg, s) && entry.tx == id && t.log == s.log + [entry]
    requires forall other | other in s.txs && other != id :: other in t.txs && t.txs[other] == s.txs[other]
    requires s.holder != Some(id) ==>
               t.holder == s.holder && t.pending == s.pending && Current(cfg, t.log) == Current(cfg, s.log)
    requires s.holder == Some(id) ==> t.holder.None?
    requires s.table.Some? ==> t.table.Some?
    ensures forall other | other in s.txs && other != id :: TxOk(cfg, t, Current(cfg, t.log), other, t.txs[other])
  {
    forall other | other in s.txs && other != id
      ensures TxOk(cfg, t, Current(cfg, t.log), other, t.txs[other])
    {
      OthersKeepOk(cfg, s, t, other, s.txs[other], entry);
    }
  }

  /** A step of transaction id that logs its application. */
  lemma LoggingStepKeepsInv(cfg: Config, s: State, t: State, id: TxId, now: int, result: Result<Reply, LeaseError>)
    requires Inv(cfg, s) && id in s.txs && NotLogged(s.log, id)
    requires t.txs.Keys == s.txs.Keys && forall other | other in s.txs && other != id :: t.txs[other] == s.txs[other]
    requires t.log == s.log + [Logged(id, Event(now, s.txs[id].call), result)]
    requires result == ReplyTo(cfg.digest, s.txs[id].call, Current(cfg, s.log), now)
    requires var next := RowAfter(cfg.digest, s.txs[id].call, Current(cfg, s.log), now);
             && t.table == (if next.None? then None else Some(Encode(cfg.codec, next.value)))
             && (s.holder != Some(id) ==> next == Current(cfg, s.log))
    requires || (s.holder == Some(id) && t.holder.None? && t.pending.None?)
             || (s.holder != Some(id) && t.holder == s.holder && t.pending == s.pending)
    requires t.txs[id].call == s.txs[id].call
    requires LoggedOnce(t.log, id, s.txs[id].call, result) ==> TxOk(cfg, t, Current(cfg, t.log), id, t.txs[id])
    ensures Inv(cfg, t)
  {
    var entry := Logged(id, Event(now, s.txs[id].call), result);
    NewEntryOk(cfg, s.log, entry);
    LogAppends(cfg, s.log, entry);
    CurrentAppends(cfg, s.log, entry);
    LoggingIsOnce(s, entry);
    TransitionKeepsRow(cfg.digest, s.txs[id].call, Current(cfg, s.log), now);
    LoggingLeavesOthersOk(cfg, s, t, id, entry);
  }

  /** Locking an existing row reads the current row. */
  lemma LockKeepsInv(cfg: Config, s: State, id: TxId)
    requires cfg.codec.RoundTrips() && Inv(cfg, s) && id in s.txs && s.table.Some? && s.holder.None?
    requires NotLogged(s.log, id)
    ensures Inv(cfg, LockRow(cfg, s, id))
  {
    DecodeInvertsEncode(cfg.codec, Current(cfg, s.log).value);
    QuietStepKeepsInv(cfg, s, LockRow(cfg, s, id), id);
  }

  lemma SelectKeepsInv(cfg: Config, s: State, t: State, id: TxId)
    requires cfg.codec.RoundTrips() && Inv(cfg, s) && id in s.txs && SelectStep(cfg, s, id) == Some(t)
    ensures Inv(cfg, t)
  {
    assert TxOk(cfg, s, Current(cfg, s.log), id, s.txs[id]);
    if s.table.Some? {
      LockKeepsInv(cfg, s, id);
    } else if s.txs[id].call.Acquire? {
      QuietStepKeepsInv(cfg, s, t, id);
    } else {
      AbsentRowIsTimeless(cfg.digest, s.txs[id].call, cfg.epoch, cfg.epoch);
      LoggingStepKeepsInv(cfg, s, t, id, cfg.epoch, ReplyTo(cfg.digest, s.txs[id].call, None, cfg.epoch));
    }
  }

  /** Deciding leaves a transaction with the transition's own answer on the row it read. */
  lemma DecideIsOk(cfg: Config, s: State, t: State, id: TxId)
    requires id in s.txs && DecideStep(cfg, s, id) == Some(t)
    requires TxOk(cfg, s, Current(cfg, s.log), id, s.txs[id]) && RowOk(Current(cfg, s.log))
    ensures t == s.To(id, t.txs[id].pc)
    ensures TxOk(cfg, t, Current(cfg, t.log), id, t.txs[id])
  {
    var original, call := s.txs[id].pc.original, s.txs[id].call;
    TransitionKeepsRow(cfg.digest, call, original, s.clock);
    if original.None? && !call.Acquire? {
      AbsentRowIsTimeless(cfg.digest, call, s.clock, cfg.epoch);
    } else if original.None? {
      AcquireFindsAbsentRow(cfg.digest, call, s.clock);
    }
  }

  lemma MoveKeepsInv(cfg: Config, s: State, id: TxId, pc: Pc)
    requires Inv(cfg, s) && id in s.txs
    requires TxOk(cfg, s.To(id, pc), Current(cfg, s.log), id, s.txs[id].(pc := pc))
    ensures Inv(cfg, s.To(id, pc))
  {
    QuietStepKeepsInv(cfg, s, s.To(id, pc), id);
  }

  lemma DecideKeepsInv(cfg: Config, s: State, t: State, id: TxId)
    requires Inv(cfg, s) && id in s.txs && DecideStep(cfg, s, id) == Some(t)
    ensures Inv(cfg, t)
  {
    assert TxOk(cfg, s, Current(cfg, s.log), id, s.txs[id]);
    DecideIsOk(cfg, s, t, id);
    MoveKeepsInv(cfg, s, id, t.txs[id].pc);
  }

  lemma AcquireFindsAbsentRow(digest: Digest, call: Call, now: int)
    requires call.Acquire?
    ensures Transition(digest, call, None, now).Returned? && Transition(digest, call, None, now).updated.Some?
  {}

  /** A write by the lock holder of its own row, or by an insert that takes the free lock. */
  lemma InsertIsOk(cfg: Config, s: State, t: State, id: TxId)
    requires id in s.txs && InsertStep(cfg, s, id) == Some(t)
    requires TxOk(cfg, s, Current(cfg, s.log), id, s.txs[id])
    requires s.holder.None? ==> s.pending.None?
    requires s.table.None? ==> Current(cfg, s.log).None?
    ensures t.txs.Keys == s.txs.Keys && t == s.(txs := t.txs, holder := t.holder, pending := t.pending)
    ensures forall other | other in s.txs && other != id :: t.txs[other] == s.txs[other]
    ensures (t.holder == s.holder && t.pending == s.pending) || (s.holder.None? && t.holder == Some(id))
    ensures TxOk(cfg, t, Current(cfg, t.log), id, t.txs[id])
  {}

  lemma InsertKeepsInv(cfg: Config, s: State, t: State, id: TxId)
    requires Inv(cfg, s) && id in s.txs && InsertStep(cfg, s, id) == Some(t)
    ensures Inv(cfg, t)
  {
    InsertIsOk(cfg, s, t, id);
    QuietStepKeepsInv(cfg, s, t, id);
  }

  /** The update of a locked row always finds it as it was read. */
  lemma UpdateIsOk(cfg: Config, s: State, t: State, id: TxId)
    requires cfg.codec.RoundTrips() && id in s.txs && UpdateStep(cfg, s, id) == Some(t)
    requires TxOk(cfg, s, Current(cfg, s.log), id, s.txs[id]) && RowOk(Current(cfg, s.log))
    requires var row := Current(cfg, s.log); s.table == (if row.None? then None else Some(Encode(cfg.codec, row.value)))
    ensures s.holder == Some(id) && t.txs.Keys == s.txs.Keys && t == s.(txs := t.txs, pending := t.pending)
    ensures forall other | other in s.txs && other != id :: t.txs[other] == s.txs[other]
    ensures TxOk(cfg, t, Current(cfg, t.log), id, t.txs[id])
  {
    var original := s.txs[id].pc.original.value;
    MatchIdentifiesRow(cfg.codec, original, original);
  }

  lemma UpdateKeepsInv(cfg: Config, s: State, t: State, id: TxId)
    requires cfg.codec.RoundTrips() && Inv(cfg, s) && id in s.txs && UpdateStep(cfg, s, id) == Some(t)
    ensures Inv(cfg, t)
  {
    UpdateIsOk(cfg, s, t, id);
    QuietStepKeepsInv(cfg, s, t, id);
  }

  lemma ReselectKeepsInv(cfg: Config, s: State, t: State, id: TxId)
    requires cfg.codec.RoundTrips() && Inv(cfg, s) && id in s.txs && ReselectStep(cfg, s, id) == Some(t)
    ensures Inv(cfg, t)
  {
    assert TxOk(cfg, s, Current(cfg, s.log), id, s.txs[id]);
    LockKeepsInv(cfg, s, id);
  }

  lemma CommitIsOk(cfg: Config, s: State, t: State, id: TxId)
    requires id in s.txs && CommitStep(s, id) == Some(t) && TxOk(cfg, s, Current(cfg, s.log), id, s.txs[id])
    ensures s.holder == Some(id) && t.holder.None? && t.pending.None?
    ensures t.txs == s.txs[id := Tx(s.txs[id].call, Finished(Success(s.txs[id].pc.reply)))]
    ensures var pc, call := s.txs[id].pc, s.txs[id].call;
            && t.log == s.log + [Logged(id, Event(pc.now, call), Success(pc.reply))] && NotLogged(s.log, id)
            && Success(pc.reply) == ReplyTo(cfg.digest, call, Current(cfg, s.log), pc.now)
            && t.table == (if pc.Wrote? then s.pending else s.table)
            && (pc.Wrote? ==> RowAfter(cfg.digest, call, Current(cfg, s.log), pc.now) == Some(pc.updated)
                              && s.pending == Some(Encode(cfg.codec, pc.updated)))
            && (pc.Unchanged? ==> RowAfter(cfg.digest, call, Current(cfg, s.log), pc.now) == Current(cfg, s.log))
  {}

  lemma CommitKeepsInv(cfg: Config, s: State, t: State, id: TxId)
    requires Inv(cfg, s) && id in s.txs && CommitStep(s, id) == Some(t)
    ensures Inv(cfg, t)
  {
    var pc := s.txs[id].pc;
    CommitIsOk(cfg, s, t, id);
    LoggingStepKeepsInv(cfg, s, t, id, pc.now, Success(pc.reply));
  }

  lemma LostAckKeepsInv(cfg: Config, s: State, t: State, id: TxId)
    requires Inv(cfg, s) && id in s.txs && LostAckStep(s, id) == Some(t)
    ensures Inv(cfg, t)
  {
    var pc := s.txs[id].pc;
    CommitIsOk(cfg, s, CommitStep(s, id).value, id);
    LoggingStepKeepsInv(cfg, s, t, id, pc.now, Success(pc.reply));
  }

  lemma RollbackKeepsInv(cfg: Config, s: State, t: State, id: TxId)
    requires Inv(cfg, s) && id in s.txs && RollbackStep(s, id) == Some(t)
    ensures Inv(cfg, t)
  {
    var pc := s.txs[id].pc;
    assert TxOk(cfg, s, Current(cfg, s.log), id, s.txs[id]);
    if pc.original.None? {
      QuietStepKeepsInv(cfg, s, t, id);
    } else {
      LoggingStepKeepsInv(cfg, s, t, id, pc.now, Failure(pc.error));
    }
  }

  /** Arrivals and clock movements disturb no one. */
  lemma BackgroundKeepsInv(cfg: Config, s: State, action: Action, t: State)
    requires Inv(cfg, s) && Step(cfg, s, action) == Some(t) && (action.Begin? || action.Tick?)
    ensures Inv(cfg, t)
  {
    forall id | id in t.txs ensures TxOk(cfg, t, Current(cfg, t.log), id, t.txs[id]) {
      if id in s.txs {
        assert TxOk(cfg, s, Current(cfg, s.log), id, s.txs[id]);
      }
    }
  }

  lemma DisconnectIsOk(cfg: Config, s: State, t: State, id: TxId)
    requires id in s.txs && DisconnectStep(s, id) == Some(t) && TxOk(cfg, s, Current(cfg, s.log), id, s.txs[id])
    ensures t.txs == s.txs[id := s.txs[id].(pc := Disconnected)] && t.table == s.table && t.log == s.log
    ensures if s.holder == Some(id) then t.holder.None? && t.pending.None?
            else t.holder == s.holder && t.pending == s.pending
    ensures TxOk(cfg, t, Current(cfg, t.log), id, t.txs[id])
  {}

  lemma DisconnectKeepsInv(cfg: Config, s: State, t: State, id: TxId)
    requires Inv(cfg, s) && id in s.txs && DisconnectStep(s, id) == Some(t)
    ensures Inv(cfg, t)
  {
    DisconnectIsOk(cfg, s, t, id);
    QuietStepKeepsInv(cfg, s, t, id);
  }

  lemma StepKeepsInv(cfg: Config, s: State, action: Action, t: State)
    requires cfg.codec.RoundTrips() && Inv(cfg, s) && Step(cfg, s, action) == Some(t)
    ensures Inv(cfg, t)
  {
    match action {
      case Begin(_, _) => BackgroundKeepsInv(cfg, s, action, t);
      case Tick(_) => BackgroundKeepsInv(cfg, s, action, t);
      case Select(id) => SelectKeepsInv(cfg, s, t, id);
      case Decide(id) => DecideKeepsInv(cfg, s, t, id);
      case Insert(id) => InsertKeepsInv(cfg, s, t, id);
      case Update(id) => UpdateKeepsInv(cfg, s, t, id);
      case Reselect(id) => ReselectKeepsInv(cfg, s, t, id);
      case Commit(id) => CommitKeepsInv(cfg, s, t, id);
      case LostAck(id) => LostAckKeepsInv(cfg, s, t, id);
      case Rollback(id) => RollbackKeepsInv(cfg, s, t, id);
      case Disconnect(id) => DisconnectKeepsInv(cfg, s, t, id);
    }
  }

  lemma {:induction false} RunKeepsInv(cfg: Config, actions: seq<Action>, s: State)
    requires cfg.codec.RoundTrips() && Run(cfg, actions) == Some(s)
    ensures Inv(cfg, s)
  {
    if actions != [] {
      var before := actions[..|actions| - 1];
      RunKeepsInv(cfg, before, Run(cfg, before).value);
      StepKeepsInv(cfg, Run(cfg, before).value, actions[|actions| - 1], s);
    }
  }

  /** ATOMICITY: in every interleaving the table is the encoding of the one-lock row after the logged
      applications; every finished transaction was applied exactly once, with the result the one-lock store gives
      there; every other one, a disconnected one included, was applied at most once, for its own call; and no
      transaction ever reports a removed, disappeared or unreadable row or a lost update. */
  lemma Linearizable(cfg: Config, actions: seq<Action>, s: State)
    requires cfg.codec.RoundTrips() && Run(cfg, actions) == Some(s)
    ensures var row := RowAt(cfg.digest, Events(s.log), |s.log|);
            s.table == (if row.None? then None else Some(Encode(cfg.codec, row.value)))
    ensures forall i | 0 <= i < |s.log| :: s.log[i].result == ReplyAt(cfg.digest, Events(s.log), i)
    ensures forall i, j | 0 <= i < j < |s.log| :: s.log[i].tx != s.log[j].tx
    ensures forall i | 0 <= i < |s.log| :: s.log[i].tx in s.txs && s.log[i].event.call == s.txs[s.log[i].tx].call
    ensures forall id | id in s.txs && s.txs[id].pc.Finished? ::
              LoggedOnce(s.log, id, s.txs[id].call, s.txs[id].pc.result)
    ensures forall id | id in s.txs :: !s.txs[id].pc.Broken?
  {
    RunKeepsInv(cfg, actions, s);
    forall i | 0 <= i < |s.log| ensures s.log[i].result == ReplyAt(cfg.digest, Events(s.log), i) {
      assert EntryOk(cfg, s.log, i);
    }
    forall id | id in s.txs
      ensures !s.txs[id].pc.Broken?
      ensures s.txs[id].pc.Finished? ==> LoggedOnce(s.log, id, s.txs[id].call, s.txs[id].pc.result)
    {
      assert TxOk(cfg, s, Current(cfg, s.log), id, s.txs[id]);
    }
  }

  // ---- Real-time order ----

  predicate Ended(pc: Pc) {
    pc.Finished? || pc.Disconnected?
  }

  /** What one step may do to the log and to ended transactions. */
  ghost predicate LogGrows(s: State, t: State) {
    && s.log <= t.log
    && (forall i | |s.log| <= i < |t.log| :: t.log[i].tx in s.txs ==> !Ended(s.txs[t.log[i].tx].pc))
    && (forall id | id in s.txs :: id in t.txs && t.txs[id].call == s.txs[id].call)
    && (forall id | id in s.txs && Ended(s.txs[id].pc) :: t.txs[id] == s.txs[id])
  }

  /** A step of one unfinished transaction that logs nothing, or only its own entry. */
  lemma OwnStepGrowsLog(s: State, t: State, id: TxId)
    requires id in s.txs && !Ended(s.txs[id].pc) && id in t.txs && t.txs[id].call == s.txs[id].call
    requires t.txs == s.txs[id := t.txs[id]]
    requires t.log == s.log || (|t.log| == |s.log| + 1 && t.log == s.log + [t.log[|s.log|]] && t.log[|s.log|].tx == id)
    ensures LogGrows(s, t)
  {}

  lemma EndStepGrowsLog(s: State, id: TxId, t: State)
    requires id in s.txs && (CommitStep(s, id) == Some(t) || LostAckStep(s, id) == Some(t)
             || RollbackStep(s, id) == Some(t))
    ensures LogGrows(s, t)
  {
    OwnStepGrowsLog(s, t, id);
  }

  lemma SelectStepGrowsLog(cfg: Config, s: State, id: TxId, t: State)
    requires id in s.txs && SelectStep(cfg, s, id) == Some(t)
    ensures LogGrows(s, t)
  {
    OwnStepGrowsLog(s, t, id);
  }

  lemma StepGrowsLog(cfg: Config, s: State, action: Action, t: State)
    requires Step(cfg, s, action) == Some(t)
    ensures LogGrows(s, t)
  {
    match action {
      case Select(id) => SelectStepGrowsLog(cfg, s, id, t);
      case Commit(id) => EndStepGrowsLog(s, id, t);
      case LostAck(id) => EndStepGrowsLog(s, id, t);
      case Rollback(id) => EndStepGrowsLog(s, id, t);
      case Begin(_, _) =>
      case Tick(_) =>
      case _ => OwnStepGrowsLog(s, t, action.id);
    }
  }

  lemma {:induction false} RunGrowsLog(cfg: Config, actions: seq<Action>, n: nat, s: State, t: State)
    requires n <= |actions| && Run(cfg, actions[..n]) == Some(s) && Run(cfg, actions) == Some(t)
    ensures LogGrows(s, t)
  {
    if n == |actions| {
      assert actions[..n] == actions;
    } else {
      var before := actions[..|actions| - 1];
      var middle := Run(cfg, before).value;
      assert before[..n] == actions[..n];
      RunGrowsLog(cfg, before, n, s, middle);
      StepGrowsLog(cfg, middle, actions[|actions| - 1], t);
      LogGrowsOn(s, middle, t);
    }
  }

  lemma LogGrowsOn(s: State, middle: State, t: State)
    requires LogGrows(s, middle) && LogGrows(middle, t)
    ensures LogGrows(s, t)
  {
    forall i | |s.log| <= i < |t.log| && t.log[i].tx in s.txs ensures !Ended(s.txs[t.log[i].tx].pc) {
      if i < |middle.log| {
        assert t.log[i] == middle.log[i];
      }
    }
  }

  /** APPLIED WHILE RUNNING: the one log entry of a transaction is made after it began and before it finished or
      was disconnected. */
  lemma AppliedWhileRunning(cfg: Config, actions: seq<Action>, n: nat, s: State, t: State, i: nat)
    requires cfg.codec.RoundTrips() && n <= |actions|
    requires Run(cfg, actions[..n]) == Some(s) && Run(cfg, actions) == Some(t) && i < |t.log|
    ensures t.log[i].tx !in s.txs ==> i >= |s.log|
    ensures t.log[i].tx in s.txs && Ended(s.txs[t.log[i].tx].pc) ==> i < |s.log|
  {
    RunKeepsInv(cfg, actions[..n], s);
    RunGrowsLog(cfg, actions, n, s, t);
  }

  /** REAL-TIME ORDER: a transaction that ended before another began is applied before it, if at all. */
  lemma RealTimeOrder(cfg: Config, actions: seq<Action>, n: nat, s: State, t: State, i: nat, j: nat)
    requires cfg.codec.RoundTrips() && n <= |actions|
    requires Run(cfg, actions[..n]) == Some(s) && Run(cfg, actions) == Some(t) && i < |t.log| && j < |t.log|
    requires t.log[i].tx in s.txs && Ended(s.txs[t.log[i].tx].pc)
    requires t.log[j].tx !in s.txs
    ensures i < j
  {
    AppliedWhileRunning(cfg, actions, n, s, t, i);
    AppliedWhileRunning(cfg, actions, n, s, t, j);
  }

  // ---- Time ----

  /** The clock reading a transaction has taken and not yet used up. */
  function PcNow(pc: Pc): Option<int> {
    match pc
    case Decided(_, now, _, _) => Some(now)
    case Wrote(_, now, _, _) => Some(now)
    case Unchanged(_, now, _) => Some(now)
    case Failing(_, now, _) => Some(now)
    case _ => None
  }

  ghost predicate LogBefore(log: seq<Logged>, now: int) {
    forall i | 0 <= i < |log| :: log[i].event.now <= now
  }

  /** With a steady clock the log is in clock order, and the lock holder's reading is the latest. */
  ghost predicate TimeOk(cfg: Config, s: State) {
    && cfg.epoch <= s.clock
    && LogBefore(s.log, s.clock)
    && (forall i, j | 0 <= i <= j < |s.log| :: s.log[i].event.now <= s.log[j].event.now)
    && (s.table.None? ==> LogBefore(s.log, cfg.epoch))
    && (forall id | id in s.txs && PcNow(s.txs[id].pc).Some? ::
          var now := PcNow(s.txs[id].pc).value;
          cfg.epoch <= now <= s.clock && (s.holder == Some(id) ==> LogBefore(s.log, now)))
  }

  /** A step that logs nothing keeps old readings or takes the clock's; only an insert that finds the
      table empty takes the lock with an old reading. */
  lemma QuietStepKeepsTime(cfg: Config, s: State, t: State, id: TxId)
    requires TimeOk(cfg, s) && id in s.txs
    requires t.txs.Keys == s.txs.Keys && forall other | other in s.txs && other != id :: t.txs[other] == s.txs[other]
    requires t.log == s.log && t.table == s.table && t.clock == s.clock
    requires t.holder == s.holder || t.holder.None? || t.holder == Some(id)
    requires var now := PcNow(t.txs[id].pc);
             || now.None?
             || now == Some(s.clock)
             || (now == PcNow(s.txs[id].pc) && (t.holder == s.holder || s.table.None?))
    ensures TimeOk(cfg, t)
  {
    forall other | other in t.txs && PcNow(t.txs[other].pc).Some?
      ensures var now := PcNow(t.txs[other].pc).value;
              cfg.epoch <= now <= t.clock && (t.holder == Some(other) ==> LogBefore(t.log, now))
    {
      assert PcNow(s.txs[other].pc).Some? ==> cfg.epoch <= PcNow(s.txs[other].pc).value;
    }
  }

  /** A logged reading is not before any logged one. */
  lemma LoggingStepKeepsTime(cfg: Config, s: State, t: State, id: TxId, entry: Logged)
    requires TimeOk(cfg, s) && id in s.txs
    requires t.txs.Keys == s.txs.Keys && forall other | other in s.txs && other != id :: t.txs[other] == s.txs[other]
    requires t.log == s.log + [entry] && t.clock == s.clock && PcNow(t.txs[id].pc).None?
    requires cfg.epoch <= entry.event.now <= s.clock && LogBefore(s.log, entry.event.now)
    requires t.holder.None? || (t.holder == s.holder && entry.event.now == cfg.epoch)
    requires t.table.None? ==> s.table.None? && entry.event.now == cfg.epoch
    ensures TimeOk(cfg, t)
  {
    forall other | other in t.txs && PcNow(t.txs[other].pc).Some?
      ensures var now := PcNow(t.txs[other].pc).value;
              cfg.epoch <= now <= t.clock && (t.holder == Some(other) ==> LogBefore(t.log, now))
    {
      assert PcNow(s.txs[other].pc).Some?;
    }
  }

  /** A transaction about to end holds the lock, and leaves a row behind. */
  ghost predicate EndsLocked(s: State, id: TxId)
    requires id in s.txs
  {
    match s.txs[id].pc
    case Wrote(_, _, _, _) => s.holder == Some(id) && s.pending.Some?
    case Unchanged(_, _, _) => s.holder == Some(id) && s.table.Some?
    case Failing(Some(_), _, _) => s.holder == Some(id) && s.table.Some?
    case _ => true
  }

  lemma TxEndsLocked(cfg: Config, s: State, id: TxId)
    requires Inv(cfg, s) && id in s.txs
    ensures EndsLocked(s, id)
  {
    var tx := s.txs[id];
    assert TxOk(cfg, s, Current(cfg, s.log), id, tx);
    if tx.pc.Unchanged? {
      TransitionKeepsRow(cfg.digest, tx.call, tx.pc.original, tx.pc.now);
    }
  }

  lemma CommitKeepsTime(cfg: Config, s: State, t: State, id: TxId)
    requires TimeOk(cfg, s) && id in s.txs && EndsLocked(s, id) && CommitStep(s, id) == Some(t)
    ensures TimeOk(cfg, t)
  {
    var tx := s.txs[id];
    LoggingStepKeepsTime(cfg, s, t, id, Logged(id, Event(tx.pc.now, tx.call), Success(tx.pc.reply)));
  }

  lemma LostAckKeepsTime(cfg: Config, s: State, t: State, id: TxId)
    requires TimeOk(cfg, s) && id in s.txs && EndsLocked(s, id) && LostAckStep(s, id) == Some(t)
    ensures TimeOk(cfg, t)
  {
    var tx := s.txs[id];
    LoggingStepKeepsTime(cfg, s, t, id, Logged(id, Event(tx.pc.now, tx.call), Success(tx.pc.reply)));
  }

  lemma RollbackKeepsTime(cfg: Config, s: State, t: State, id: TxId)
    requires TimeOk(cfg, s) && id in s.txs && EndsLocked(s, id) && RollbackStep(s, id) == Some(t)
    ensures TimeOk(cfg, t)
  {
    var tx := s.txs[id];
    if tx.pc.original.None? {
      QuietStepKeepsTime(cfg, s, t, id);
    } else {
      LoggingStepKeepsTime(cfg, s, t, id, Logged(id, Event(tx.pc.now, tx.call), Failure(tx.pc.error)));
    }
  }

  lemma DecideKeepsTime(cfg: Config, s: State, t: State, id: TxId)
    requires TimeOk(cfg, s) && id in s.txs && DecideStep(cfg, s, id) == Some(t)
    ensures TimeOk(cfg, t)
  {
    QuietStepKeepsTime(cfg, s, t, id);
  }

  lemma WriteKeepsTime(cfg: Config, s: State, t: State, id: TxId)
    requires TimeOk(cfg, s) && id in s.txs
    requires InsertStep(cfg, s, id) == Some(t) || UpdateStep(cfg, s, id) == Some(t)
    ensures TimeOk(cfg, t)
  {
    QuietStepKeepsTime(cfg, s, t, id);
  }

  lemma ReselectKeepsTime(cfg: Config, s: State, t: State, id: TxId)
    requires TimeOk(cfg, s) && id in s.txs && ReselectStep(cfg, s, id) == Some(t)
    ensures TimeOk(cfg, t)
  {
    QuietStepKeepsTime(cfg, s, t, id);
  }

  lemma SelectKeepsTime(cfg: Config, s: State, t: State, id: TxId)
    requires TimeOk(cfg, s) && id in s.txs && SelectStep(cfg, s, id) == Some(t)
    ensures TimeOk(cfg, t)
  {
    if s.table.None? && !s.txs[id].call.Acquire? {
      var refused := ReplyTo(cfg.digest, s.txs[id].call, None, cfg.epoch);
      LoggingStepKeepsTime(cfg, s, t, id, Logged(id, Event(cfg.epoch, s.txs[id].call), refused));
    } else {
      QuietStepKeepsTime(cfg, s, t, id);
    }
  }

  lemma StepKeepsTime(cfg: Config, s: State, action: Action, t: State)
    requires cfg.steady && TimeOk(cfg, s) && Step(cfg, s, action) == Some(t)
    requires forall id | id in s.txs :: EndsLocked(s, id)
    ensures TimeOk(cfg, t)
  {
    match action {
      case Begin(_, _) =>
      case Tick(_) =>
      case Select(id) => SelectKeepsTime(cfg, s, t, id);
      case Commit(id) => CommitKeepsTime(cfg, s, t, id);
      case LostAck(id) => LostAckKeepsTime(cfg, s, t, id);
      case Rollback(id) => RollbackKeepsTime(cfg, s, t, id);
      case Decide(id) => DecideKeepsTime(cfg, s, t, id);
      case Insert(id) => WriteKeepsTime(cfg, s, t, id);
      case Update(id) => WriteKeepsTime(cfg, s, t, id);
      case Reselect(id) => ReselectKeepsTime(cfg, s, t, id);
      case Disconnect(id) => QuietStepKeepsTime(cfg, s, t, id);
    }
  }

  lemma {:induction false} RunKeepsTime(cfg: Config, actions: seq<Action>, s: State)
    requires cfg.steady && cfg.codec.RoundTrips() && Run(cfg, actions) == Some(s)
    ensures TimeOk(cfg, s)
  {
    if actions != [] {
      var before := actions[..|actions| - 1];
      RunKeepsInv(cfg, before, Run(cfg, before).value);
      RunKeepsTime(cfg, before, Run(cfg, before).value);
      forall id | id in Run(cfg, before).value.txs ensures EndsLocked(Run(cfg, before).value, id) {
        TxEndsLocked(cfg, Run(cfg, before).value, id);
      }
      StepKeepsTime(cfg, Run(cfg, before).value, actions[|actions| - 1], s);
    }
  }

  lemma EventsAreValid(cfg: Config, log: seq<Logged>)
    requires LogOk(cfg, log)
    ensures ValidHistory(Events(log))
  {
    forall k | 0 <= k < |log| ensures Events(log)[k].call.Valid() {
      assert EntryOk(cfg, log, k);
    }
  }

  lemma FinishedIsLogged(cfg: Config, s: State, id: TxId) returns (i: nat)
    requires Inv(cfg, s) && id in s.txs && s.txs[id].pc.Finished?
    ensures i < |s.log| && ReplyAt(cfg.digest, Events(s.log), i) == s.txs[id].pc.result
  {
    assert TxOk(cfg, s, Current(cfg, s.log), id, s.txs[id]);
    i :| 0 <= i < |s.log| && s.log[i].tx == id && s.log[i].result == s.txs[id].pc.result;
    assert EntryOk(cfg, s.log, i);
  }

  /** EXCLUSION UNDER INTERLEAVING: whatever the database clock does, any two finished transactions whose
      replies issued leases that are still live at a moment at or after every applied reading issued them to the
      same holder under the same fence. */
  lemma FinishedLeasesExclude(cfg: Config, actions: seq<Action>, s: State, a: TxId, b: TxId, t: int)
    requires cfg.codec.RoundTrips() && Run(cfg, actions) == Some(s) && LogBefore(s.log, t)
    requires a in s.txs && s.txs[a].pc.Finished? && b in s.txs && s.txs[b].pc.Finished?
    requires IssuedBy(s.txs[a].pc.result).Some? && IssuedBy(s.txs[a].pc.result).value.expiresAt > t
    requires IssuedBy(s.txs[b].pc.result).Some? && IssuedBy(s.txs[b].pc.result).value.expiresAt > t
    ensures IssuedBy(s.txs[a].pc.result).value.SameHolder(IssuedBy(s.txs[b].pc.result).value)
  {
    RunKeepsInv(cfg, actions, s);
    var i := FinishedIsLogged(cfg, s, a);
    var j := FinishedIsLogged(cfg, s, b);
    LoggedLeasesExclude(cfg, s.log, i, j, t);
  }

  lemma LoggedLeasesExclude(cfg: Config, log: seq<Logged>, i: nat, j: nat, t: int)
    requires LogOk(cfg, log) && LogBefore(log, t) && i < |log| && j < |log|
    requires IssuedAt(cfg.digest, Events(log), i).Some? && IssuedAt(cfg.digest, Events(log), i).value.expiresAt > t
    requires IssuedAt(cfg.digest, Events(log), j).Some? && IssuedAt(cfg.digest, Events(log), j).value.expiresAt > t
    ensures IssuedAt(cfg.digest, Events(log), i).value.SameHolder(IssuedAt(cfg.digest, Events(log), j).value)
  {
    EventsAreValid(cfg, log);
    Exclusion(cfg.digest, Events(log), |log|, i, j, t);
  }

  /** With a steady clock the present moment is such a moment. */
  lemma SteadyClockExcludesNow(cfg: Config, actions: seq<Action>, s: State, a: TxId, b: TxId)
    requires cfg.steady && cfg.codec.RoundTrips() && Run(cfg, actions) == Some(s)
    requires a in s.txs && s.txs[a].pc.Finished? && b in s.txs && s.txs[b].pc.Finished?
    requires IssuedBy(s.txs[a].pc.result).Some? && IssuedBy(s.txs[a].pc.result).value.expiresAt > s.clock
    requires IssuedBy(s.txs[b].pc.result).Some? && IssuedBy(s.txs[b].pc.result).value.expiresAt > s.clock
    ensures IssuedBy(s.txs[a].pc.result).value.SameHolder(IssuedBy(s.txs[b].pc.result).value)
  {
    RunKeepsTime(cfg, actions, s);
    FinishedLeasesExclude(cfg, actions, s, a, b, s.clock);
  }
}
