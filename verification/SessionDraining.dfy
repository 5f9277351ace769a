/** Closing a blocking SQLite session (_StoreSession and BlockingObjectStore._run in
    src/dr_store/sync/blocking.py).

    Any number of threads call operations, open and close one session. A step takes a lock, runs a locked
    region and gives the lock back, or is one wait or loop action. A wait for a future can be broken off by an
    exception raised in the waiting thread. Each call has its own identity; ops, interrupted and the counters
    only record what happened. */
module SessionDraining {
  import opened Wrappers

  type CallId = nat

  // ---- The regions under the futures lock ----

  datatype Registry = Registry(closed: bool, futures: set<CallId>)

  function AdmitCall(r: Registry, call: CallId): (Registry, bool) {
    if r.closed then (r, false) else (r.(futures := r.futures + {call}), true)
  }

  function DiscardCall(r: Registry, call: CallId): Registry {
    r.(futures := r.futures - {call})
  }

  function BeginClose(r: Registry): (Registry, set<CallId>) {
    (r.(closed := true), r.futures)
  }

  /** The session object's side of these regions. drained is the snapshot of the last close. */
  class StoreSession {
    var closed: bool
    var futures: set<CallId>
    ghost var drained: set<CallId>

    constructor ()
      ensures Valid() && Fields() == Registry(false, {})
    {
      closed, futures, drained := false, {}, {};
    }

    /** A closed session has no registered call that its last close did not wait for. */
    ghost predicate Valid()
      reads this
    {
      closed ==> futures <= drained
    }

    function Fields(): Registry
      reads this
    {
      Registry(closed, futures)
    }

    /** A call is registered exactly while the session is open, so no call escapes the last close. */
    method Admit(call: CallId) returns (ok: bool)
      requires Valid()
      modifies this
      ensures Valid() && closed == old(closed) && drained == old(drained)
      ensures ok <==> !old(closed)
      ensures forall c :: c in futures <==> c in old(futures) || (ok && c == call)
      ensures Fields() == AdmitCall(old(Fields()), call).0 && ok == AdmitCall(old(Fields()), call).1
    {
      if closed {
        return false;
      }
      futures := futures + {call};
      return true;
    }

    /** Only this call is forgotten, open or closed. */
    method Discard(call: CallId)
      requires Valid()
      modifies this
      ensures Valid() && closed == old(closed) && drained == old(drained)
      ensures forall c :: c in futures <==> c in old(futures) && c != call
      ensures Fields() == DiscardCall(old(Fields()), call)
    {
      futures := futures - {call};
    }

    /** The snapshot holds every registered call, and from here on every call that can still be registered. */
    method CloseAdmission() returns (snapshot: set<CallId>)
      requires Valid()
      modifies this
      ensures Valid() && closed && drained == snapshot
      ensures forall c | c in old(futures) :: c in futures && c in snapshot
      ensures old(closed) ==> snapshot <= old(drained)
      ensures Fields() == BeginClose(old(Fields())).0 && snapshot == BeginClose(old(Fields())).1
    {
      closed := true;
      snapshot := futures;
      drained := snapshot;
    }
  }

  // ---- The machine ----

  datatype Pc =
    | Entering
    | Admitting
    | Waiting
    | Leaving
    | Removing
    | WantsOpen
    | OpenChecking
    | OpeningBackend
    | WantsClose
    | CloseChecking
    | WantsSnapshot
    | Snapshotting
    | Draining(snapshot: set<CallId>)
    | Drained
    | ClosingBackend
    | Stopping
    | Done
  {
    predicate HoldsOpenLock() {
      OpenChecking? || OpeningBackend? || CloseChecking? || WantsSnapshot? || Snapshotting? || Draining? || Drained?
      || ClosingBackend? || Stopping?
    }

    predicate HoldsFuturesLock() {
      Admitting? || Removing? || Snapshotting?
    }
  }

  datatype Loop = NotStarted | Running | Stopped

  /** What became of the opens asked for: how many the session adopted the backend of, whose waits were broken off,
      and how many of those abandoned ones are still running or have left a backend that nobody has. */
  datatype Opens = Opens(submitted: nat, adopted: nat, interrupted: nat, abandoned: nat, orphaned: nat)

  /** The session's other fields, with what became of its opens and how often a close was submitted. */
  datatype Session = Session(
    backend: bool, openFailed: bool, loop: Loop, threadAlive: bool, handedOut: bool, closesSubmitted: nat, opens: Opens)

  datatype State = State(
    registry: Registry, session: Session, openLock: Option<CallId>, futuresLock: Option<CallId>,
    threads: map<CallId, Pc>, ops: map<CallId, bool>, interrupted: set<CallId>)

  datatype Action =
    | StartCall(t: CallId)
    | StartOpen(t: CallId)
    | StartClose(t: CallId)
    | LockFutures(t: CallId)
    | LockOpen(t: CallId)
    | AdmitOrRefuse(t: CallId)
    | GotResult(t: CallId)
    | WaitInterrupted(t: CallId)
    | Remove(t: CallId)
    | Finish(t: CallId)
    | CheckOpen(t: CallId)
    | BackendOpens(t: CallId, ok: bool)
    | OpenInterrupted(t: CallId)
    | AbandonedOpenEnds(ok: bool)
    | CheckClose(t: CallId)
    | Snapshot(t: CallId)
    | DrainDone(t: CallId)
    | DrainInterrupted(t: CallId)
    | SubmitClose(t: CallId)
    | BackendCloses(t: CallId)
    | StopLoop(t: CallId, joined: bool)

  function Initial(): State {
    State(Registry(false, {}), Session(false, false, NotStarted, false, false, 0, Opens(0, 0, 0, 0, 0)), None, None,
      map[], map[], {})
  }

  function Goto(s: State, t: CallId, pc: Pc): State {
    s.(threads := s.threads[t := pc])
  }

  function ReleaseOpen(s: State, t: CallId): State {
    s.(threads := s.threads[t := Done], openLock := None)
  }

  /** Calls, opens and closes begin; calls and opens first look at closed without a lock. */
  function Begin(s: State, t: CallId, action: Action): Option<State> {
    if t in s.threads then None
    else
      match action
      case StartCall(_) =>
        if !s.session.handedOut then None else Some(Goto(s, t, if s.registry.closed then Done else Entering))
      case StartOpen(_) => Some(Goto(s, t, if s.registry.closed then Done else WantsOpen))
      case StartClose(_) => Some(Goto(s, t, WantsClose))
      case _ => None
  }

  /** The region a thread enters with the futures lock, if that is what it wants. */
  function FuturesRegion(pc: Pc): Option<Pc> {
    match pc
    case Entering => Some(Admitting)
    case Leaving => Some(Removing)
    case WantsSnapshot => Some(Snapshotting)
    case _ => None
  }

  function TakeFuturesLock(s: State, t: CallId): Option<State> {
    if t !in s.threads || s.futuresLock.Some? || FuturesRegion(s.threads[t]).None? then None
    else Some(Goto(s, t, FuturesRegion(s.threads[t]).value).(futuresLock := Some(t)))
  }

  function TakeOpenLock(s: State, t: CallId): Option<State> {
    if t !in s.threads || s.openLock.Some? || !(s.threads[t].WantsOpen? || s.threads[t].WantsClose?) then None
    else Some(Goto(s, t, if s.threads[t].WantsOpen? then OpenChecking else CloseChecking).(openLock := Some(t)))
  }

  /** One operation call: submission and registration are one locked region. */
  function Call(s: State, t: CallId, action: Action): Option<State> {
    if t !in s.threads then None
    else
      match action
      case AdmitOrRefuse(_) =>
        if !s.threads[t].Admitting? then None
        else
          var (r, ok) := AdmitCall(s.registry, t);
          if ok then
            Some(s.(threads := s.threads[t := Waiting], registry := r, futuresLock := None, ops := s.ops[t := false]))
          else Some(s.(threads := s.threads[t := Done], futuresLock := None))
      case GotResult(_) =>
        if s.threads[t].Waiting? && t in s.ops && s.ops[t] then Some(Goto(s, t, Leaving)) else None
      case WaitInterrupted(_) =>
        if s.threads[t].Waiting? then
          Some(s.(threads := s.threads[t := Leaving], interrupted := s.interrupted + {t}))
        else None
      case Remove(_) =>
        if !s.threads[t].Removing? then None
        else Some(s.(threads := s.threads[t := Done], registry := DiscardCall(s.registry, t), futuresLock := None))
      case _ => None
  }

  /** The loop settles a submitted operation, with a result, an error or a cancellation. */
  function Settle(s: State, t: CallId): Option<State> {
    if t in s.ops && !s.ops[t] && s.session.loop.Running? then Some(s.(ops := s.ops[t := true])) else None
  }

  /** Asking for a backend starts the loop's thread if it has not been started. */
  function AskForBackend(x: Session): Session {
    x.(loop := if x.loop.NotStarted? then Running else x.loop, threadAlive := x.loop.NotStarted? || x.threadAlive,
       opens := x.opens.(submitted := x.opens.submitted + 1))
  }

  function BackendReady(x: Session): Session {
    x.(backend := true, handedOut := true, opens := x.opens.(adopted := x.opens.adopted + 1))
  }

  /** A broken-off wait leaves the open running, and records no failure. */
  function AbandonOpen(x: Session): Session {
    x.(opens := x.opens.(interrupted := x.opens.interrupted + 1, abandoned := x.opens.abandoned + 1))
  }

  /** An abandoned open ends on its own, at any later time, in a worker thread that does not need the loop; the
      backend it opens is nobody's. */
  function EndAbandoned(s: State, ok: bool): Option<State> {
    var o := s.session.opens;
    if o.abandoned == 0 then None
    else
      var orphaned := o.orphaned + if ok then 1 else 0;
      Some(s.(session := s.session.(opens := o.(abandoned := o.abandoned - 1, orphaned := orphaned))))
  }

  function Open(s: State, t: CallId, action: Action): Option<State> {
    if t !in s.threads then None
    else
      match action
      case CheckOpen(_) =>
        if !s.threads[t].OpenChecking? then None
        else if s.session.backend || s.registry.closed || s.session.openFailed then Some(ReleaseOpen(s, t))
        else Some(s.(threads := s.threads[t := OpeningBackend], session := AskForBackend(s.session)))
      case BackendOpens(_, ok) =>
        if !s.threads[t].OpeningBackend? then None
        else
          Some(ReleaseOpen(s, t).(session := if ok then BackendReady(s.session) else s.session.(openFailed := true)))
      case OpenInterrupted(_) =>
        if s.threads[t].OpeningBackend? then Some(ReleaseOpen(s, t).(session := AbandonOpen(s.session))) else None
      case _ => None
  }

  function AskToClose(x: Session): Session {
    x.(closesSubmitted := x.closesSubmitted + 1)
  }

  function StopSession(x: Session, joined: bool): Session {
    x.(loop := if x.threadAlive then Stopped else x.loop, threadAlive := x.threadAlive && !joined, backend := false)
  }

  predicate Settled(futures: set<CallId>, ops: map<CallId, bool>) {
    forall c | c in futures :: c in ops && ops[c]
  }

  /** Up to the wait for the operations in flight. */
  function CloseAdmission(s: State, t: CallId, action: Action): Option<State> {
    if t !in s.threads then None
    else
      match action
      case CheckClose(_) =>
        if !s.threads[t].CloseChecking? then None
        else if s.registry.closed && !s.session.threadAlive && !s.session.backend then Some(ReleaseOpen(s, t))
        else Some(Goto(s, t, WantsSnapshot))
      case Snapshot(_) =>
        if !s.threads[t].Snapshotting? then None
        else
          var (r, snapshot) := BeginClose(s.registry);
          Some(s.(threads := s.threads[t := Draining(snapshot)], registry := r, futuresLock := None))
      case _ => None
  }

  /** From that wait on. */
  function CloseResources(s: State, t: CallId, action: Action): Option<State> {
    if t !in s.threads then None
    else
      match action
      case DrainDone(_) =>
        if s.threads[t].Draining? && Settled(s.threads[t].snapshot, s.ops) then Some(Goto(s, t, Drained)) else None
      case DrainInterrupted(_) => if s.threads[t].Draining? then Some(ReleaseOpen(s, t)) else None
      case SubmitClose(_) =>
        if !s.threads[t].Drained? then None
        else if s.session.backend then
          Some(s.(threads := s.threads[t := ClosingBackend], session := AskToClose(s.session)))
        else Some(Goto(s, t, Stopping))
      case BackendCloses(_) => if s.threads[t].ClosingBackend? then Some(Goto(s, t, Stopping)) else None
      case StopLoop(_, joined) =>
        if !s.threads[t].Stopping? then None
        else Some(ReleaseOpen(s, t).(session := StopSession(s.session, joined)))
      case _ => None
  }

  function Step(s: State, action: Action): Option<State> {
    match action
    case StartCall(t) => Begin(s, t, action)
    case StartOpen(t) => Begin(s, t, action)
    case StartClose(t) => Begin(s, t, action)
    case LockFutures(t) => TakeFuturesLock(s, t)
    case LockOpen(t) => TakeOpenLock(s, t)
    case AdmitOrRefuse(t) => Call(s, t, action)
    case GotResult(t) => Call(s, t, action)
    case WaitInterrupted(t) => Call(s, t, action)
    case Remove(t) => Call(s, t, action)
    case Finish(t) => Settle(s, t)
    case CheckOpen(t) => Open(s, t, action)
    case BackendOpens(t, _) => Open(s, t, action)
    case OpenInterrupted(t) => Open(s, t, action)
    case AbandonedOpenEnds(ok) => EndAbandoned(s, ok)
    case CheckClose(t) => CloseAdmission(s, t, action)
    case Snapshot(t) => CloseAdmission(s, t, action)
    case _ => CloseResources(s, action.t, action)
  }

  function Run(s: State, actions: seq<Action>): Option<State> {
    if actions == [] then Some(s)
    else
      match Run(s, actions[..|actions| - 1])
      case None => None
      case Some(t) => Step(t, actions[|actions| - 1])
  }

  // ---- The invariant ----

  predicate Pending(ops: map<CallId, bool>, c: CallId) {
    c in ops && !ops[c]
  }

  /** Each lock is held by exactly the thread that is in one of its regions. */
  ghost predicate LocksOk(threads: map<CallId, Pc>, openLock: Option<CallId>, futuresLock: Option<CallId>) {
    && (forall t | t in threads :: threads[t].HoldsOpenLock() <==> openLock == Some(t))
    && (forall t | t in threads :: threads[t].HoldsFuturesLock() <==> futuresLock == Some(t))
    && (openLock.Some? ==> openLock.value in threads)
    && (futuresLock.Some? ==> futuresLock.value in threads)
  }

  /** Where a call stands with its operation. */
  ghost predicate CallOk(
    pc: Pc, c: CallId, futures: set<CallId>, ops: map<CallId, bool>, interrupted: set<CallId>, handedOut: bool)
  {
    && (pc.Entering? || pc.Admitting? ==> handedOut)
    && (pc.Waiting? ==> c in ops && c in futures)
    && (pc.Leaving? || pc.Removing? ==> c in ops && (ops[c] || c in interrupted))
    && (c in ops ==> pc.Waiting? || pc.Leaving? || pc.Removing? || pc.Done?)
  }

  ghost predicate OperationsOk(
    threads: map<CallId, Pc>, futures: set<CallId>, ops: map<CallId, bool>, interrupted: set<CallId>, handedOut: bool)
  {
    && (forall c | c in threads :: CallOk(threads[c], c, futures, ops, interrupted, handedOut))
    && (forall c | c in ops :: c in threads && handedOut)
    && (forall c | c in futures :: c in ops)
    && (forall c | Pending(ops, c) :: c in futures || c in interrupted)
  }

  /** What a closer has established about the operations still pending. */
  ghost predicate CloserOk(pc: Pc, registry: Registry, ops: map<CallId, bool>, interrupted: set<CallId>) {
    && (pc.Draining? ==>
          registry.closed && registry.futures <= pc.snapshot && (forall c | c in pc.snapshot :: c in ops)
          && forall c | Pending(ops, c) :: c in pc.snapshot || c in interrupted)
    && (pc.Drained? || pc.ClosingBackend? || pc.Stopping? ==>
          registry.closed && Settled(registry.futures, ops) && forall c | Pending(ops, c) :: c in interrupted)
  }

  ghost predicate ClosersOk(
    threads: map<CallId, Pc>, registry: Registry, ops: map<CallId, bool>, interrupted: set<CallId>, loop: Loop)
  {
    && (forall t | t in threads :: CloserOk(threads[t], registry, ops, interrupted))
    && (loop.Stopped? ==> registry.closed && Settled(registry.futures, ops))
    && (loop.Stopped? ==> forall t | t in threads && threads[t].Draining? :: Settled(threads[t].snapshot, ops))
  }

  /** A backend is adopted once at most, before the close, and closed once at most; and no backend is nobody's
      unless an open was interrupted. */
  ghost predicate BackendOk(s: State) {
    && s.session.opens.adopted <= 1 && s.session.closesSubmitted <= s.session.opens.adopted
    && (s.session.backend ==> s.session.opens.adopted == 1)
    && (!s.registry.closed && s.session.opens.adopted == 1 ==> s.session.backend)
    && (s.session.opens.adopted == 1 ==> s.session.handedOut)
    && (s.session.handedOut ==> !s.session.loop.NotStarted?)
    && (s.session.loop.Stopped? ==> !s.session.backend)
    && (s.session.closesSubmitted == 1 ==> s.registry.closed)
    && (s.session.closesSubmitted == 1 && s.session.backend ==>
          s.openLock.Some? && s.openLock.value in s.threads
          && var pc := s.threads[s.openLock.value]; pc.ClosingBackend? || pc.Stopping?)
    && (s.openLock.Some? && s.openLock.value in s.threads && s.threads[s.openLock.value].OpeningBackend? ==>
          !s.registry.closed && !s.session.backend && !s.session.openFailed && !s.session.loop.NotStarted?)
    && s.session.opens.abandoned + s.session.opens.orphaned <= s.session.opens.interrupted
  }

  ghost predicate Inv(s: State) {
    && LocksOk(s.threads, s.openLock, s.futuresLock)
    && OperationsOk(s.threads, s.registry.futures, s.ops, s.interrupted, s.session.handedOut)
    && ClosersOk(s.threads, s.registry, s.ops, s.interrupted, s.session.loop)
    && BackendOk(s)
  }

  lemma BeginKeepsLocks(s: State, t: CallId, action: Action, s': State)
    requires LocksOk(s.threads, s.openLock, s.futuresLock) && Begin(s, t, action) == Some(s')
    ensures LocksOk(s'.threads, s'.openLock, s'.futuresLock)
  {}

  lemma BeginKeepsClosers(s: State, t: CallId, action: Action, s': State)
    requires ClosersOk(s.threads, s.registry, s.ops, s.interrupted, s.session.loop) && Begin(s, t, action) == Some(s')
    ensures ClosersOk(s'.threads, s'.registry, s'.ops, s'.interrupted, s'.session.loop)
  {}

  lemma BeginKeepsInv(s: State, t: CallId, action: Action, s': State)
    requires Inv(s) && Begin(s, t, action) == Some(s')
    ensures Inv(s')
  {
    BeginKeepsLocks(s, t, action, s');
    BeginKeepsClosers(s, t, action, s');
  }

  lemma TakeFuturesLockKeepsLocks(s: State, t: CallId, s': State)
    requires LocksOk(s.threads, s.openLock, s.futuresLock) && TakeFuturesLock(s, t) == Some(s')
    ensures LocksOk(s'.threads, s'.openLock, s'.futuresLock)
  {}

  lemma TakeFuturesLockKeepsClosers(s: State, t: CallId, s': State)
    requires ClosersOk(s.threads, s.registry, s.ops, s.interrupted, s.session.loop) && TakeFuturesLock(s, t) == Some(s')
    ensures ClosersOk(s'.threads, s'.registry, s'.ops, s'.interrupted, s'.session.loop)
  {}

  lemma TakeFuturesLockKeepsInv(s: State, t: CallId, s': State)
    requires Inv(s) && TakeFuturesLock(s, t) == Some(s')
    ensures Inv(s')
  {
    TakeFuturesLockKeepsLocks(s, t, s');
    TakeFuturesLockKeepsClosers(s, t, s');
  }

  lemma TakeOpenLockKeepsInv(s: State, t: CallId, s': State)
    requires Inv(s) && TakeOpenLock(s, t) == Some(s')
    ensures Inv(s')
  {}

  lemma CallKeepsLocks(s: State, t: CallId, action: Action, s': State)
    requires LocksOk(s.threads, s.openLock, s.futuresLock) && Call(s, t, action) == Some(s')
    ensures LocksOk(s'.threads, s'.openLock, s'.futuresLock)
  {}

  lemma CallKeepsClosers(s: State, t: CallId, action: Action, s': State)
    requires Inv(s) && Call(s, t, action) == Some(s')
    ensures ClosersOk(s'.threads, s'.registry, s'.ops, s'.interrupted, s'.session.loop)
  {}

  lemma CallKeepsBackend(s: State, t: CallId, action: Action, s': State)
    requires LocksOk(s.threads, s.openLock, s.futuresLock) && BackendOk(s) && Call(s, t, action) == Some(s')
    ensures BackendOk(s')
  {}

  lemma CallKeepsOperations(s: State, t: CallId, action: Action, s': State)
    requires OperationsOk(s.threads, s.registry.futures, s.ops, s.interrupted, s.session.handedOut)
    requires Call(s, t, action) == Some(s')
    ensures OperationsOk(s'.threads, s'.registry.futures, s'.ops, s'.interrupted, s'.session.handedOut)
  {
    forall c | c in s'.threads
      ensures CallOk(s'.threads[c], c, s'.registry.futures, s'.ops, s'.interrupted, s'.session.handedOut)
    {
      assert CallOk(s.threads[c], c, s.registry.futures, s.ops, s.interrupted, s.session.handedOut);
    }
  }

  lemma CallKeepsInv(s: State, t: CallId, action: Action, s': State)
    requires Inv(s) && Call(s, t, action) == Some(s')
    ensures Inv(s')
  {
    CallKeepsLocks(s, t, action, s');
    CallKeepsOperations(s, t, action, s');
    CallKeepsClosers(s, t, action, s');
    CallKeepsBackend(s, t, action, s');
  }

  lemma OpenKeepsLocks(s: State, t: CallId, action: Action, s': State)
    requires LocksOk(s.threads, s.openLock, s.futuresLock) && Open(s, t, action) == Some(s')
    ensures LocksOk(s'.threads, s'.openLock, s'.futuresLock)
  {}

  lemma OpenKeepsClosers(s: State, t: CallId, action: Action, s': State)
    requires Inv(s) && Open(s, t, action) == Some(s')
    ensures ClosersOk(s'.threads, s'.registry, s'.ops, s'.interrupted, s'.session.loop)
  {}

  lemma OpenKeepsOperations(s: State, t: CallId, action: Action, s': State)
    requires OperationsOk(s.threads, s.registry.futures, s.ops, s.interrupted, s.session.handedOut)
    requires Open(s, t, action) == Some(s')
    ensures OperationsOk(s'.threads, s'.registry.futures, s'.ops, s'.interrupted, s'.session.handedOut)
  {
    forall c | c in s'.threads
      ensures CallOk(s'.threads[c], c, s'.registry.futures, s'.ops, s'.interrupted, s'.session.handedOut)
    {
      assert CallOk(s.threads[c], c, s.registry.futures, s.ops, s.interrupted, s.session.handedOut);
    }
  }

  lemma OpenKeepsBackend(s: State, t: CallId, action: Action, s': State)
    requires LocksOk(s.threads, s.openLock, s.futuresLock) && BackendOk(s) && Open(s, t, action) == Some(s')
    requires s.session.loop.Stopped? ==> s.registry.closed
    ensures BackendOk(s')
  {}

  lemma OpenKeepsInv(s: State, t: CallId, action: Action, s': State)
    requires Inv(s) && Open(s, t, action) == Some(s')
    ensures Inv(s')
  {
    OpenKeepsLocks(s, t, action, s');
    OpenKeepsOperations(s, t, action, s');
    OpenKeepsClosers(s, t, action, s');
    OpenKeepsBackend(s, t, action, s');
  }

  lemma AbandonedKeepsInv(s: State, ok: bool, s': State)
    requires Inv(s) && EndAbandoned(s, ok) == Some(s')
    ensures Inv(s')
  {}

  lemma CloseAdmissionKeepsLocks(s: State, t: CallId, action: Action, s': State)
    requires LocksOk(s.threads, s.openLock, s.futuresLock) && CloseAdmission(s, t, action) == Some(s')
    ensures LocksOk(s'.threads, s'.openLock, s'.futuresLock)
  {}

  lemma CloseAdmissionKeepsClosers(s: State, t: CallId, action: Action, s': State)
    requires Inv(s) && CloseAdmission(s, t, action) == Some(s')
    ensures ClosersOk(s'.threads, s'.registry, s'.ops, s'.interrupted, s'.session.loop)
  {}

  lemma CloseAdmissionKeepsInv(s: State, t: CallId, action: Action, s': State)
    requires Inv(s) && CloseAdmission(s, t, action) == Some(s')
    ensures Inv(s')
  {
    CloseAdmissionKeepsLocks(s, t, action, s');
    CloseAdmissionKeepsClosers(s, t, action, s');
  }

  lemma CloseResourcesKeepsLocks(s: State, t: CallId, action: Action, s': State)
    requires LocksOk(s.threads, s.openLock, s.futuresLock) && CloseResources(s, t, action) == Some(s')
    ensures LocksOk(s'.threads, s'.openLock, s'.futuresLock)
  {}

  lemma CloseResourcesKeepsClosers(s: State, t: CallId, action: Action, s': State)
    requires Inv(s) && CloseResources(s, t, action) == Some(s')
    ensures ClosersOk(s'.threads, s'.registry, s'.ops, s'.interrupted, s'.session.loop)
  {}

  lemma CloseResourcesKeepsInv(s: State, t: CallId, action: Action, s': State)
    requires Inv(s) && CloseResources(s, t, action) == Some(s')
    ensures Inv(s')
  {
    CloseResourcesKeepsLocks(s, t, action, s');
    CloseResourcesKeepsClosers(s, t, action, s');
  }

  lemma SettleKeepsInv(s: State, t: CallId, s': State)
    requires Inv(s) && Settle(s, t) == Some(s')
    ensures Inv(s')
  {}

  lemma StepKeepsInv(s: State, action: Action, s': State)
    requires Inv(s) && Step(s, action) == Some(s')
    ensures Inv(s')
  {
    match action {
      case StartCall(t) => BeginKeepsInv(s, t, action, s');
      case StartOpen(t) => BeginKeepsInv(s, t, action, s');
      case StartClose(t) => BeginKeepsInv(s, t, action, s');
      case LockFutures(t) => TakeFuturesLockKeepsInv(s, t, s');
      case LockOpen(t) => TakeOpenLockKeepsInv(s, t, s');
      case AdmitOrRefuse(t) => CallKeepsInv(s, t, action, s');
      case GotResult(t) => CallKeepsInv(s, t, action, s');
      case WaitInterrupted(t) => CallKeepsInv(s, t, action, s');
      case Remove(t) => CallKeepsInv(s, t, action, s');
      case Finish(t) => SettleKeepsInv(s, t, s');
      case CheckOpen(t) => OpenKeepsInv(s, t, action, s');
      case BackendOpens(t, _) => OpenKeepsInv(s, t, action, s');
      case OpenInterrupted(t) => OpenKeepsInv(s, t, action, s');
      case AbandonedOpenEnds(ok) => AbandonedKeepsInv(s, ok, s');
      case CheckClose(t) => CloseAdmissionKeepsInv(s, t, action, s');
      case Snapshot(t) => CloseAdmissionKeepsInv(s, t, action, s');
      case _ => CloseResourcesKeepsInv(s, action.t, action, s');
    }
  }

  lemma {:induction false} RunKeepsInv(s: State, actions: seq<Action>, s': State)
    requires Inv(s) && Run(s, actions) == Some(s')
    ensures Inv(s')
  {
    if actions != [] {
      var before := actions[..|actions| - 1];
      RunKeepsInv(s, before, Run(s, before).value);
      StepKeepsInv(Run(s, before).value, actions[|actions| - 1], s');
    }
  }

  // ---- Main results ----

  /** DRAINED BEFORE CLOSE: in every interleaving, when the backend's close is submitted every operation ever
      submitted on the session is settled, except those whose own caller's wait was broken off; and it is
      submitted once at most, for the one backend the session adopted. */
  lemma DrainedBeforeClose(actions: seq<Action>, s: State, t: CallId, s': State)
    requires Run(Initial(), actions) == Some(s)
    requires Step(s, SubmitClose(t)) == Some(s') && s'.session.closesSubmitted > s.session.closesSubmitted
    ensures forall c | c in s.ops :: s.ops[c] || c in s.interrupted
    ensures s.interrupted == {} ==> forall c | c in s.ops :: s.ops[c]
    ensures s.registry.closed && s.session.closesSubmitted == 0 && s.session.opens.adopted == 1
  {
    RunKeepsInv(Initial(), actions, s);
    assert CloserOk(s.threads[t], s.registry, s.ops, s.interrupted);
    forall c | c in s.ops ensures s.ops[c] || c in s.interrupted {
      assert !s.ops[c] ==> Pending(s.ops, c);
    }
  }

  /** The backends ever opened: the session's own and those of abandoned opens. */
  function BackendsOpened(s: State): nat {
    s.session.opens.adopted + s.session.opens.orphaned
  }

  /** What a closed session no longer does. */
  ghost predicate AdmitsNothing(s: State, s': State) {
    var o, o' := s.session.opens, s'.session.opens;
    && s'.registry.closed && s'.ops.Keys == s.ops.Keys && s'.registry.futures <= s.registry.futures
    && o'.submitted == o.submitted && o'.adopted == o.adopted && o'.interrupted == o.interrupted
    && (s'.session.backend ==> s.session.backend)
    && o'.orphaned >= o.orphaned && o'.orphaned + o'.abandoned <= o.orphaned + o.abandoned
  }

  /** One step of a closed session submits nothing, asks for no backend, adopts none and abandons none. */
  lemma ClosedStepAdmitsNothing(s: State, action: Action, s': State)
    requires Inv(s) && s.registry.closed && Step(s, action) == Some(s')
    ensures AdmitsNothing(s, s')
  {
    if action.AdmitOrRefuse? || action.GotResult? || action.WaitInterrupted? || action.Remove? {
      ClosedCallStep(s, action.t, action, s');
    } else if action.CheckOpen? || action.BackendOpens? || action.OpenInterrupted? {
      NobodyOpensClosed(s, action.t);
      ClosedOpenStep(s, action.t, action, s');
    } else {
      OtherClosedStep(s, action, s');
    }
  }

  lemma NobodyOpensClosed(s: State, t: CallId)
    requires Inv(s) && s.registry.closed
    ensures t in s.threads ==> !s.threads[t].OpeningBackend?
  {}

  lemma ClosedOpenStep(s: State, t: CallId, action: Action, s': State)
    requires s.registry.closed && (t in s.threads ==> !s.threads[t].OpeningBackend?) && Open(s, t, action) == Some(s')
    ensures AdmitsNothing(s, s')
  {}

  lemma OtherClosedStep(s: State, action: Action, s': State)
    requires !action.AdmitOrRefuse? && !action.GotResult? && !action.WaitInterrupted? && !action.Remove?
    requires !action.CheckOpen? && !action.BackendOpens? && !action.OpenInterrupted?
    requires s.registry.closed && Step(s, action) == Some(s')
    ensures AdmitsNothing(s, s')
  {}

  lemma ClosedCallStep(s: State, t: CallId, action: Action, s': State)
    requires s.registry.closed && Call(s, t, action) == Some(s')
    ensures AdmitsNothing(s, s')
  {}

  /** NOTHING AFTER CLOSE: once a session is closed, whatever happens later submits no operation, asks for no
      backend and adopts none. A backend that is still opened then is one of the opens that were abandoned before
      the close and had not ended yet. */
  lemma {:induction false} NothingAfterClose(before: seq<Action>, s: State, after: seq<Action>, s': State)
    requires Run(Initial(), before) == Some(s) && s.registry.closed && Run(s, after) == Some(s')
    ensures AdmitsNothing(s, s')
    ensures BackendsOpened(s') - BackendsOpened(s) <= s.session.opens.abandoned <= s.session.opens.interrupted
    decreases |after|
  {
    RunKeepsInv(Initial(), before, s);
    if after != [] {
      var most := after[..|after| - 1];
      var middle := Run(s, most).value;
      NothingAfterClose(before, s, most, middle);
      RunKeepsInv(s, most, middle);
      ClosedStepAdmitsNothing(middle, after[|after| - 1], s');
    }
  }

  /** ONE BACKEND: the session adopts at most one backend and submits at most one close of it; in all at most one
      backend more than interrupted opens is ever opened, so without an interruption there is at most one. */
  lemma OneBackend(actions: seq<Action>, s: State)
    requires Run(Initial(), actions) == Some(s)
    ensures s.session.closesSubmitted <= s.session.opens.adopted <= 1
    ensures s.session.closesSubmitted == 1 ==> s.registry.closed
    ensures BackendsOpened(s) <= 1 + s.session.opens.interrupted
    ensures s.session.opens.interrupted == 0 ==> s.session.opens.abandoned == 0 && BackendsOpened(s) <= 1
  {
    RunKeepsInv(Initial(), actions, s);
  }

  /** Whoever holds the futures lock gives it back in its next step. */
  lemma FuturesLockComesFree(s: State)
    requires Inv(s) && s.futuresLock.Some? && !s.threads[s.futuresLock.value].Snapshotting?
    ensures var u := s.futuresLock.value;
            exists release :: release in {AdmitOrRefuse(u), Remove(u)} && Step(s, release).Some?
                              && Step(s, release).value.futuresLock.None?
  {
    var u := s.futuresLock.value;
    assert s.threads[u].HoldsFuturesLock();
    var release := if s.threads[u].Admitting? then AdmitOrRefuse(u) else Remove(u);
    assert Step(s, release).Some? && Step(s, release).value.futuresLock.None?;
  }

  /** The loop is still running for every operation a closer waits for. */
  lemma SnapshotCanSettle(s: State, t: CallId, c: CallId)
    requires Inv(s) && t in s.threads && s.threads[t].Draining?
    requires c in s.threads[t].snapshot && !(c in s.ops && s.ops[c])
    ensures Step(s, Finish(c)).Some?
  {
    assert CloserOk(s.threads[t], s.registry, s.ops, s.interrupted);
    assert c in s.ops && s.session.handedOut;
  }

  /** DRAINING BLOCKS NOBODY: while a closer waits it does not hold the futures lock, and whoever does is a
      caller that gives it back in its next step; each operation waited for can be settled by the loop at any
      time; and when all are, the closer goes on. */
  lemma DrainingBlocksNobody(actions: seq<Action>, s: State, t: CallId)
    requires Run(Initial(), actions) == Some(s) && t in s.threads && s.threads[t].Draining?
    ensures s.futuresLock.Some? ==>
              var u := s.futuresLock.value;
              u != t && exists release :: release in {AdmitOrRefuse(u), Remove(u)} && Step(s, release).Some?
                                          && Step(s, release).value.futuresLock.None?
    ensures forall c | c in s.threads[t].snapshot && !(c in s.ops && s.ops[c]) :: Step(s, Finish(c)).Some?
    ensures Settled(s.threads[t].snapshot, s.ops) ==> Step(s, DrainDone(t)).Some?
  {
    RunKeepsInv(Initial(), actions, s);
    forall c | c in s.threads[t].snapshot && !(c in s.ops && s.ops[c]) ensures Step(s, Finish(c)).Some? {
      SnapshotCanSettle(s, t, c);
    }
    if s.futuresLock.Some? {
      assert s.threads[s.futuresLock.value].Snapshotting? ==> s.openLock == s.futuresLock;
      FuturesLockComesFree(s);
    }
  }

  ghost predicate Reaches(s: State, t: State) {
    exists actions :: Run(s, actions) == Some(t)
  }

  lemma ReachesItself(s: State)
    ensures Reaches(s, s)
  {
    var none: seq<Action> := [];
    assert Run(s, none) == Some(s);
  }

  lemma ReachesNext(s: State, t: State, action: Action, u: State)
    requires Reaches(s, t) && Step(t, action) == Some(u)
    ensures Reaches(s, u)
  {
    var actions :| Run(s, actions) == Some(t);
    assert (actions + [action])[..|actions|] == actions;
    assert Run(s, actions + [action]) == Some(u);
  }

  /** Whoever holds the futures lock can leave its region, and no waiting call notices. */
  lemma HolderCanLeave(s: State) returns (t: State)
    requires Inv(s)
    ensures Reaches(s, t) && t.futuresLock.None? && t.session == s.session
    ensures forall c | c in s.threads && s.threads[c].Waiting? ::
              c in t.threads && t.threads[c].Waiting? && c in s.ops && c in t.ops && t.ops[c] == s.ops[c]
    ensures s.futuresLock.None? ==> t == s
  {
    ReachesItself(s);
    t := s;
    if s.futuresLock.Some? {
      var u := s.futuresLock.value;
      assert s.threads[u].HoldsFuturesLock();
      var leave := if s.threads[u].Admitting? then AdmitOrRefuse(u)
                   else if s.threads[u].Removing? then Remove(u)
                   else Snapshot(u);
      t := Step(s, leave).value;
      ReachesNext(s, s, leave, t);
    }
    forall c | c in s.threads && s.threads[c].Waiting? ensures c in s.ops {
      assert CallOk(s.threads[c], c, s.registry.futures, s.ops, s.interrupted, s.session.handedOut);
    }
  }

  /** INTERRUPTED WAITS FORGET: from any state in which a caller waits, breaking its wait off leads, once nobody is
      inside the futures lock, to its operation being no longer registered, settled or not. */
  lemma InterruptedCallForgets(s: State, c: CallId)
    requires Inv(s) && c in s.threads && s.threads[c].Waiting?
    ensures c in s.ops
    ensures exists t :: Reaches(s, t) && c !in t.registry.futures && c in t.ops && t.ops[c] == s.ops[c]
                        && t.session == s.session
                        && (s.futuresLock.None? ==>
                              t.ops == s.ops && t.registry == s.registry.(futures := s.registry.futures - {c}))
  {
    var r := HolderCanLeave(s);
    var s1 := r.(interrupted := r.interrupted + {c}, threads := r.threads[c := Leaving]);
    ReachesNext(s, r, WaitInterrupted(c), s1);
    var s2 := s1.(threads := s1.threads[c := Removing], futuresLock := Some(c));
    ReachesNext(s, s1, LockFutures(c), s2);
    ReachesNext(s, s2, Remove(c), Step(s2, Remove(c)).value);
  }

  ghost predicate PastSnapshot(pc: Pc, snapshot: set<CallId>) {
    pc == Draining(snapshot) || pc.Drained? || pc.ClosingBackend? || pc.Stopping? || pc.Done?
  }

  /** Every pending operation is one the closer's snapshot holds, and once it has gone on there is none. */
  ghost predicate Covered(s: State, t: CallId, snapshot: set<CallId>) {
    && s.registry.closed && t in s.threads
    && (forall c | Pending(s.ops, c) :: c in snapshot)
    && PastSnapshot(s.threads[t], snapshot)
    && (s.threads[t].Drained? ==> forall c | c in s.ops :: s.ops[c])
  }

  /** A closer past its snapshot stays past it, and is drained only when the snapshot is settled. */
  lemma PastSnapshotStep(s: State, t: CallId, snapshot: set<CallId>, action: Action, s': State)
    requires t in s.threads && PastSnapshot(s.threads[t], snapshot) && Step(s, action) == Some(s')
    ensures t in s'.threads && PastSnapshot(s'.threads[t], snapshot)
    ensures s'.threads[t].Drained? ==> s.threads[t].Drained? || (Settled(snapshot, s.ops) && s'.ops == s.ops)
  {}

  lemma SettledStays(s: State, action: Action, s': State, c: CallId)
    requires c in s.ops && s.ops[c] && s.registry.closed && Step(s, action) == Some(s')
    ensures c in s'.ops && s'.ops[c]
  {}

  lemma CoveredStep(s: State, t: CallId, snapshot: set<CallId>, action: Action, s': State)
    requires Inv(s) && Covered(s, t, snapshot) && Step(s, action) == Some(s')
    ensures Covered(s', t, snapshot)
  {
    ClosedStepAdmitsNothing(s, action, s');
    PastSnapshotStep(s, t, snapshot, action, s');
    forall c | c in s'.ops ensures (Pending(s'.ops, c) ==> c in snapshot) && (s'.threads[t].Drained? ==> s'.ops[c]) {
      assert c in s.ops.Keys;
      if s.ops[c] {
        SettledStays(s, action, s', c);
      } else {
        assert Pending(s.ops, c);
      }
    }
  }

  lemma {:induction false} CoveredRun(s: State, t: CallId, snapshot: set<CallId>, actions: seq<Action>, s': State)
    requires Inv(s) && Covered(s, t, snapshot) && Run(s, actions) == Some(s')
    ensures Covered(s', t, snapshot)
  {
    if actions != [] {
      var before := actions[..|actions| - 1];
      var middle := Run(s, before).value;
      CoveredRun(s, t, snapshot, before, middle);
      RunKeepsInv(s, before, middle);
      CoveredStep(middle, t, snapshot, actions[|actions| - 1], s');
    }
  }

  /** A running loop can settle any set of operations, one at a time, and nothing else. */
  lemma LoopCanSettle(s0: State, s: State, todo: set<CallId>) returns (ops: map<CallId, bool>)
    requires Reaches(s0, s) && s.session.loop.Running? && todo <= s.ops.Keys
    ensures ops.Keys == s.ops.Keys && Settled(todo, ops)
    ensures forall c | c in s.ops && c !in todo :: ops[c] == s.ops[c]
    ensures Reaches(s0, s.(ops := ops))
    decreases |todo|
  {
    if todo == {} {
      ops := s.ops;
      assert s.(ops := ops) == s;
    } else {
      var c :| c in todo;
      var next := s;
      if !s.ops[c] {
        next := s.(ops := s.ops[c := true]);
        ReachesNext(s0, s, Finish(c), next);
      }
      var rest := todo - {c};
      ops := LoopCanSettle(s0, next, rest);
      assert todo == rest + {c};
    }
  }

  /** The close submitted by thread t in this step leaves no operation unsettled. */
  ghost predicate SubmitsSettled(r: State, t: CallId) {
    Step(r, SubmitClose(t)).Some? && r.session.backend ==> forall c | c in r.ops :: r.ops[c]
  }

  /** THE DRAIN IS EXACT: a closer with a backend, about to take its snapshot, is sure to find every operation
      settled when it submits the backend's close, on every schedule, if and only if every operation still
      pending is registered; that is, unless some caller has already given up waiting for a pending one. */
  lemma DrainIsExact(s: State, t: CallId, s1: State)
    requires Inv(s) && Step(s, Snapshot(t)) == Some(s1) && s.session.backend
    ensures (forall r | Reaches(s1, r) :: SubmitsSettled(r, t)) <==>
              (forall c | Pending(s.ops, c) :: c in s.registry.futures)
  {
    var snapshot := s.registry.futures;
    StepKeepsInv(s, Snapshot(t), s1);
    if forall c | Pending(s.ops, c) :: c in snapshot {
      DrainIsComplete(s1, t, snapshot);
    } else {
      var c :| Pending(s.ops, c) && c !in snapshot;
      LoopRunsWhileDraining(s1, t, snapshot);
      var r := ForgottenEscapes(s1, t, snapshot, c);
      assert !SubmitsSettled(r, t);
    }
  }

  lemma DrainIsComplete(s: State, t: CallId, snapshot: set<CallId>)
    requires Inv(s) && Covered(s, t, snapshot)
    ensures forall r | Reaches(s, r) :: SubmitsSettled(r, t)
  {
    forall r | Reaches(s, r) ensures SubmitsSettled(r, t) {
      var actions :| Run(s, actions) == Some(r);
      CoveredRun(s, t, snapshot, actions, r);
    }
  }

  /** While a closer with a backend drains a snapshot, the loop runs. */
  lemma LoopRunsWhileDraining(s: State, t: CallId, snapshot: set<CallId>)
    requires Inv(s) && t in s.threads && s.threads[t] == Draining(snapshot) && s.session.backend
    ensures s.session.loop.Running? && snapshot <= s.ops.Keys
  {
    assert CloserOk(s.threads[t], s.registry, s.ops, s.interrupted);
  }

  /** The schedule on which a forgotten operation is missed. */
  lemma ForgottenEscapes(s: State, t: CallId, snapshot: set<CallId>, c: CallId) returns (r: State)
    requires s.session.loop.Running? && snapshot <= s.ops.Keys
    requires t in s.threads && s.threads[t] == Draining(snapshot) && s.session.backend
    requires Pending(s.ops, c) && c !in snapshot
    ensures Reaches(s, r) && Step(r, SubmitClose(t)).Some? && r.session.backend && Pending(r.ops, c)
  {
    ReachesItself(s);
    var ops := LoopCanSettle(s, s, snapshot);
    var drained := s.(ops := ops);
    r := Goto(drained, t, Drained);
    ReachesNext(s, drained, DrainDone(t), r);
  }

  // ---- Interrupted opens ----

  lemma {:induction false} ClosedRunAdmitsNothing(s: State, actions: seq<Action>, s': State)
    requires Inv(s) && s.registry.closed && Run(s, actions) == Some(s')
    ensures AdmitsNothing(s, s')
  {
    if actions != [] {
      var before := actions[..|actions| - 1];
      var middle := Run(s, before).value;
      ClosedRunAdmitsNothing(s, before, middle);
      RunKeepsInv(s, before, middle);
      ClosedStepAdmitsNothing(middle, actions[|actions| - 1], s');
    }
  }

  /** LATE BACKENDS, EXACTLY: once a session is closed, no schedule opens another backend if and only if no abandoned
      open is still running. */
  lemma LateBackendsExactly(s: State)
    requires Inv(s) && s.registry.closed
    ensures (forall r | Reaches(s, r) :: BackendsOpened(r) == BackendsOpened(s)) <==> s.session.opens.abandoned == 0
  {
    if s.session.opens.abandoned == 0 {
      forall r | Reaches(s, r) ensures BackendsOpened(r) == BackendsOpened(s) {
        var actions :| Run(s, actions) == Some(r);
        ClosedRunAdmitsNothing(s, actions, r);
      }
    } else {
      var r := EndAbandoned(s, true).value;
      ReachesItself(s);
      ReachesNext(s, s, AbandonedOpenEnds(true), r);
      assert BackendsOpened(r) == BackendsOpened(s) + 1;
    }
  }

  /** No open is running or can begin, and none was ever abandoned. */
  ghost predicate OpensAreOver(s: State) {
    && (s.session.backend || s.registry.closed || s.session.openFailed)
    && s.session.opens.abandoned == 0 && s.session.opens.orphaned == 0
    && forall t | t in s.threads :: !s.threads[t].OpeningBackend?
  }

  lemma OverStaysOver(s: State, action: Action, s': State)
    requires OpensAreOver(s) && BackendOk(s) && Step(s, action) == Some(s')
    requires forall t | t in s.threads && s.threads[t].Stopping? :: s.registry.closed
    ensures OpensAreOver(s')
  {
    match action {
      case CheckOpen(t) =>
      case BackendOpens(t, ok) =>
      case OpenInterrupted(t) =>
      case AbandonedOpenEnds(ok) =>
      case _ => OtherStepStaysOver(s, action, s');
    }
  }

  lemma OtherStepStaysOver(s: State, action: Action, s': State)
    requires !action.CheckOpen? && !action.BackendOpens? && !action.OpenInterrupted? && !action.AbandonedOpenEnds?
    requires OpensAreOver(s) && Step(s, action) == Some(s')
    requires forall t | t in s.threads && s.threads[t].Stopping? :: s.registry.closed
    ensures OpensAreOver(s')
  {}

  lemma {:induction false} OverRun(s: State, actions: seq<Action>, s': State)
    requires Inv(s) && OpensAreOver(s) && Run(s, actions) == Some(s')
    ensures Inv(s') && OpensAreOver(s')
  {
    if actions != [] {
      var before := actions[..|actions| - 1];
      var middle := Run(s, before).value;
      OverRun(s, before, middle);
      StepKeepsInv(middle, actions[|actions| - 1], s');
      forall t | t in middle.threads && middle.threads[t].Stopping? ensures middle.registry.closed {
        assert CloserOk(middle.threads[t], middle.registry, middle.ops, middle.interrupted);
      }
      OverStaysOver(middle, actions[|actions| - 1], s');
    }
  }

  /** A new thread can open a session that has neither a backend nor a failure. */
  lemma NewOpenSucceeds(s0: State, s: State, v: CallId) returns (r: State)
    requires Reaches(s0, s) && s.openLock.None? && v !in s.threads
    requires !s.session.backend && !s.registry.closed && !s.session.openFailed
    ensures Reaches(s0, r) && BackendsOpened(r) == BackendsOpened(s) + 1 && r.session.backend
  {
    var s1 := s.(threads := s.threads[v := WantsOpen]);
    ReachesNext(s0, s, StartOpen(v), s1);
    var s2 := s1.(threads := s1.threads[v := OpenChecking], openLock := Some(v));
    ReachesNext(s0, s1, LockOpen(v), s2);
    var s3 := s2.(threads := s2.threads[v := OpeningBackend], session := AskForBackend(s2.session));
    ReachesNext(s0, s2, CheckOpen(v), s3);
    r := Step(s3, BackendOpens(v, true)).value;
    ReachesNext(s0, s3, BackendOpens(v, true), r);
  }

  /** An abandoned open and a second one can both succeed. */
  lemma SecondOpenSucceeds(s: State, v: CallId) returns (r: State)
    requires s.openLock.None? && v !in s.threads && s.session.opens.abandoned > 0
    requires !s.session.backend && !s.registry.closed && !s.session.openFailed
    ensures Reaches(s, r) && BackendsOpened(r) == BackendsOpened(s) + 2 && r.session.backend
  {
    ReachesItself(s);
    var orphaned := EndAbandoned(s, true).value;
    ReachesNext(s, s, AbandonedOpenEnds(true), orphaned);
    r := NewOpenSucceeds(s, orphaned, v);
  }

  /** INTERRUPTED OPENS, EXACTLY: however the first wait for a backend ends, every schedule from there opens at most
      one backend if and only if the wait was not broken off. After an interruption some schedule opens two, of which
      the session has one. */
  lemma InterruptedOpenExactly(s: State, t: CallId, end: Action, u: State, v: CallId)
    requires Inv(s) && t in s.threads && s.threads[t].OpeningBackend? && v !in s.threads
    requires s.session.opens.interrupted == 0
    requires end in {BackendOpens(t, true), BackendOpens(t, false), OpenInterrupted(t)} && Step(s, end) == Some(u)
    ensures (forall r | Reaches(u, r) :: BackendsOpened(r) <= 1) <==> !end.OpenInterrupted?
    ensures end.OpenInterrupted? ==> exists r :: Reaches(u, r) && r.session.backend && BackendsOpened(r) == 2
  {
    StepKeepsInv(s, end, u);
    assert s.openLock == Some(t);
    if end.OpenInterrupted? {
      var r := SecondOpenSucceeds(u, v);
    } else {
      forall w | w in u.threads ensures !u.threads[w].OpeningBackend? {
        assert u.threads[w].HoldsOpenLock() ==> u.openLock == Some(w);
      }
      forall r | Reaches(u, r) ensures BackendsOpened(r) <= 1 {
        var actions :| Run(u, actions) == Some(r);
        OverRun(u, actions, r);
      }
    }
  }
}
