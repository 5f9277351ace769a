/** The lifecycle of a SQLite backend and of the record cache that owns one
    (src/dr_store/storage_backends/sqlite.py and src/dr_store/record_cache/sqlite.py).

    One event loop runs any number of tasks; a step is what one task does between two awaits, a cancellation,
    or the end of a job in the worker thread. Operations come through the cache or go to the backend directly.
    The future of a submitted job and the two internal close tasks are themselves never cancelled. */
module SqliteLifecycle {
  import opened Wrappers

  type TaskId = nat

  datatype Lifecycle = Open | Closing | Closed | Failed

  // ---- The cache's admission ----

  /** The cache's fields; woken is the close task's wait for the drained event having been resolved. */
  datatype CloserPc = NoCloser | AwaitingDrained(woken: bool) | AwaitingBackend | CloserDone

  datatype Cache = Cache(state: Lifecycle, tasks: set<TaskId>, drained: bool, closer: CloserPc)

  function Admit(c: Cache, t: TaskId): (Cache, bool) {
    if c.state != Open then (c, false) else (c.(tasks := c.tasks + {t}, drained := false), true)
  }

  /** Setting the event resolves a wait that is under way. */
  function Leave(c: Cache, t: TaskId): Cache {
    var tasks := c.tasks - {t};
    if tasks != {} then c.(tasks := tasks)
    else
      var closer := if c.closer.AwaitingDrained? then AwaitingDrained(true) else c.closer;
      c.(tasks := tasks, drained := true, closer := closer)
  }

  /** The state change of aclose, once the caller may close: the close task is created at most once. */
  function BeginCacheClose(c: Cache): Cache {
    if c.closer.NoCloser? && c.state == Open then c.(state := Closing, closer := AwaitingDrained(c.drained)) else c
  }

  /** What the fields say about each other: drained means no tasks, the close task exists from the moment the
      cache stops being open, its wait is resolved exactly once the tasks are gone, and it goes on only then. */
  ghost predicate CacheFieldsOk(c: Cache) {
    && (c.drained <==> c.tasks == {})
    && (c.closer.NoCloser? <==> c.state == Open)
    && (c.closer.AwaitingDrained? ==> (c.closer.woken <==> c.tasks == {}))
    && (c.closer.AwaitingDrained? || c.closer.AwaitingBackend? ==> c.state == Closing)
    && (c.closer.CloserDone? ==> c.state == Closed || c.state == Failed)
    && (c.closer.AwaitingBackend? || c.closer.CloserDone? ==> c.tasks == {})
  }

  /** The cache object's side of these changes. */
  class CacheAdmission {
    var state: Lifecycle
    var tasks: set<TaskId>
    var drained: bool
    var closer: CloserPc

    constructor ()
      ensures Valid() && Fields() == Cache(Open, {}, true, NoCloser)
    {
      state, tasks, drained, closer := Open, {}, true, NoCloser;
    }

    ghost predicate Valid()
      reads this
    {
      CacheFieldsOk(Fields())
    }

    function Fields(): Cache
      reads this
    {
      Cache(state, tasks, drained, closer)
    }

    /** An operation is admitted exactly while the cache is open, so a woken close task stays alone. */
    method AdmitOperation(t: TaskId) returns (ok: bool)
      requires Valid()
      modifies this
      ensures Valid() && state == old(state) && closer == old(closer)
      ensures ok <==> old(state) == Open
      ensures forall u :: u in tasks <==> u in old(tasks) || (ok && u == t)
      ensures ok ==> !drained
      ensures Fields() == Admit(old(Fields()), t).0 && ok == Admit(old(Fields()), t).1
    {
      if state != Open {
        return false;
      }
      tasks := tasks + {t};
      drained := false;
      return true;
    }

    /** The last operation to leave, and no other, sets the event and wakes a close task that waits for it. */
    method LeaveOperation(t: TaskId)
      requires Valid() && t in tasks
      modifies this
      ensures Valid() && state == old(state)
      ensures forall u :: u in tasks <==> u in old(tasks) && u != t
      ensures drained <==> old(tasks) == {t}
      ensures closer == if drained && old(closer).AwaitingDrained? then AwaitingDrained(true) else old(closer)
      ensures Fields() == Leave(old(Fields()), t)
    {
      tasks := tasks - {t};
      if tasks == {} {
        drained := true;
        if closer.AwaitingDrained? {
          closer := AwaitingDrained(true);
        }
      }
    }

    /** After a close there is a close task, the same one ever after, and no operation was disturbed. */
    method Close()
      requires Valid()
      modifies this
      ensures Valid() && state != Open && !closer.NoCloser? && tasks == old(tasks) && drained == old(drained)
      ensures old(state) != Open ==> Fields() == old(Fields())
      ensures old(state) == Open ==> closer == AwaitingDrained(tasks == {})
      ensures Fields() == BeginCacheClose(old(Fields()))
    {
      if closer.NoCloser? && state == Open {
        state := Closing;
        closer := AwaitingDrained(drained);
      }
    }
  }

  // ---- The backend ----

  datatype Job = Operation(t: TaskId) | CloseConnection

  datatype Holder = ByOperation(t: TaskId) | ByCloser

  datatype BackendCloserPc = NoBackendCloser | WantsAdmission | AwaitingClose(finished: bool) | BackendCloserDone

  /** The worker runs the submitted jobs in order, one at a time; the first settled ones have ended. */
  datatype Backend = Backend(
    state: Lifecycle, admission: Option<Holder>, submitted: seq<Job>, settled: nat, closer: BackendCloserPc,
    closedDirectly: bool)

  function BeginBackendClose(b: Backend, directly: bool): Backend {
    if b.closer.NoBackendCloser? then
      b.(state := Closing, closer := WantsAdmission, closedDirectly := directly)
    else b
  }

  function Submit(b: Backend, holder: Holder, job: Job): Backend {
    b.(admission := Some(holder), submitted := b.submitted + [job])
  }

  /** The closing job has ended: the lock is released and the state is final. */
  function EndBackendClose(b: Backend, ok: bool): Backend {
    b.(admission := None, closer := BackendCloserDone, state := if ok then Closed else Failed)
  }

  // ---- The machine ----

  datatype OpPc =
    | Between
    | AwaitingAdmission
    | AwaitingWorker(cancelled: bool, finished: bool)
    | Leaving
    | Returned

  datatype Op = Op(viaCache: bool, pc: OpPc)

  /** A task inside the cache's aclose. */
  datatype CloseCaller = AwaitingCloser(cancelled: bool) | CallerReturned(raisedCancellation: bool)

  datatype State = State(cache: Cache, backend: Backend, ops: map<TaskId, Op>, callers: map<TaskId, CloseCaller>)

  datatype Action =
    | StartCacheOp(t: TaskId)
    | StartDirectOp(t: TaskId)
    | CallBackend(t: TaskId)
    | Granted(t: TaskId)
    | Cancel(t: TaskId)
    | Resume(t: TaskId, raises: bool)
    | Return(t: TaskId)
    | CloseCache(t: TaskId)
    | CallerResumes(t: TaskId)
    | CloseBackendDirectly
    | JobEnds
    | CacheCloserContinues
    | BackendCloserGranted
    | BackendCloserEnds(ok: bool)
    | CacheCloserEnds

  function Initial(): State {
    State(Cache(Open, {}, true, NoCloser), Backend(Open, None, [], 0, NoBackendCloser, false), map[], map[])
  }

  function SetPc(s: State, t: TaskId, pc: OpPc): State
    requires t in s.ops
  {
    s.(ops := s.ops[t := s.ops[t].(pc := pc)])
  }

  function StartOp(s: State, t: TaskId, action: Action): Option<State> {
    if t in s.ops || t in s.callers then None
    else
      match action
      case StartCacheOp(_) =>
        var (c, ok) := Admit(s.cache, t);
        Some(s.(cache := c, ops := s.ops[t := Op(true, if ok then Between else Returned)]))
      case StartDirectOp(_) => Some(s.(ops := s.ops[t := Op(false, Between)]))
      case _ => None
  }

  /** _check_operation, then _run: the state is looked at before the lock is asked for and again under it. */
  function RunOp(s: State, t: TaskId, action: Action): Option<State> {
    if t !in s.ops then None
    else
      match action
      case CallBackend(_) =>
        if !s.ops[t].pc.Between? then None
        else Some(SetPc(s, t, if s.backend.state == Open then AwaitingAdmission else Leaving))
      case Granted(_) =>
        if !s.ops[t].pc.AwaitingAdmission? || s.backend.admission.Some? then None
        else if s.backend.state != Open then Some(SetPc(s, t, Leaving))
        else
          var submitted := s.(backend := Submit(s.backend, ByOperation(t), Operation(t)));
          Some(SetPc(submitted, t, AwaitingWorker(false, false)))
      case Resume(_, raises) =>
        if !s.ops[t].pc.AwaitingWorker? || !s.ops[t].pc.finished then None
        else
          Some(SetPc(s.(backend := s.backend.(admission := None)), t,
                     if raises || s.ops[t].pc.cancelled then Leaving else Between))
      case Return(_) =>
        if !s.ops[t].pc.Between? && !s.ops[t].pc.Leaving? then None
        else Some(SetPc(s.(cache := if s.ops[t].viaCache then Leave(s.cache, t) else s.cache), t, Returned))
      case _ => None
  }

  /** A cancellation ends a wait for the lock, but a wait for a submitted job or a close only remembers it. */
  function CancelTask(s: State, t: TaskId): Option<State> {
    if t in s.ops then
      match s.ops[t].pc
      case Between => Some(SetPc(s, t, Leaving))
      case AwaitingAdmission => Some(SetPc(s, t, Leaving))
      case AwaitingWorker(_, finished) => Some(SetPc(s, t, AwaitingWorker(true, finished)))
      case _ => None
    else if t in s.callers && s.callers[t].AwaitingCloser? then
      Some(s.(callers := s.callers[t := AwaitingCloser(true)]))
    else None
  }

  /** aclose: returns at once when closed, refuses a task with an admitted operation, and otherwise waits for
      the close task. */
  function CallClose(s: State, t: TaskId, action: Action): Option<State> {
    match action
    case CloseCache(_) =>
      if t in s.callers then None
      else if s.cache.state == Closed then Some(s.(callers := s.callers[t := CallerReturned(false)]))
      else if t in s.cache.tasks then Some(s)
      else if t in s.ops then None
      else Some(s.(cache := BeginCacheClose(s.cache), callers := s.callers[t := AwaitingCloser(false)]))
    case CallerResumes(_) =>
      if t in s.callers && s.callers[t].AwaitingCloser? && s.cache.closer.CloserDone? then
        Some(s.(callers := s.callers[t := CallerReturned(s.callers[t].cancelled)]))
      else None
    case _ => None
  }

  /** The worker's running job ends; its waiter will see it. */
  function EndJob(s: State): Option<State> {
    if s.backend.settled >= |s.backend.submitted| then None
    else
      var b := s.backend.(settled := s.backend.settled + 1);
      match s.backend.submitted[s.backend.settled]
      case CloseConnection => Some(s.(backend := b.(closer := AwaitingClose(true))))
      case Operation(t) =>
        if t in s.ops && s.ops[t].pc.AwaitingWorker? then
          Some(SetPc(s.(backend := b), t, AwaitingWorker(s.ops[t].pc.cancelled, true)))
        else Some(s.(backend := b))
  }

  /** The two close tasks. */
  function RunClosers(s: State, action: Action): Option<State> {
    match action
    case CloseBackendDirectly => Some(s.(backend := BeginBackendClose(s.backend, true)))
    case CacheCloserContinues =>
      if !s.cache.closer.AwaitingDrained? || !s.cache.closer.woken then None
      else Some(s.(cache := s.cache.(closer := AwaitingBackend), backend := BeginBackendClose(s.backend, false)))
    case BackendCloserGranted =>
      if !s.backend.closer.WantsAdmission? || s.backend.admission.Some? then None
      else Some(s.(backend := Submit(s.backend, ByCloser, CloseConnection).(closer := AwaitingClose(false))))
    case BackendCloserEnds(ok) =>
      if !s.backend.closer.AwaitingClose? || !s.backend.closer.finished then None
      else Some(s.(backend := EndBackendClose(s.backend, ok)))
    case CacheCloserEnds =>
      if !s.cache.closer.AwaitingBackend? || !s.backend.closer.BackendCloserDone? then None
      else
        Some(s.(cache := s.cache.(closer := CloserDone, state := if s.backend.state == Closed then Closed else Failed)))
    case _ => None
  }

  function Step(s: State, action: Action): Option<State> {
    match action
    case StartCacheOp(t) => StartOp(s, t, action)
    case StartDirectOp(t) => StartOp(s, t, action)
    case CallBackend(t) => RunOp(s, t, action)
    case Granted(t) => RunOp(s, t, action)
    case Resume(t, _) => RunOp(s, t, action)
    case Return(t) => RunOp(s, t, action)
    case Cancel(t) => CancelTask(s, t)
    case CloseCache(t) => CallClose(s, t, action)
    case CallerResumes(t) => CallClose(s, t, action)
    case JobEnds => EndJob(s)
    case _ => RunClosers(s, action)
  }

  function Run(s: State, actions: seq<Action>): Option<State> {
    if actions == [] then Some(s)
    else
      match Run(s, actions[..|actions| - 1])
      case None => None
      case Some(t) => Step(t, actions[|actions| - 1])
  }

  // ---- The invariant ----

  /** The cache's tasks are exactly its operations that have not returned. */
  ghost predicate CacheOk(c: Cache, ops: map<TaskId, Op>) {
    && (forall t :: t in c.tasks <==> t in ops && ops[t].viaCache && !ops[t].pc.Returned?)
    && CacheFieldsOk(c)
  }

  /** Nobody but the holder of the admission lock has a job in the worker, and it has at most one there. */
  ghost predicate BackendOk(b: Backend) {
    && b.settled <= |b.submitted| <= b.settled + 1
    && (b.settled < |b.submitted| ==>
          b.admission == Some(if b.submitted[b.settled].CloseConnection? then ByCloser
              else ByOperation(b.submitted[b.settled].t)))
    && (b.admission == Some(ByCloser) <==> b.closer.AwaitingClose?)
    && (b.closer.AwaitingClose? ==> (b.closer.finished <==> b.settled == |b.submitted|))
    && (b.closer.NoBackendCloser? <==> b.state == Open)
    && (b.closer.WantsAdmission? || b.closer.AwaitingClose? ==> b.state == Closing)
    && (b.closer.BackendCloserDone? ==> (b.state == Closed || b.state == Failed) && b.admission.None?)
    && (forall i | 0 <= i < |b.submitted| && b.submitted[i].CloseConnection? :: i == |b.submitted| - 1)
    && (b.closer.AwaitingClose? || b.closer.BackendCloserDone? <==>
          b.submitted != [] && b.submitted[|b.submitted| - 1].CloseConnection?)
  }

  ghost predicate OpsOk(ops: map<TaskId, Op>, b: Backend) {
    && (forall t | t in ops :: ops[t].pc.AwaitingWorker? <==> b.admission == Some(ByOperation(t)))
    && (forall t | t in ops && ops[t].pc.AwaitingWorker? :: ops[t].pc.finished <==> b.settled == |b.submitted|)
    && (b.admission.Some? && b.admission.value.ByOperation? ==> b.admission.value.t in ops)
  }

  ghost predicate ClosingOk(c: Cache, b: Backend, callers: map<TaskId, CloseCaller>) {
    && (c.closer.AwaitingBackend? ==> !b.closer.NoBackendCloser?)
    && (c.closer.CloserDone? ==> b.closer.BackendCloserDone? && b.state == c.state)
    && (!b.closer.NoBackendCloser? && !b.closedDirectly ==> c.closer.AwaitingBackend? || c.closer.CloserDone?)
    && (forall t | t in callers && callers[t].CallerReturned? :: c.closer.CloserDone?)
  }

  ghost predicate Inv(s: State) {
    CacheOk(s.cache, s.ops) && BackendOk(s.backend) && OpsOk(s.ops, s.backend)
        && ClosingOk(s.cache, s.backend, s.callers)
  }

  lemma StartOpKeepsInv(s: State, t: TaskId, action: Action, s': State)
    requires Inv(s) && StartOp(s, t, action) == Some(s')
    ensures Inv(s')
  {}

  lemma RunOpKeepsInv(s: State, t: TaskId, action: Action, s': State)
    requires Inv(s) && RunOp(s, t, action) == Some(s')
    ensures Inv(s')
  {}

  lemma CancelKeepsInv(s: State, t: TaskId, s': State)
    requires Inv(s) && CancelTask(s, t) == Some(s')
    ensures Inv(s')
  {}

  lemma CallCloseKeepsInv(s: State, t: TaskId, action: Action, s': State)
    requires Inv(s) && CallClose(s, t, action) == Some(s')
    ensures Inv(s')
  {}

  lemma EndJobKeepsInv(s: State, s': State)
    requires Inv(s) && EndJob(s) == Some(s')
    ensures Inv(s')
  {}

  lemma RunClosersKeepsInv(s: State, action: Action, s': State)
    requires Inv(s) && RunClosers(s, action) == Some(s')
    ensures Inv(s')
  {}

  lemma StepKeepsInv(s: State, action: Action, s': State)
    requires Inv(s) && Step(s, action) == Some(s')
    ensures Inv(s')
  {
    match action {
      case StartCacheOp(t) => StartOpKeepsInv(s, t, action, s');
      case StartDirectOp(t) => StartOpKeepsInv(s, t, action, s');
      case CallBackend(t) => RunOpKeepsInv(s, t, action, s');
      case Granted(t) => RunOpKeepsInv(s, t, action, s');
      case Resume(t, _) => RunOpKeepsInv(s, t, action, s');
      case Return(t) => RunOpKeepsInv(s, t, action, s');
      case Cancel(t) => CancelKeepsInv(s, t, s');
      case CloseCache(t) => CallCloseKeepsInv(s, t, action, s');
      case CallerResumes(t) => CallCloseKeepsInv(s, t, action, s');
      case JobEnds => EndJobKeepsInv(s, s');
      case _ => RunClosersKeepsInv(s, action, s');
    }
  }

  lemma {:induction false} RunKeepsInv(s: State, actions: seq<Action>, s': State)
    requires Inv(s) && Run(s, actions) == Some(s')
    ensures Inv(s')
  {
    if actions != [] {
      var before := actions[..|actions| - 1];
      RunKeepsInv(s, before, Run(s, before).value);
      StepKeepsInv(Run(s, before).value, actions[|actions| - 1], s');
    }
  }

  // ---- Main results ----

  predicate InFlight(b: Backend, job: Job) {
    b.settled <= |b.submitted| && job in b.submitted[b.settled..]
  }

  /** ONE IN FLIGHT: whatever is cancelled and when, the worker never has more than one unfinished job, and an
      operation's task never ends before its job does. */
  lemma OneInFlight(actions: seq<Action>, s: State)
    requires Run(Initial(), actions) == Some(s)
    ensures |s.backend.submitted| <= s.backend.settled + 1
    ensures forall t | InFlight(s.backend, Operation(t)) ::
              t in s.ops && s.ops[t].pc.AwaitingWorker? && !s.ops[t].pc.finished
    ensures forall t | t in s.ops && s.ops[t].pc.AwaitingWorker? && !s.ops[t].pc.finished ::
              InFlight(s.backend, Operation(t))
  {
    RunKeepsInv(Initial(), actions, s);
    var b := s.backend;
    if b.settled < |b.submitted| {
      assert b.submitted[b.settled..] == [b.submitted[b.settled]];
    } else {
      assert b.submitted[b.settled..] == [];
    }
  }

  /** DRAINED: the drained event is set exactly when no admitted cache operation is still running. */
  lemma DrainedMeansIdle(actions: seq<Action>, s: State)
    requires Run(Initial(), actions) == Some(s)
    ensures s.cache.drained <==> forall t | t in s.ops && s.ops[t].viaCache :: s.ops[t].pc.Returned?
  {
    RunKeepsInv(Initial(), actions, s);
    if t :| t in s.cache.tasks {
      assert !s.ops[t].pc.Returned?;
    }
  }

  /** CLOSED LAST: the connection's close is submitted once at most and nothing is submitted after it; by then
      every other job has ended; and unless the backend was closed behind the cache's back, no cache operation
      is running or will ever run again. */
  lemma ClosedLast(actions: seq<Action>, s: State, i: nat)
    requires Run(Initial(), actions) == Some(s)
    requires i < |s.backend.submitted| && s.backend.submitted[i].CloseConnection?
    ensures i == |s.backend.submitted| - 1 && i <= s.backend.settled
    ensures forall j | 0 <= j < i :: s.backend.submitted[j].Operation?
    ensures s.backend.state != Open && forall t | t in s.ops :: !s.ops[t].pc.AwaitingWorker?
    ensures !s.backend.closedDirectly ==>
              s.cache.state != Open && forall t | t in s.ops && s.ops[t].viaCache :: s.ops[t].pc.Returned?
  {
    RunKeepsInv(Initial(), actions, s);
    if !s.backend.closedDirectly {
      forall t | t in s.ops && s.ops[t].viaCache ensures s.ops[t].pc.Returned? {
        assert t !in s.cache.tasks;
      }
    }
  }

  lemma ClosingStepAdmitsNothing(s: State, action: Action, s': State)
    requires Inv(s) && Step(s, action) == Some(s')
    ensures s.cache.state != Open ==> s'.cache.state != Open && s'.cache.tasks <= s.cache.tasks
    ensures s.backend.state != Open ==> s'.backend.state != Open
    ensures s.backend.state != Open ==>
              s'.backend.submitted == s.backend.submitted
                  || s'.backend.submitted == s.backend.submitted + [CloseConnection]
  {}

  /** NOTHING AFTER CLOSING: once the cache has begun to close it admits no operation again, and once the
      backend has, the only job it still submits is the closing of the connection. */
  lemma {:induction false} NothingAfterClosing(before: seq<Action>, s: State, after: seq<Action>, s': State)
    requires Run(Initial(), before) == Some(s) && Run(s, after) == Some(s')
    ensures s.cache.state != Open ==> s'.cache.state != Open && s'.cache.tasks <= s.cache.tasks
    ensures s.backend.state != Open ==>
              s'.backend.state != Open && s.backend.submitted <= s'.backend.submitted
              && forall job | job in s'.backend.submitted[|s.backend.submitted|..] :: job.CloseConnection?
    decreases |after|
  {
    if after != [] {
      var most := after[..|after| - 1];
      var middle := Run(s, most).value;
      NothingAfterClosing(before, s, most, middle);
      RunKeepsInv(Initial(), before, s);
      RunKeepsInv(s, most, middle);
      ClosingStepAdmitsNothing(middle, after[|after| - 1], s');
    }
  }

  /** CLOSE RETURNS WHEN CLOSED: a call of the cache's aclose returns, even when cancelled meanwhile, only after
      every admitted operation has returned, every job has ended and the close has a final outcome, which is the
      backend's. */
  lemma CloseReturnsWhenClosed(actions: seq<Action>, s: State, t: TaskId)
    requires Run(Initial(), actions) == Some(s)
    requires t in s.callers && s.callers[t].CallerReturned?
    ensures s.cache.tasks == {} && s.backend.settled == |s.backend.submitted|
    ensures s.cache.state == s.backend.state && (s.cache.state == Closed || s.cache.state == Failed)
    ensures s.backend.submitted != [] && s.backend.submitted[|s.backend.submitted| - 1].CloseConnection?
  {
    RunKeepsInv(Initial(), actions, s);
  }

  /** A wait that was woken is never overtaken by a new operation: when the close task goes on to the backend,
      the cache is still drained. */
  lemma WokenStaysDrained(actions: seq<Action>, s: State, s': State)
    requires Run(Initial(), actions) == Some(s) && Step(s, CacheCloserContinues) == Some(s')
    ensures s.cache.drained && s'.cache.tasks == {} && s'.backend.state != Open
  {
    RunKeepsInv(Initial(), actions, s);
  }
}
