/** The maintenance handle and its background renewer (LeaseMaintenance in src/dr_store/lease/authority.py).

    The handle runs on one thread and each renewer on its own; they meet in the fields below under one lock,
    in the stop event, and in Thread.join. A step is one locked region, one event operation, or the start or
    the return of an authority call. Authority replies are arbitrary. */
module LeaseMaintenance {
  import opened Wrappers
  import opened LeaseModels

  /** An exception: a definitive one is StaleLeaseError or TerminalConflictError. */
  datatype Fault = Definitive(tag: int) | Passing(tag: int)

  /** The handle's fields. */
  datatype Shared = Shared(
    lease: Lease, loss: Option<Fault>, stop: bool, entered: bool, exited: bool, terminalizing: bool,
    committed: bool)

  datatype Preparation = Refused | LossFound(loss: Fault) | StopRequested

  /** The locked region that begins a publication. */
  function Prepare(f: Shared): (Shared, Preparation) {
    if f.committed || f.terminalizing then (f, Refused)
    else if f.loss.Some? then (f, LossFound(f.loss.value))
    else if !f.entered || f.exited || f.stop then (f, Refused)
    else (f.(terminalizing := true, stop := true), StopRequested)
  }

  /** The locked region that gives a publication up; the flag says whether the renewer is to be restarted. */
  function Abort(f: Shared, error: Fault): (Shared, bool) {
    if f.committed then (f, false)
    else
      var loss := if error.Definitive? && f.loss.None? then Some(error) else f.loss;
      var g := f.(terminalizing := false, loss := loss);
      if !f.terminalizing || loss.Some? || f.exited then (g, false) else (g.(stop := false), true)
  }

  function Commit(f: Shared): Shared {
    f.(committed := true, terminalizing := false)
  }

  /** What a publication comes to: not started, failed with or without a new renewer, or committed with the
      lease that the authority was given. */
  datatype Publication = NotActive | GivenUp(error: Fault, restarts: bool) | Committed(lease: Lease)

  /** The handle as an object. Its own thread runs Publish; the renewer's effects on the fields up to its end are
      given, since they happen while Publish joins it. */
  class Handle {
    var lease: Lease
    var loss: Option<Fault>
    var stop: bool
    var entered: bool
    var exited: bool
    var terminalizing: bool
    var terminalizationStarted: bool
    var terminalized: bool

    constructor (lease: Lease)
      ensures Valid() && Fields() == Shared(lease, None, false, false, false, false, false)
    {
      this.lease, loss, stop, entered, exited := lease, None, false, false, false;
      terminalizing, terminalizationStarted, terminalized := false, false, false;
    }

    /** A committed handle is not publishing and has lost nothing; only an entered, open one publishes. */
    ghost predicate Valid()
      reads this
    {
      && terminalized == terminalizationStarted
      && (terminalized ==> entered && !terminalizing && loss.None?)
      && (terminalizing ==> entered && !exited && stop)
    }

    function Fields(): Shared
      reads this
    {
      Shared(lease, loss, stop, entered, exited, terminalizing, terminalizationStarted)
    }

    /** May a publication begin? */
    predicate Publishable()
      reads this
    {
      !terminalized && !terminalizing && loss.None? && entered && !exited && !stop
    }

    /** Claims the publication and stops the renewer exactly when the handle is publishable; otherwise nothing
        changes, and an uncommitted, unclaimed handle reports its loss if it has one. */
    method PrepareForTerminalization() returns (outcome: Preparation)
      requires Valid()
      modifies this
      ensures Valid()
      ensures outcome == StopRequested <==> old(Publishable())
      ensures outcome == StopRequested ==> terminalizing && stop
      ensures outcome != StopRequested ==> Fields() == old(Fields())
      ensures !old(terminalized) && !old(terminalizing) && old(loss).Some? ==> outcome == LossFound(old(loss).value)
      ensures Fields() == Prepare(old(Fields())).0 && outcome == Prepare(old(Fields())).1
    {
      if terminalizationStarted {
        return Refused;
      }
      if terminalizing {
        return Refused;
      }
      var found := loss;
      if found.None? && (!entered || exited || stop) {
        return Refused;
      }
      if found.None? {
        terminalizing := true;
        stop := true;
        return StopRequested;
      }
      return LossFound(found.value);
    }

    /** A recorded loss is never replaced, and only a definitive error becomes one; the renewer is asked for again
        exactly when this publication was claimed and nothing ended the lease. A commit is never undone. */
    method AbortTerminalization(error: Fault) returns (restart: bool)
      requires Valid()
      modifies this
      ensures Valid() && terminalized == old(terminalized) && (terminalized ==> Fields() == old(Fields()) && !restart)
      ensures old(loss).Some? ==> loss == old(loss)
      ensures !terminalized && old(loss).None? ==> loss == if error.Definitive? then Some(error) else None
      ensures !terminalizing && (restart <==> old(terminalizing) && loss.None?)
      ensures stop == (old(stop) && !restart)
      ensures Fields() == Abort(old(Fields()), error).0 && restart == Abort(old(Fields()), error).1
    {
      if terminalizationStarted {
        return false;
      }
      var wasTerminalizing := terminalizing;
      terminalizing := false;
      if error.Definitive? && loss.None? {
        loss := Some(error);
      }
      if !wasTerminalizing || loss.Some? || exited {
        return false;
      }
      stop := false;
      return true;
    }

    /** A claimed publication without a loss becomes final: no later one can begin. */
    method CommitTerminalization()
      requires Valid() && terminalizing && loss.None?
      modifies this
      ensures Valid() && terminalized && !Publishable() && lease == old(lease) && loss.None?
      ensures Fields() == Commit(old(Fields()))
    {
      terminalizationStarted := true;
      terminalized := true;
      terminalizing := false;
    }

    /** succeed and fail: a terminal is committed exactly when the handle was publishable, the join completed
        without a loss and the authority accepted; it was then given the lease the renewer stored last. A failure
        leaves the handle uncommitted and, unless the lease is lost, maintained by a new renewer. */
    method Publish(joinBroken: Option<Fault>, stored: Option<Lease>, lost: Option<Fault>, refused: Option<Fault>)
      returns (result: Publication)
      requires Valid() && (joinBroken.Some? ==> joinBroken.value.Passing?)
      modifies this
      ensures Valid()
      ensures result.Committed? <==> old(Publishable()) && joinBroken.None? && lost.None? && refused.None?
      ensures result.Committed? ==>
                terminalized && lease == result.lease == if stored.Some? then stored.value else old(lease)
      ensures !result.Committed? ==> terminalized == old(terminalized)
      ensures result.NotActive? ==> Fields() == old(Fields())
      ensures result.GivenUp? ==> !terminalized && !terminalizing && (result.restarts ==> old(Publishable()) && !stop)
      ensures result.GivenUp? && old(Publishable()) ==> (result.restarts <==> loss.None?)
      ensures old(loss).Some? ==> loss == old(loss) && !result.Committed?
    {
      var preparation := PrepareForTerminalization();
      match preparation {
        case Refused => return NotActive;
        case LossFound(found) =>
          var restarts := AbortTerminalization(found);
          return GivenUp(found, restarts);
        case StopRequested =>
      }
      if stored.Some? {
        lease := stored.value;
      }
      loss := lost;
      if joinBroken.Some? {
        var restarts := AbortTerminalization(joinBroken.value);
        return GivenUp(joinBroken.value, restarts);
      }
      if loss.Some? {
        var found := loss.value;
        var restarts := AbortTerminalization(found);
        return GivenUp(found, restarts);
      }
      var current := lease;
      if refused.Some? {
        var restarts := AbortTerminalization(refused.value);
        return GivenUp(refused.value, restarts);
      }
      CommitTerminalization();
      return Committed(current);
    }
  }

  // ---- The two-thread machine ----

  /** Where the handle's thread is. */
  datatype HandlePc =
    | Idle
    | Entering
    | Joining
    | Checking
    | Reading
    | Calling(lease: Lease)
    | Committing
    | Aborting(error: Fault)
    | Restarting(error: Fault)
    | ExitJoining(clean: bool)
    | ExitChecking(clean: bool, terminalized: bool)

  /** Where a renewer thread is. */
  datatype RenewerPc =
    | Ready
    | Waiting
    | Woken
    | Renewing(current: Lease)
    | Storing(renewed: Lease)
    | Losing(error: Fault)
    | Stopping
    | Dead

  predicate Alive(pc: RenewerPc) {
    !pc.Ready? && !pc.Dead?
  }

  /** renewers[k] is the k-th renewer thread; the handle's _thread is the last. The last three fields
      only record the last lease the authority granted, how often a publication committed, and what was raised. */
  datatype State = State(
    fields: Shared, handle: HandlePc, renewers: seq<RenewerPc>, cleanExit: bool,
    granted: Lease, commits: nat, raised: seq<Fault>)
  {
    function Current(): RenewerPc
      requires |renewers| > 0
    {
      renewers[|renewers| - 1]
    }
  }

  function Initial(lease: Lease): State {
    State(Shared(lease, None, false, false, false, false, false), Idle, [Ready], false, lease, 0, [])
  }

  datatype Action =
    | Enter | Start
    | Publish | Join | JoinInterrupted(tag: int) | Check | Read
    | AuthorityReturns | AuthorityRaises(error: Fault)
    | CommitDone | AbortDone | Restart
    | Exit(clean: bool) | ExitJoin | ExitDone
    | Wake(k: nat) | NoticeStop(k: nat) | Fetch(k: nat) | RenewReturns(k: nat, lease: Lease)
    | RenewRaises(k: nat, error: Fault) | Store(k: nat) | Lose(k: nat) | RequestStop(k: nat)

  function HandleStep(s: State, action: Action): Option<State>
    requires |s.renewers| > 0
  {
    var f := s.fields;
    match (action, s.handle)
    case (Enter, Idle) => if f.entered then None else Some(s.(fields := f.(entered := true), handle := Entering))
    case (Start, Entering) => Some(s.(renewers := s.renewers[|s.renewers| - 1 := Waiting], handle := Idle))
    case (Publish, Idle) =>
      var (g, preparation) := Prepare(f);
      (match preparation
       case Refused => Some(s)
       case LossFound(loss) => Some(s.(handle := Aborting(loss)))
       case StopRequested => Some(s.(fields := g, handle := Joining)))
    case (Join, Joining) => if s.Current().Dead? then Some(s.(handle := Checking)) else None
    case (JoinInterrupted(tag), Joining) => Some(s.(handle := Aborting(Passing(tag))))
    case (Check, Checking) => Some(s.(handle := if f.loss.Some? then Aborting(f.loss.value) else Reading))
    case (Read, Reading) => Some(s.(handle := Calling(f.lease)))
    case (AuthorityReturns, Calling(_)) => Some(s.(handle := Committing))
    case (AuthorityRaises(error), Calling(_)) => Some(s.(handle := Aborting(error)))
    case (CommitDone, Committing) => Some(s.(fields := Commit(f), handle := Idle, commits := s.commits + 1))
    case (AbortDone, Aborting(error)) =>
      var (g, restart) := Abort(f, error);
      if restart then Some(s.(fields := g, handle := Restarting(error)))
      else Some(s.(fields := g, handle := Idle, raised := s.raised + [error]))
    case (Restart, Restarting(error)) =>
      Some(s.(renewers := s.renewers + [Waiting], handle := Idle, raised := s.raised + [error]))
    case (Exit(clean), Idle) =>
      if !f.entered then None else Some(s.(fields := f.(exited := true, stop := true), handle := ExitJoining(clean)))
    case (ExitJoin, ExitJoining(clean)) =>
      if s.Current().Dead? then Some(s.(handle := ExitChecking(clean, f.committed))) else None
    case (ExitDone, ExitChecking(clean, terminalized)) =>
      if clean && f.loss.None? && terminalized then Some(s.(handle := Idle, cleanExit := true))
      else Some(s.(handle := Idle))
    case _ => None
  }

  function RenewerStep(s: State, k: nat, action: Action): Option<State>
    requires k < |s.renewers|
  {
    var f := s.fields;
    match (action, s.renewers[k])
    case (Wake(_), Waiting) => Some(s.(renewers := s.renewers[k := Woken]))
    case (NoticeStop(_), Waiting) => if f.stop then Some(s.(renewers := s.renewers[k := Dead])) else None
    case (Fetch(_), Woken) => Some(s.(renewers := s.renewers[k := Renewing(f.lease)]))
    case (RenewReturns(_, lease), Renewing(_)) =>
      Some(s.(renewers := s.renewers[k := Storing(lease)], granted := lease))
    case (RenewRaises(_, error), Renewing(_)) => Some(s.(renewers := s.renewers[k := Losing(error)]))
    case (Store(_), Storing(lease)) => Some(s.(fields := f.(lease := lease), renewers := s.renewers[k := Waiting]))
    case (Lose(_), Losing(error)) => Some(s.(fields := f.(loss := Some(error)), renewers := s.renewers[k := Stopping]))
    case (RequestStop(_), Stopping) => Some(s.(fields := f.(stop := true), renewers := s.renewers[k := Dead]))
    case _ => None
  }

  predicate OfRenewer(action: Action) {
    action.Wake? || action.NoticeStop? || action.Fetch? || action.RenewReturns? || action.RenewRaises?
    || action.Store? || action.Lose? || action.RequestStop?
  }

  function Step(s: State, action: Action): Option<State> {
    if OfRenewer(action) then
      if action.k < |s.renewers| then RenewerStep(s, action.k, action) else None
    else if |s.renewers| > 0 then HandleStep(s, action)
    else None
  }

  function Run(s: State, actions: seq<Action>): Option<State> {
    if actions == [] then Some(s)
    else
      match Run(s, actions[..|actions| - 1])
      case None => None
      case Some(t) => Step(t, actions[|actions| - 1])
  }

  /** A join broken off from outside, such as by a keyboard interrupt, does no harm when the renewer is already
      dead or has recorded a loss. */
  predicate HarmlessAt(s: State, action: Action) {
    action.JoinInterrupted? && |s.renewers| > 0 ==> s.Current().Dead? || s.fields.loss.Some?
  }

  /** Every interrupted join of the run is a harmless one. */
  ghost predicate HarmlessRun(s: State, actions: seq<Action>) {
    actions == []
    || (var before := actions[..|actions| - 1];
        HarmlessRun(s, before) && (Run(s, before).Some? ==> HarmlessAt(Run(s, before).value, actions[|actions| - 1])))
  }

  /** Past the loss check of a publication. */
  predicate Publishing(pc: HandlePc) {
    pc.Reading? || pc.Calling? || pc.Committing?
  }

  ghost predicate Inv(s: State) {
    var f, n := s.fields, |s.renewers|;
    && n > 0
    && (forall k | 0 <= k < n - 1 :: s.renewers[k].Dead?)
    && (s.Current().Ready? <==> !f.entered || s.handle.Entering?)
    && (s.handle.Entering? ==> f.entered && !f.exited)
    && (f.exited ==> f.entered)
    && (s.handle.Joining? || s.handle.Checking? || Publishing(s.handle) ==> f.terminalizing)
    && (f.terminalizing ==> s.handle.Joining? || s.handle.Checking? || Publishing(s.handle) || s.handle.Aborting?)
    && (f.terminalizing ==> f.entered && !f.committed && !f.exited)
    && (f.terminalizing && !s.handle.Joining? ==> s.Current().Dead? || (s.handle.Aborting? && f.loss.Some?))
    && (s.handle.Restarting? ==> s.Current().Dead? && !f.committed && !f.exited && f.loss.None?)
    && (s.handle.Aborting? ==> !f.committed && f.entered && (f.loss.Some? || f.terminalizing))
    && (Publishing(s.handle) ==> f.loss.None?)
    && (s.handle.ExitJoining? || s.handle.ExitChecking? ==> f.exited && f.entered)
    && (s.handle.ExitChecking? ==> s.handle.terminalized == f.committed && s.Current().Dead?)
    && (f.committed ==> f.entered && s.Current().Dead? && f.loss.None? && !s.handle.Entering?)
    && (f.loss.Some? ==> s.Current().Stopping? || s.Current().Dead?)
    && (s.Current().Stopping? ==> f.loss.Some?)
    && s.granted == (if s.Current().Storing? then s.Current().renewed else f.lease)
    && (s.handle.Calling? ==> s.handle.lease == s.granted)
    && s.commits == (if f.committed then 1 else 0)
    && (s.cleanExit ==> f.committed && f.loss.None? && f.exited)
  }

  lemma HandleStepKeepsInv(s: State, action: Action, t: State)
    requires Inv(s) && HandleStep(s, action) == Some(t) && HarmlessAt(s, action)
    ensures Inv(t)
  {}

  lemma RenewerStepKeepsInv(s: State, action: Action, t: State)
    requires Inv(s) && OfRenewer(action) && Step(s, action) == Some(t)
    ensures Inv(t)
  {}

  lemma StepKeepsInv(s: State, action: Action, t: State)
    requires Inv(s) && Step(s, action) == Some(t) && HarmlessAt(s, action)
    ensures Inv(t)
  {
    if OfRenewer(action) {
      RenewerStepKeepsInv(s, action, t);
    } else {
      HandleStepKeepsInv(s, action, t);
    }
  }

  lemma {:induction false} RunKeepsInv(s: State, actions: seq<Action>, t: State)
    requires Inv(s) && Run(s, actions) == Some(t) && HarmlessRun(s, actions)
    ensures Inv(t)
  {
    if actions != [] {
      var before := actions[..|actions| - 1];
      RunKeepsInv(s, before, Run(s, before).value);
      StepKeepsInv(Run(s, before).value, actions[|actions| - 1], t);
    }
  }

  ghost predicate Reachable(lease: Lease, actions: seq<Action>, s: State) {
    Run(Initial(lease), actions) == Some(s)
  }

  ghost predicate OneAlive(s: State) {
    forall i, j | 0 <= i < |s.renewers| && 0 <= j < |s.renewers| ::
      Alive(s.renewers[i]) && Alive(s.renewers[j]) ==> i == j
  }

  lemma InvMeansOneAlive(s: State)
    requires Inv(s)
    ensures OneAlive(s)
  {}

  lemma InvMeansCallsAreAlone(s: State)
    requires Inv(s) && s.handle.Calling?
    ensures forall k | 0 <= k < |s.renewers| :: !Alive(s.renewers[k])
  {}

  /** MAINTENANCE SAFETY: in every interleaving in which interrupted joins are harmless, at most one renewer is
      alive and none is during the authority's succeed or fail call; that call is given the last lease the authority
      granted; at most one publication commits; and a clean exit that returned means a committed terminal and no
      loss. */
  lemma MaintenanceSafety(lease: Lease, actions: seq<Action>, s: State)
    requires Reachable(lease, actions, s) && HarmlessRun(Initial(lease), actions)
    ensures OneAlive(s)
    ensures s.handle.Calling? ==> forall k | 0 <= k < |s.renewers| :: !Alive(s.renewers[k])
    ensures s.handle.Calling? ==> s.handle.lease == s.granted && !s.fields.committed
    ensures s.commits <= 1
    ensures s.cleanExit ==> s.commits == 1 && s.fields.loss.None?
  {
    RunKeepsInv(Initial(lease), actions, s);
    InvMeansOneAlive(s);
    if s.handle.Calling? {
      InvMeansCallsAreAlone(s);
    }
  }

  lemma HandleStartsOnlyWhenNeeded(s: State, action: Action, t: State)
    requires Inv(s) && HandleStep(s, action) == Some(t)
    requires exists k :: 0 <= k < |t.renewers| && Alive(t.renewers[k]) && (k >= |s.renewers| || !Alive(s.renewers[k]))
    ensures !t.fields.committed && t.fields.loss.None? && !t.fields.exited
    ensures forall k | 0 <= k < |s.renewers| :: !Alive(s.renewers[k])
  {}

  /** A renewer is started only while there is no commit, no loss, no exit and no renewer alive. */
  lemma RenewerStartsOnlyWhenNeeded(lease: Lease, actions: seq<Action>, s: State, action: Action, t: State)
    requires Reachable(lease, actions, s) && HarmlessRun(Initial(lease), actions)
    requires Step(s, action) == Some(t)
    requires exists k :: 0 <= k < |t.renewers| && Alive(t.renewers[k]) && (k >= |s.renewers| || !Alive(s.renewers[k]))
    ensures !t.fields.committed && t.fields.loss.None? && !t.fields.exited
    ensures forall k | 0 <= k < |s.renewers| :: !Alive(s.renewers[k])
  {
    RunKeepsInv(Initial(lease), actions, s);
    if !OfRenewer(action) {
      HandleStartsOnlyWhenNeeded(s, action, t);
    }
  }

  lemma LossStepIsFinal(s: State, action: Action, t: State)
    requires Inv(s) && s.fields.loss.Some? && Step(s, action) == Some(t)
    ensures t.fields.loss == s.fields.loss && t.commits == s.commits && t.granted == s.granted
    ensures |t.renewers| == |s.renewers|
  {}

  lemma LossMeansQuiet(s: State)
    requires Inv(s) && s.fields.loss.Some?
    ensures !s.handle.Calling? && forall k | 0 <= k < |s.renewers| :: !s.renewers[k].Renewing?
  {}

  lemma {:induction false} LossStaysFinal(s: State, actions: seq<Action>, t: State)
    requires Inv(s) && s.fields.loss.Some? && Run(s, actions) == Some(t)
    ensures Inv(t)
    ensures t.fields.loss == s.fields.loss && t.commits == s.commits && t.granted == s.granted
    ensures |t.renewers| == |s.renewers|
  {
    if actions != [] {
      var before := actions[..|actions| - 1];
      var middle := Run(s, before).value;
      LossStaysFinal(s, before, middle);
      StepKeepsInv(middle, actions[|actions| - 1], t);
      LossStepIsFinal(middle, actions[|actions| - 1], t);
    }
  }

  /** A recorded loss ends maintenance: whatever follows, interruptions included, it stays the recorded loss, no
      renewer is started, no renewal is granted, nothing commits and the authority is not asked to publish. */
  lemma LossIsFinal(s: State, actions: seq<Action>, t: State)
    requires Inv(s) && s.fields.loss.Some? && Run(s, actions) == Some(t)
    ensures t.fields.loss == s.fields.loss && t.commits == s.commits && t.granted == s.granted
    ensures |t.renewers| == |s.renewers| && !t.handle.Calling?
    ensures forall k | 0 <= k < |t.renewers| :: !t.renewers[k].Renewing?
  {
    LossStaysFinal(s, actions, t);
    LossMeansQuiet(t);
  }

  /** Two steps in a row. */
  function Two(s: State, a: Action, b: Action): Option<State> {
    match Step(s, a)
    case None => None
    case Some(t) => Step(t, b)
  }

  /** A later publication raises the recorded loss again, and changes nothing else. */
  lemma LossSurfacesAgain(s: State)
    requires Inv(s) && s.handle.Idle? && s.fields.loss.Some?
    ensures Two(s, Publish, AbortDone) == Some(s.(raised := s.raised + [s.fields.loss.value]))
  {
  }

  /** What a definitive authority error leaves behind: the error as the loss, and no renewer. */
  lemma DefinitiveErrorStopsMaintenance(s: State, error: Fault)
    requires Inv(s) && s.handle.Calling? && error.Definitive?
    ensures var r := Two(s, AuthorityRaises(error), AbortDone);
            && r.Some? && Inv(r.value) && r.value.handle.Idle?
            && r.value.fields.loss == Some(error)
            && forall k | 0 <= k < |r.value.renewers| :: !Alive(r.value.renewers[k])
  {
  }

  /** Any other authority error leaves exactly one renewer alive again, with the lease last granted. */
  lemma PassingErrorRestartsRenewer(s: State, error: Fault)
    requires Inv(s) && s.handle.Calling? && error.Passing?
    ensures var r := Two(s, AuthorityRaises(error), AbortDone);
            && r.Some? && r.value.handle == Restarting(error)
            && Step(r.value, Restart).Some?
            && var t := Step(r.value, Restart).value;
               Inv(t) && t.handle.Idle? && Alive(t.Current()) && !t.fields.stop && t.fields.lease == s.handle.lease
  {
  }

  /** A join broken off from outside is given up and restarts a renewer without waiting for the old one:
      two renewers are then alive exactly when the old one still was and had recorded no loss. */
  lemma InterruptedJoinDoublesRenewer(s: State, tag: int)
    requires Inv(s) && s.handle.Joining?
    ensures var r := Two(s, JoinInterrupted(tag), AbortDone);
            && r.Some?
            && ((Alive(s.Current()) && s.fields.loss.None?) <==>
                (Step(r.value, Restart).Some? &&
                 var t := Step(r.value, Restart).value;
                 exists i, j :: 0 <= i < j < |t.renewers| && Alive(t.renewers[i]) && Alive(t.renewers[j])))
  {
    var r := Two(s, JoinInterrupted(tag), AbortDone).value;
    if r.handle.Restarting? {
      var t := Step(r, Restart).value;
      assert t.renewers[|s.renewers|] == Waiting;
      assert t.renewers[|s.renewers| - 1] == s.Current();
    }
  }

  ghost predicate Undisturbed(actions: seq<Action>) {
    forall a | a in actions :: !a.JoinInterrupted?
  }

  /** Some schedule without an interrupted join leads from s to t. */
  ghost predicate Reaches(s: State, t: State) {
    exists actions :: Run(s, actions) == Some(t) && Undisturbed(actions)
  }

  lemma ReachesItself(s: State)
    ensures Reaches(s, s)
  {
    var none: seq<Action> := [];
    assert Run(s, none) == Some(s);
  }

  lemma ReachesNext(s: State, t: State, action: Action, u: State)
    requires Reaches(s, t) && Step(t, action) == Some(u) && !action.JoinInterrupted?
    ensures Reaches(s, u)
  {
    var actions :| Run(s, actions) == Some(t) && Undisturbed(actions);
    assert (actions + [action])[..|actions|] == actions;
    assert Run(s, actions + [action]) == Some(u);
  }

  /** Giving a publication up without a definitive error asks for a renewer again. */
  lemma AbortAsksForRenewer(s: State, error: Fault)
    requires |s.renewers| > 0 && s.handle == Aborting(error) && error.Passing? && s.fields.loss.None?
    requires s.fields.terminalizing && !s.fields.committed && !s.fields.exited
    ensures Step(s, AbortDone)
            == Some(s.(fields := s.fields.(terminalizing := false, stop := false), handle := Restarting(error)))
  {}

  /** A join given up without a loss leaves the old renewer as it is, beside a new one. */
  lemma InterruptionRestarts(s0: State, s: State, error: Fault) returns (t: State)
    requires Reaches(s0, s) && |s.renewers| > 0 && s.handle == Aborting(error) && error.Passing? && s.fields.loss.None?
    requires s.fields.terminalizing && !s.fields.committed && !s.fields.exited
    ensures Reaches(s0, t)
    ensures t == s.(fields := s.fields.(terminalizing := false, stop := false), handle := Idle,
                    renewers := s.renewers + [Waiting], raised := s.raised + [error])
  {
    AbortAsksForRenewer(s, error);
    var s2 := Step(s, AbortDone).value;
    ReachesNext(s0, s, AbortDone, s2);
    t := s2.(handle := Idle, renewers := s2.renewers + [Waiting], raised := s2.raised + [error]);
    ReachesNext(s0, s2, Restart, t);
  }

  lemma PublishClaims(s: State)
    requires |s.renewers| > 0 && s.handle.Idle? && Prepare(s.fields).1.StopRequested?
    ensures Step(s, Publish) == Some(s.(fields := s.fields.(terminalizing := true, stop := true), handle := Joining))
  {}

  /** A publication from an active handle stops its own renewer. */
  lemma PublicationStopsRenewer(s0: State, s: State, n: nat) returns (t: State)
    requires Reaches(s0, s) && |s.renewers| == n + 1 && s.handle.Idle? && s.renewers[n].Waiting?
    requires Prepare(s.fields).1.StopRequested?
    ensures Reaches(s0, t)
    ensures t == s.(fields := s.fields.(terminalizing := true, stop := true), handle := Checking,
                    renewers := s.renewers[n := Dead])
  {
    var s1 := s.(fields := s.fields.(terminalizing := true, stop := true), handle := Joining);
    PublishClaims(s);
    ReachesNext(s0, s, Publish, s1);
    var s2 := s1.(renewers := s.renewers[n := Dead]);
    ReachesNext(s0, s1, NoticeStop(n), s2);
    t := s2.(handle := Checking);
    ReachesNext(s0, s2, Join, t);
  }

  /** And without a loss goes on to the authority. */
  lemma PublicationReachesAuthority(s0: State, s: State) returns (t: State)
    requires Reaches(s0, s) && |s.renewers| > 0 && s.handle.Checking? && s.fields.loss.None?
    ensures Reaches(s0, t) && t == s.(handle := Calling(s.fields.lease))
  {
    ReachesNext(s0, s, Check, s.(handle := Reading));
    t := s.(handle := Calling(s.fields.lease));
    ReachesNext(s0, s.(handle := Reading), Read, t);
  }

  lemma OverlapFrom(s: State, error: Fault) returns (t: State)
    requires |s.renewers| > 0 && s.handle == Aborting(error) && error.Passing? && s.fields.loss.None?
    requires s.fields.terminalizing && !s.fields.committed && s.fields.entered && !s.fields.exited
    ensures Reaches(s, t) && t.handle.Calling? && |t.renewers| > |s.renewers|
    ensures t.renewers[|s.renewers| - 1] == s.Current()
  {
    ReachesItself(s);
    var restarted := InterruptionRestarts(s, s, error);
    var checking := PublicationStopsRenewer(s, restarted, |s.renewers|);
    t := PublicationReachesAuthority(s, checking);
  }

  /** A publication that joins its renewer has been claimed, by a handle still in its context. */
  lemma JoiningMeansPublishing(s: State)
    requires Inv(s) && s.handle.Joining?
    ensures |s.renewers| > 0 && s.fields.terminalizing && !s.fields.committed && s.fields.entered && !s.fields.exited
    ensures s.Current().Renewing? ==> s.fields.loss.None?
  {}

  /** So an interrupted join can leave a renewal in flight while the authority publishes: from any state that
      joins a renewer whose renewal is in flight, one interruption and then some schedule leads there. */
  lemma InterruptedJoinOverlapsPublication(s: State, tag: int)
    requires Inv(s) && s.handle.Joining? && s.Current().Renewing?
    ensures Step(s, JoinInterrupted(tag)).Some?
    ensures exists t :: Reaches(Step(s, JoinInterrupted(tag)).value, t) && t.handle.Calling?
                        && exists k :: 0 <= k < |t.renewers| && t.renewers[k].Renewing?
  {
    JoiningMeansPublishing(s);
    var t := OverlapFrom(s.(handle := Aborting(Passing(tag))), Passing(tag));
    assert t.renewers[|s.renewers| - 1].Renewing?;
  }

  lemma {:induction false} UndisturbedKeepsInv(s: State, actions: seq<Action>, t: State)
    requires Inv(s) && Run(s, actions) == Some(t) && Undisturbed(actions)
    ensures Inv(t)
  {
    if actions != [] {
      var before := actions[..|actions| - 1];
      UndisturbedKeepsInv(s, before, Run(s, before).value);
      StepKeepsInv(Run(s, before).value, actions[|actions| - 1], t);
    }
  }

  lemma UndisturbedStaysSafe(s: State)
    requires Inv(s)
    ensures forall t | Reaches(s, t) :: OneAlive(t)
  {
    forall t | Reaches(s, t) ensures OneAlive(t) {
      var actions :| Run(s, actions) == Some(t) && Undisturbed(actions);
      UndisturbedKeepsInv(s, actions, t);
      InvMeansOneAlive(t);
    }
  }

  /** INTERRUPTIONS, EXACTLY: after a join is broken off, every schedule without a further interruption keeps at
      most one renewer alive if and only if the renewer was dead or had recorded a loss. */
  lemma InterruptionExactly(s: State, tag: int)
    requires Inv(s) && s.handle.Joining?
    ensures Step(s, JoinInterrupted(tag)).Some?
    ensures HarmlessAt(s, JoinInterrupted(tag)) <==>
              forall t | Reaches(Step(s, JoinInterrupted(tag)).value, t) :: OneAlive(t)
  {
    var u := s.(handle := Aborting(Passing(tag)));
    JoiningMeansPublishing(s);
    if HarmlessAt(s, JoinInterrupted(tag)) {
      StepKeepsInv(s, JoinInterrupted(tag), u);
      UndisturbedStaysSafe(u);
    } else {
      ReachesItself(u);
      var t := InterruptionRestarts(u, u, Passing(tag));
      var n := |s.renewers|;
      assert Alive(t.renewers[n - 1]) && Alive(t.renewers[n]);
    }
  }
}
