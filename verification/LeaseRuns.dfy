/** Whole-run safety of one key: what every history of atomic authority calls keeps.
    A history may hold any calls by any clients, in any order, with any clock readings;
    the results that depend on the clock say exactly how. */
module LeaseRuns {
  import opened Wrappers
  import opened LeaseModels
  import opened LeaseTransitions

  datatype Event = Event(now: int, call: Call)

  ghost predicate ValidHistory(history: seq<Event>) {
    forall e | e in history :: e.call.Valid()
  }

  ghost predicate ClockForward(history: seq<Event>) {
    forall i, j | 0 <= i <= j < |history| :: history[i].now <= history[j].now
  }

  /** The stored row after the first n events, starting from an absent row. */
  function RowAt(digest: Digest, history: seq<Event>, n: nat): Option<LeaseRow>
    requires n <= |history|
  {
    if n == 0 then None
    else RowAfter(digest, history[n - 1].call, RowAt(digest, history, n - 1), history[n - 1].now)
  }

  function ReplyAt(digest: Digest, history: seq<Event>, i: nat): Result<Reply, LeaseError>
    requires i < |history|
  {
    ReplyTo(digest, history[i].call, RowAt(digest, history, i), history[i].now)
  }

  function IssuedAt(digest: Digest, history: seq<Event>, i: nat): Option<Lease>
    requires i < |history|
  {
    IssuedBy(ReplyAt(digest, history, i))
  }

  lemma {:induction false} RowsStayOk(digest: Digest, history: seq<Event>, n: nat)
    requires n <= |history| && ValidHistory(history)
    ensures RowOk(RowAt(digest, history, n))
  {
    if n > 0 {
      RowsStayOk(digest, history, n - 1);
      TransitionKeepsRow(digest, history[n - 1].call, RowAt(digest, history, n - 1), history[n - 1].now);
    }
  }

  /** How a row may stand to a later row of the same key. No clock assumption. */
  ghost predicate Succeeds(earlier: LeaseRow, later: LeaseRow) {
    && later.request == earlier.request
    && earlier.fence <= later.fence
    && (earlier.fence == later.fence ==> earlier.ownerId == later.ownerId && earlier.attemptId == later.attemptId)
    && (earlier.expiresAt.Some? && later.expiresAt.Some? ==> earlier.expiresAt.value <= later.expiresAt.value)
    && (earlier.terminal.Some? ==> later == earlier)
    && (earlier.request.replayPolicy == NoRedrive ==> earlier.fence == later.fence)
  }

  lemma StepSucceeds(digest: Digest, call: Call, row: LeaseRow, now: int)
    requires call.Valid() && row.WellFormed()
    ensures RowAfter(digest, call, Some(row), now).Some?
    ensures Succeeds(row, RowAfter(digest, call, Some(row), now).value)
  {}

  lemma SucceedsComposes(a: LeaseRow, b: LeaseRow, c: LeaseRow)
    requires Succeeds(a, b) && Succeeds(b, c)
    requires b.expiresAt.None? ==> b.terminal.Some?
    ensures Succeeds(a, c)
  {}

  lemma NextRowSucceeds(digest: Digest, history: seq<Event>, n: nat)
    requires n < |history| && ValidHistory(history) && RowAt(digest, history, n).Some?
    ensures RowAt(digest, history, n + 1).Some? && RowAt(digest, history, n).value.WellFormed()
    ensures Succeeds(RowAt(digest, history, n).value, RowAt(digest, history, n + 1).value)
  {
    RowsStayOk(digest, history, n);
    StepSucceeds(digest, history[n].call, RowAt(digest, history, n).value, history[n].now);
  }

  /** FENCING AND DECIDE-ONCE, over any stretch of any run: the request never changes, fences and lease
      expiries never go down, a fence stands for one holder, a NO_REDRIVE fence never moves, and a
      terminal row never changes again. The clock may run backwards. */
  lemma {:induction false} RowsSucceed(digest: Digest, history: seq<Event>, i: nat, n: nat)
    requires i <= n <= |history| && ValidHistory(history)
    requires RowAt(digest, history, i).Some?
    ensures RowAt(digest, history, n).Some?
    ensures Succeeds(RowAt(digest, history, i).value, RowAt(digest, history, n).value)
  {
    if i < n {
      var m := n - 1;
      RowsSucceed(digest, history, i, m);
      NextRowSucceeds(digest, history, m);
      SucceedsComposes(
        RowAt(digest, history, i).value, RowAt(digest, history, m).value, RowAt(digest, history, m + 1).value);
    }
  }

  /** A fence moves only by a takeover: by exactly one, to the acquiring client, after the old lease ran out. */
  lemma {:induction false} FenceRisesByTakeover(digest: Digest, history: seq<Event>, i: nat)
    requires i < |history| && ValidHistory(history)
    requires RowAt(digest, history, i).Some?
    requires RowAt(digest, history, i + 1).Some?
    requires RowAt(digest, history, i).value.fence != RowAt(digest, history, i + 1).value.fence
    ensures var row, next := RowAt(digest, history, i).value, RowAt(digest, history, i + 1).value;
            && history[i].call.Acquire?
            && next.fence == row.fence + 1
            && row.expiresAt.Some? && row.expiresAt.value <= history[i].now
            && row.request.replayPolicy != NoRedrive
            && next.ActiveLease().Some?
            && IssuedAt(digest, history, i) == next.ActiveLease()
            && next.ownerId == history[i].call.ownerId && next.attemptId == history[i].call.attemptId
  {
    RowsStayOk(digest, history, i);
    RowsStayOk(digest, history, i + 1);
  }

  /** Every row of a run, and every lease ever issued, has a fence in 1..2^63-1; NO_REDRIVE keeps fence 1. */
  lemma {:induction false} FencesInRange(digest: Digest, history: seq<Event>, n: nat)
    requires n <= |history| && ValidHistory(history)
    ensures RowAt(digest, history, n).Some? ==> FenceInRange(RowAt(digest, history, n).value.fence)
    ensures RowAt(digest, history, n).Some? && RowAt(digest, history, n).value.request.replayPolicy == NoRedrive ==>
              RowAt(digest, history, n).value.fence == 1
  {
    RowsStayOk(digest, history, n);
    if n > 0 {
      FencesInRange(digest, history, n - 1);
      RowsStayOk(digest, history, n - 1);
    }
  }

  /** How a lease issued earlier stands to the row now. */
  ghost predicate IssuedUnder(lease: Lease, row: Option<LeaseRow>) {
    && row.Some?
    && lease.request == row.value.request
    && 1 <= lease.fence <= row.value.fence
    && (lease.fence == row.value.fence ==>
          && lease.ownerId == row.value.ownerId
          && lease.attemptId == row.value.attemptId
          && (row.value.expiresAt.Some? ==> lease.expiresAt <= row.value.expiresAt.value))
  }

  /** A lease is issued only as the row that is stored with it. */
  lemma {:induction false} IssuedIsStored(digest: Digest, call: Call, row: Option<LeaseRow>, now: int)
    requires call.Valid() && RowOk(row)
    requires IssuedBy(ReplyTo(digest, call, row, now)).Some?
    ensures RowAfter(digest, call, row, now) == Some(LeasedRow(IssuedBy(ReplyTo(digest, call, row, now)).value))
    ensures IssuedBy(ReplyTo(digest, call, row, now)).value.Valid()
  {
    TransitionKeepsRow(digest, call, row, now);
  }

  lemma UnderStep(digest: Digest, call: Call, row: Option<LeaseRow>, now: int, lease: Lease)
    requires call.Valid() && RowOk(row) && IssuedUnder(lease, row)
    ensures IssuedUnder(lease, RowAfter(digest, call, row, now))
  {
    StepSucceeds(digest, call, row.value, now);
  }

  lemma IssuedUnderOwnRow(digest: Digest, call: Call, row: Option<LeaseRow>, now: int)
    requires call.Valid() && RowOk(row)
    requires IssuedBy(ReplyTo(digest, call, row, now)).Some?
    ensures IssuedUnder(IssuedBy(ReplyTo(digest, call, row, now)).value, RowAfter(digest, call, row, now))
  {
    IssuedIsStored(digest, call, row, now);
  }

  /** A lease under some row of a run stays under all later ones. */
  lemma {:induction false} StaysUnder(digest: Digest, history: seq<Event>, lease: Lease, k: nat, n: nat)
    requires k <= n <= |history| && ValidHistory(history) && IssuedUnder(lease, RowAt(digest, history, k))
    ensures IssuedUnder(lease, RowAt(digest, history, n))
  {
    if k < n {
      StaysUnder(digest, history, lease, k, n - 1);
      RowsStayOk(digest, history, n - 1);
      UnderStep(digest, history[n - 1].call, RowAt(digest, history, n - 1), history[n - 1].now, lease);
    }
  }

  /** Every lease ever issued stays under the row: never ahead of its fence, and at its fence only for its holder. */
  lemma IssuedStaysUnder(digest: Digest, history: seq<Event>, i: nat, n: nat)
    requires i < n <= |history| && ValidHistory(history)
    requires IssuedAt(digest, history, i).Some?
    ensures IssuedUnder(IssuedAt(digest, history, i).value, RowAt(digest, history, n))
  {
    RowsStayOk(digest, history, i);
    IssuedUnderOwnRow(digest, history[i].call, RowAt(digest, history, i), history[i].now);
    StaysUnder(digest, history, IssuedAt(digest, history, i).value, i + 1, n);
  }

  /** With a forward clock: a lease under the row whose fence has been passed has run out. */
  ghost predicate SettledUnder(lease: Lease, row: Option<LeaseRow>, clock: int) {
    IssuedUnder(lease, row) && (lease.fence < row.value.fence ==> lease.expiresAt <= clock)
  }

  /** The step that passes a fence finds its lease run out. */
  lemma SettledStep(digest: Digest, call: Call, row: Option<LeaseRow>, clock: int, now: int, lease: Lease)
    requires call.Valid() && RowOk(row)
    requires SettledUnder(lease, row, clock) && clock <= now
    ensures SettledUnder(lease, RowAfter(digest, call, row, now), now)
  {
    StepSucceeds(digest, call, row.value, now);
  }

  lemma {:induction false} PassedLeasesRanOut(digest: Digest, history: seq<Event>, i: nat, n: nat)
    requires i < n <= |history| && ValidHistory(history) && ClockForward(history)
    requires IssuedAt(digest, history, i).Some?
    ensures SettledUnder(IssuedAt(digest, history, i).value, RowAt(digest, history, n), history[n - 1].now)
  {
    var last := history[n - 1];
    RowsStayOk(digest, history, n - 1);
    if i < n - 1 {
      PassedLeasesRanOut(digest, history, i, n - 1);
      assert history[n - 2].now <= last.now;
      SettledStep(digest, last.call, RowAt(digest, history, n - 1), history[n - 2].now, last.now,
                  IssuedAt(digest, history, i).value);
    } else {
      IssuedIsStored(digest, last.call, RowAt(digest, history, i), last.now);
    }
  }

  /** A fence names one holder among all leases ever issued, even with a clock that runs backwards. */
  lemma FenceNamesOneHolder(digest: Digest, history: seq<Event>, i: nat, j: nat)
    requires i <= j < |history| && ValidHistory(history)
    requires IssuedAt(digest, history, i).Some? && IssuedAt(digest, history, j).Some?
    requires IssuedAt(digest, history, i).value.fence == IssuedAt(digest, history, j).value.fence
    ensures IssuedAt(digest, history, i).value.SameHolder(IssuedAt(digest, history, j).value)
    ensures IssuedAt(digest, history, i).value.expiresAt <= IssuedAt(digest, history, j).value.expiresAt
  {
    IssuedStaysUnder(digest, history, i, j + 1);
    IssuedStaysUnder(digest, history, j, j + 1);
    RowsStayOk(digest, history, j);
    IssuedIsStored(digest, history[j].call, RowAt(digest, history, j), history[j].now);
  }

  // ---- Exclusion, and exactly which clocks keep it ----

  /** An issued lease is live when it is issued. */
  lemma IssuedIsLive(digest: Digest, call: Call, row: Option<LeaseRow>, now: int)
    requires call.Valid() && RowOk(row)
    requires IssuedBy(ReplyTo(digest, call, row, now)).Some?
    ensures now < IssuedBy(ReplyTo(digest, call, row, now)).value.expiresAt
  {}

  /** The step that passes a lease's fence finds the lease run out. */
  lemma PassingStepFindsExpiry(digest: Digest, call: Call, row: Option<LeaseRow>, now: int, lease: Lease)
    requires call.Valid() && RowOk(row) && IssuedUnder(lease, row) && lease.fence == row.value.fence
    requires RowAfter(digest, call, row, now).Some? && lease.fence < RowAfter(digest, call, row, now).value.fence
    ensures lease.expiresAt <= now
  {}

  /** A lease whose fence was passed had run out at the reading of the takeover that passed it. */
  lemma {:induction false} PassedByTakeover(digest: Digest, history: seq<Event>, i: nat, n: nat) returns (k: nat)
    requires i < n <= |history| && ValidHistory(history)
    requires IssuedAt(digest, history, i).Some? && RowAt(digest, history, n).Some?
    requires IssuedAt(digest, history, i).value.fence < RowAt(digest, history, n).value.fence
    ensures i < k < n && IssuedAt(digest, history, i).value.expiresAt <= history[k].now
  {
    var lease, m := IssuedAt(digest, history, i).value, n - 1;
    RowsStayOk(digest, history, m);
    if i == m {
      IssuedIsStored(digest, history[i].call, RowAt(digest, history, i), history[i].now);
      assert false;
    }
    IssuedStaysUnder(digest, history, i, m);
    if lease.fence < RowAt(digest, history, m).value.fence {
      k := PassedByTakeover(digest, history, i, m);
    } else {
      k := m;
      PassingStepFindsExpiry(digest, history[m].call, RowAt(digest, history, m), history[m].now, lease);
    }
  }

  /** All leases issued by the first n events that are still live at t carry one request, owner, attempt and fence. */
  ghost predicate Excludes(digest: Digest, history: seq<Event>, n: nat, t: int)
    requires n <= |history|
  {
    forall i, j | 0 <= i < n && 0 <= j < n
                  && IssuedAt(digest, history, i).Some? && IssuedAt(digest, history, i).value.expiresAt > t
                  && IssuedAt(digest, history, j).Some? && IssuedAt(digest, history, j).value.expiresAt > t ::
      IssuedAt(digest, history, i).value.SameHolder(IssuedAt(digest, history, j).value)
  }

  function Readings(history: seq<Event>): (readings: seq<int>)
    ensures |readings| == |history| && forall i | 0 <= i < |history| :: readings[i] == history[i].now
  {
    seq(|history|, i requires 0 <= i < |history| => history[i].now)
  }

  /** No reading that is ahead of t comes after a smaller one. */
  ghost predicate SafeAt(readings: seq<int>, t: int) {
    forall j, k | 0 <= j < k < |readings| && readings[k] > t :: readings[k] <= readings[j]
  }

  lemma IssuedIsLiveAt(digest: Digest, history: seq<Event>, i: nat)
    requires i < |history| && ValidHistory(history) && IssuedAt(digest, history, i).Some?
    ensures history[i].now < IssuedAt(digest, history, i).value.expiresAt
  {
    RowsStayOk(digest, history, i);
    IssuedIsLive(digest, history[i].call, RowAt(digest, history, i), history[i].now);
  }

  /** A lease issued at reading i and run out at a later reading k is not live at a moment the readings are safe at. */
  lemma RunOutIsNotLive(readings: seq<int>, i: nat, k: nat, expiresAt: int, t: int)
    requires SafeAt(readings, t) && i < k < |readings|
    requires readings[i] < expiresAt <= readings[k]
    ensures expiresAt <= t
  {}

  /** A live lease cannot have been passed: the takeover's reading would be ahead of t and of the issuing one. */
  lemma LiveIsCurrent(digest: Digest, history: seq<Event>, n: nat, i: nat, t: int)
    requires i < n <= |history| && ValidHistory(history) && SafeAt(Readings(history[..n]), t)
    requires IssuedAt(digest, history, i).Some? && IssuedAt(digest, history, i).value.expiresAt > t
    ensures IssuedUnder(IssuedAt(digest, history, i).value, RowAt(digest, history, n))
    ensures IssuedAt(digest, history, i).value.fence == RowAt(digest, history, n).value.fence
  {
    var lease := IssuedAt(digest, history, i).value;
    IssuedStaysUnder(digest, history, i, n);
    if lease.fence < RowAt(digest, history, n).value.fence {
      var k := PassedByTakeover(digest, history, i, n);
      IssuedIsLiveAt(digest, history, i);
      RunOutIsNotLive(Readings(history[..n]), i, k, lease.expiresAt, t);
    }
  }

  lemma SafeReadingsExclude(digest: Digest, history: seq<Event>, n: nat, t: int)
    requires n <= |history| && ValidHistory(history) && SafeAt(Readings(history[..n]), t)
    ensures Excludes(digest, history, n, t)
  {
    forall i, j | 0 <= i < n && 0 <= j < n
                  && IssuedAt(digest, history, i).Some? && IssuedAt(digest, history, i).value.expiresAt > t
                  && IssuedAt(digest, history, j).Some? && IssuedAt(digest, history, j).value.expiresAt > t
      ensures IssuedAt(digest, history, i).value.SameHolder(IssuedAt(digest, history, j).value)
    {
      LiveIsCurrent(digest, history, n, i, t);
      LiveIsCurrent(digest, history, n, j, t);
    }
  }

  /** The request a call is about. */
  function RequestOf(call: Call): LeaseRequest {
    match call
    case Acquire(request, _, _, _) => request
    case Renew(lease, _) => lease.request
    case Succeed(lease, _) => lease.request
    case Fail(lease, _, _) => lease.request
    case VerifyTerminal(terminal) => terminal.request
  }

  /** With readings that rise from j to k, one client holds until reading k and another takes over at k. */
  function TakeoverCall(request: LeaseRequest, readings: seq<int>, j: nat, k: nat, i: nat): Call
    requires j < k < |readings|
  {
    if i == j then Acquire(request, "a", "1", readings[k] - readings[j])
    else if i == k then Acquire(request, "b", "2", 1)
    else
      VerifyTerminal(Terminal(request, RecoveryRequired, "a", "1", 1, None,
                              Some(TerminalFailure("none", "none", CallerDetails("{}")))))
  }

  function TakeoverHistory(request: LeaseRequest, readings: seq<int>, j: nat, k: nat): (history: seq<Event>)
    requires j < k < |readings|
    ensures |history| == |readings|
    ensures forall i | 0 <= i < |history| :: history[i] == Event(readings[i], TakeoverCall(request, readings, j, k, i))
  {
    seq(|readings|, i requires 0 <= i < |readings| => Event(readings[i], TakeoverCall(request, readings, j, k, i)))
  }

  /** Nothing else touches the row. */
  lemma {:induction false} TakeoverRows(digest: Digest, request: LeaseRequest, readings: seq<int>, j: nat, k: nat,
      n: nat)
    requires j < k < |readings| && n <= k && request.Valid()
    ensures RowAt(digest, TakeoverHistory(request, readings, j, k), n)
            == if n <= j then None else Some(LeasedRow(Lease(request, "a", "1", 1, readings[k])))
  {
    if n > 0 {
      TakeoverRows(digest, request, readings, j, k, n - 1);
    }
  }

  /** If a reading ahead of t comes after a smaller one, two clients can both hold live leases at t. */
  lemma RisingReadingsBreakExclusion(digest: Digest, request: LeaseRequest, readings: seq<int>, t: int, j: nat, k: nat)
    requires request.Valid() && request.replayPolicy != NoRedrive
    requires j < k < |readings| && readings[j] < readings[k] && readings[k] > t
    ensures var history := TakeoverHistory(request, readings, j, k);
            && ValidHistory(history) && Readings(history) == readings
            && (forall e | e in history :: RequestOf(e.call) == request)
            && !Excludes(digest, history, |history|, t)
  {
    var history := TakeoverHistory(request, readings, j, k);
    TakeoverRows(digest, request, readings, j, k, j);
    TakeoverRows(digest, request, readings, j, k, k);
    assert IssuedAt(digest, history, j) == Some(Lease(request, "a", "1", 1, readings[k]));
    assert IssuedAt(digest, history, k) == Some(Lease(request, "b", "2", 2, readings[k] + 1));
  }

  /** EXCLUSION, EXACTLY: for any readings of the clock and any moment t, every sequence of calls on a replayable
      request at those readings keeps exclusion at t if and only if no reading that is ahead of t comes after a
      smaller one. So readings may go back and forth, as long as none of those ahead of t was climbed to. */
  lemma ExclusionExactly(digest: Digest, request: LeaseRequest, readings: seq<int>, t: int)
    requires request.Valid() && request.replayPolicy != NoRedrive
    ensures SafeAt(readings, t) <==>
              forall history: seq<Event> |
                && ValidHistory(history) && Readings(history) == readings
                && (forall e | e in history :: RequestOf(e.call) == request) ::
                Excludes(digest, history, |history|, t)
  {
    if SafeAt(readings, t) {
      forall history: seq<Event> | ValidHistory(history) && Readings(history) == readings
        ensures Excludes(digest, history, |history|, t)
      {
        assert history[..|history|] == history;
        SafeReadingsExclude(digest, history, |history|, t);
      }
    } else {
      var j, k :| 0 <= j < k < |readings| && readings[k] > t && readings[k] > readings[j];
      RisingReadingsBreakExclusion(digest, request, readings, t, j, k);
    }
  }

  /** EXCLUSION: at any moment t at or after all readings, whatever the clock did before, all leases ever issued
      that are still live at t carry the same request, owner, attempt and fence. */
  lemma Exclusion(digest: Digest, history: seq<Event>, n: nat, i: nat, j: nat, t: int)
    requires i < n <= |history| && j < n && ValidHistory(history)
    requires forall k | 0 <= k < n :: history[k].now <= t
    requires IssuedAt(digest, history, i).Some? && IssuedAt(digest, history, i).value.expiresAt > t
    requires IssuedAt(digest, history, j).Some? && IssuedAt(digest, history, j).value.expiresAt > t
    ensures IssuedAt(digest, history, i).value.SameHolder(IssuedAt(digest, history, j).value)
  {
    SafeReadingsExclude(digest, history, n, t);
  }

  /** The lease a client presents, when its call is one that presents a lease. */
  function PresentedLease(call: Call): Option<Lease> {
    match call
    case Renew(lease, _) => Some(lease)
    case Succeed(lease, _) => Some(lease)
    case Fail(lease, _, _) => Some(lease)
    case _ => None
  }

  /** A holder whose fence was passed at some moment can never again change the row or get a success. */
  lemma PassedHolderIsPowerless(digest: Digest, history: seq<Event>, m: nat, i: nat)
    requires m <= i < |history| && ValidHistory(history)
    requires RowAt(digest, history, m).Some?
    requires PresentedLease(history[i].call).Some?
    requires PresentedLease(history[i].call).value.fence < RowAt(digest, history, m).value.fence
    ensures RowAt(digest, history, i + 1) == RowAt(digest, history, i)
    ensures ReplyAt(digest, history, i).Failure?
    ensures ReplyAt(digest, history, i).error.StaleLease? || ReplyAt(digest, history, i).error.TerminalConflict?
  {
    RowsSucceed(digest, history, m, i);
    RowsStayOk(digest, history, i);
  }

  /** DECIDE ONCE: after a terminal is recorded the row is fixed, no lease is ever issued again, and
      every later reply that carries a terminal carries that one. */
  lemma {:induction false} DecideOnce(digest: Digest, history: seq<Event>, m: nat, i: nat)
    requires m <= i < |history| && ValidHistory(history)
    requires RowAt(digest, history, m).Some? && RowAt(digest, history, m).value.terminal.Some?
    ensures RowAt(digest, history, i) == RowAt(digest, history, m)
    ensures IssuedAt(digest, history, i).None?
    ensures TerminalIn(ReplyAt(digest, history, i)).Some? ==>
              TerminalIn(ReplyAt(digest, history, i)) == RowAt(digest, history, m).value.terminal
  {
    RowsSucceed(digest, history, m, i);
    RowsStayOk(digest, history, i);
  }

  /** Any two replies of a run that carry terminals carry the same one. */
  lemma TerminalRepliesAgree(digest: Digest, history: seq<Event>, i: nat, j: nat)
    requires i <= j < |history| && ValidHistory(history)
    requires TerminalIn(ReplyAt(digest, history, i)).Some? && TerminalIn(ReplyAt(digest, history, j)).Some?
    ensures TerminalIn(ReplyAt(digest, history, i)) == TerminalIn(ReplyAt(digest, history, j))
    ensures RowAt(digest, history, j + 1).Some?
    ensures RowAt(digest, history, j + 1).value.terminal == TerminalIn(ReplyAt(digest, history, i))
  {
    TerminalReplyIsStored(digest, history, i);
    TerminalReplyIsStored(digest, history, j);
    RowsSucceed(digest, history, i + 1, j + 1);
  }

  lemma {:induction false} TerminalReplyIsStored(digest: Digest, history: seq<Event>, i: nat)
    requires i < |history| && ValidHistory(history)
    requires TerminalIn(ReplyAt(digest, history, i)).Some?
    ensures RowAt(digest, history, i + 1).Some?
    ensures RowAt(digest, history, i + 1).value.terminal == TerminalIn(ReplyAt(digest, history, i))
  {
    RowsStayOk(digest, history, i);
  }

  /** A NO_REDRIVE key has one holder for its whole run, and all its leases carry fence 1. */
  lemma NoRedriveHasOneHolder(digest: Digest, history: seq<Event>, i: nat, j: nat)
    requires i <= j < |history| && ValidHistory(history)
    requires IssuedAt(digest, history, i).Some? && IssuedAt(digest, history, j).Some?
    requires IssuedAt(digest, history, i).value.request.replayPolicy == NoRedrive
    ensures IssuedAt(digest, history, i).value.fence == 1
    ensures IssuedAt(digest, history, i).value.SameHolder(IssuedAt(digest, history, j).value)
  {
    IssuedStaysUnder(digest, history, i, j + 1);
    IssuedStaysUnder(digest, history, j, j + 1);
    FencesInRange(digest, history, j + 1);
  }

  /** A terminal recorded by succeed or fail names the holder of the lease that was live at that moment;
      one recorded by recovery names the last holder of a lease that had run out. */
  lemma {:induction false} TerminalNamesLastHolder(digest: Digest, history: seq<Event>, i: nat)
    requires i < |history| && ValidHistory(history)
    requires RowAt(digest, history, i).Some? && RowAt(digest, history, i).value.terminal.None?
    requires RowAt(digest, history, i + 1).value.terminal.Some?
    ensures var row, terminal := RowAt(digest, history, i).value, RowAt(digest, history, i + 1).value.terminal.value;
            && terminal.ownerId == row.ownerId && terminal.attemptId == row.attemptId && terminal.fence == row.fence
            && row.expiresAt.Some?
            && (terminal.outcome == RecoveryRequired <==> row.expiresAt.value <= history[i].now)
            && (terminal.outcome == RecoveryRequired ==>
                history[i].call.Acquire? && row.request.replayPolicy == NoRedrive)
  {
    RowsStayOk(digest, history, i);
    RowsSucceed(digest, history, i, i + 1);
  }
}
