/** The guarantees of a WebSocket session, over every run of its three threads. */
module SessionTheorems {
  import opened Domain
  import opened SessionState
  import opened SessionProtocol
  import opened SessionInvariant

  lemma {:induction false} RunInv(tr: seq<State>, i: nat)
    requires IsRun(tr) && i < |tr|
    ensures Inv(tr[i])
  {
    if i == 0 {
      InitInv(tr[0]);
    } else {
      RunInv(tr, i - 1);
      assert StepAt(tr, i);
      var a :| Step(tr[i - 1], a) == Some(tr[i]);
      StepKeeps(tr[i - 1], a, tr[i]);
    }
  }

  // ----- Exactly-once finalisation -----------------------------------------------------

  /** Every operation that the store accepted is in exactly one place, and once all three threads
      are done it was handed to finishOperation exactly once; an operation that the store refused
      never is. */
  lemma ExactlyOnce(tr: seq<State>, i: OpId)
    requires IsRun(tr) && i < |tr[|tr| - 1].s.ops|
    ensures var st := tr[|tr| - 1];
            && Located(st, i) == Count(st.s.ops[i].startedInStore)
            && (Quiescent(st) ==> |st.s.ops[i].finishes| == Count(st.s.ops[i].startedInStore))
  {
    RunInv(tr, |tr| - 1);
    assert Located(tr[|tr| - 1], i) == Count(tr[|tr| - 1].s.ops[i].startedInStore);
  }

  /** A detached operation is never recorded as anything but an upstream error. */
  lemma DetachedEndsAsUpstreamError(tr: seq<State>, i: OpId)
    requires IsRun(tr) && i < |tr[|tr| - 1].s.ops|
    ensures var op := tr[|tr| - 1].s.ops[i]; op.detached ==> AllUpstreamErrors(op.finishes)
  {
    RunInv(tr, |tr| - 1);
    assert OpOk(tr[|tr| - 1].s, i);
  }

  // ----- The failure tail --------------------------------------------------------------

  /** A failed operation is alone and current, so detaching never displaces an earlier one. */
  lemma FailedStandsAlone(tr: seq<State>, now: int)
    requires IsRun(tr)
    ensures var s := tr[|tr| - 1].s;
            && Bounded(s)
            && (s.failed.Some? ==>
                  s.retired && s.active.None? && s.failed.value.generation == s.generation)
            && DetachFailedOperation(s, now).1.None?
            && !tr[|tr| - 1].core.CorePrevious?
  {
    RunInv(tr, |tr| - 1);
  }

  /** A client is told that a retry is safe exactly while nothing was retired and nothing is active;
      the flag failedResponseObserved never decides, because it is only set on a retired session. */
  lemma SafeRetryMeansIdle(tr: seq<State>)
    requires IsRun(tr)
    ensures var s := tr[|tr| - 1].s;
            && Bounded(s)
            && (s.failedResponseObserved ==> s.retired)
            && (CurrentDeliveryFailure(s) == (RetrySafe, NotDelivered) <==> !s.retired && s.active.None?)
            && (CurrentDeliveryFailure(s) == (RetrySafe, NotDelivered) ==> s.failed.None?)
  {
    RunInv(tr, |tr| - 1);
  }

  // ----- What no step takes back -------------------------------------------------------

  /** The order of session states: flags only rise, the first exit cause stays, operations keep
      their identity and their response identifier, finishes only grow, and a retired or cancelled
      session starts nothing. */
  ghost predicate Later(s: Session, s': Session) {
    && LaterFlags(s, s')
    && |s.ops| <= |s'.ops|
    && (s.retired || s.cancelled || s.stopping ==> |s'.ops| == |s.ops|)
    && forall i :: 0 <= i < |s.ops| ==> LaterOp(s.ops[i], s'.ops[i])
  }

  ghost predicate LaterFlags(s: Session, s': Session) {
    && (s.retired ==> s'.retired) && (s.cancelled ==> s'.cancelled) && (s.stopping ==> s'.stopping)
    && (s.exitCause != CauseUnset ==> s'.exitCause == s.exitCause)
  }

  ghost predicate LaterOp(op: Operation, op': Operation) {
    && op'.startedInStore == op.startedInStore
    && (op.responseId != "" ==> op'.responseId == op.responseId)
    && (op.terminalPending ==> op'.terminalPending)
    && (op.detached ==> op'.detached)
    && (op.ttfb.Some? ==> op'.ttfb == op.ttfb)
    && op.closes <= op'.closes
    && op.finishes <= op'.finishes
  }

  lemma LaterUpdate(s: Session, s': Session, i: OpId, op: Operation)
    requires LaterFlags(s, s') && i < |s.ops| && LaterOp(s.ops[i], op) && s'.ops == s.ops[i := op]
    ensures Later(s, s')
  {
  }

  lemma LaterTrans(s: Session, s': Session, s'': Session)
    requires Later(s, s') && Later(s', s'')
    ensures Later(s, s'')
  {
    forall i | 0 <= i < |s.ops| ensures LaterOp(s.ops[i], s''.ops[i]) {
      assert LaterOp(s.ops[i], s'.ops[i]) && LaterOp(s'.ops[i], s''.ops[i]);
    }
  }

  lemma LaterRecord(op: Operation, e: Event, terminal: bool)
    ensures LaterOp(op, RecordEvent(op, e, terminal))
  {
    LaterWrite(op, e);
  }

  lemma LaterObserve(s: Session, e: Event, terminal: bool)
    requires Bounded(s)
    ensures Later(s, ObserveServerEvent(s, e, terminal))
  {
    if s.active.Some? {
      LaterRecord(ActiveOp(s), e, terminal);
      LaterUpdate(s, ObserveServerEvent(s, e, terminal), s.active.value, RecordEvent(ActiveOp(s), e, terminal));
    }
  }

  lemma LaterTakeActive(s: Session)
    requires Bounded(s)
    ensures Later(s, TakeActive(s).0)
  {
    if s.active.Some? { LaterUpdate(s, TakeActive(s).0, s.active.value, CloseReady(ActiveOp(s))); }
  }

  lemma LaterDetach(s: Session, now: int)
    requires Bounded(s)
    ensures Later(s, DetachFailedOperation(s, now).0)
  {
    if s.active.Some? {
      LaterUpdate(s, DetachFailedOperation(s, now).0, s.active.value, CloseReady(ActiveOp(s)).(detached := true));
    }
  }

  lemma LaterRespond(s: Session, now: int)
    requires Bounded(s)
    ensures Later(s, ObserveCoreResponse(s, now))
  {
    var s' := ObserveCoreResponse(s, now);
    if s.active.Some? { LaterUpdate(s, s', s.active.value, s'.ops[s.active.value]); }
  }

  lemma LaterProvider(s: Session, value: string)
    requires Bounded(s)
    ensures Later(s, ObserveProviderRequestId(s, value))
  {
    var s' := ObserveProviderRequestId(s, value);
    if s.active.Some? { LaterUpdate(s, s', s.active.value, s'.ops[s.active.value]); }
  }

  lemma LaterInterrupt(s: Session, responseId: string)
    requires Bounded(s)
    ensures Later(s, RequestInterrupt(s, responseId))
  {
    var s' := RequestInterrupt(s, responseId);
    if s.active.Some? { LaterUpdate(s, s', s.active.value, s'.ops[s.active.value]); }
  }

  lemma LaterWrite(op: Operation, e: Event)
    ensures LaterOp(op, WriteUsage(op, e))
  {
  }

  lemma LaterFailed(s: Session, e: Event)
    requires Bounded(s)
    ensures Later(s, FailedServerEvent(s, e).session)
  {
    var s' := FailedServerEvent(s, e).session;
    if s' != s {
      var failed := s.failed.value.operation;
      LaterWrite(s.ops[failed], e);
      LaterUpdate(s, s', failed, WriteUsage(s.ops[failed], e));
    }
  }

  lemma LaterFinish(s: Session, operation: OpId, status: RequestStatus)
    requires operation < |s.ops|
    ensures Later(s, FinishOperation(s, operation, status))
  {
    var op := s.ops[operation];
    LaterUpdate(s, FinishOperation(s, operation, status), operation, op.(finishes := op.finishes + [status]));
  }

  lemma LaterExit(s: Session, s': Session, status: RequestStatus)
    requires Later(s, s')
    ensures Later(s, RecordExitCause(s', status))
  {
  }

  lemma LaterBegin(s: Session, kind: string, now: int, haveId: bool, stored: bool)
    requires Bounded(s)
    ensures Later(s, BeginOperation(s, kind, now, haveId, stored).0)
  {
  }

  lemma ClientBeginLater(st: State, kind: string, now: int, haveId: bool, stored: bool, st': State)
    requires Bounded(st.s) && ClientStep(st, ClientBegin(kind, now, haveId, stored)) == Some(st')
    ensures Later(st.s, st'.s)
  {
    var s' := BeginOperation(st.s, kind, now, haveId, stored).0;
    LaterBegin(st.s, kind, now, haveId, stored);
    if st'.client.ClientDone? { LaterExit(st.s, s', st'.client.result); }
  }

  lemma ClientQuietLater(st: State, a: ClientAction, st': State)
    requires Bounded(st.s) && ClientStep(st, a) == Some(st') && !a.ClientBegin? && !a.ClientInterrupt?
    ensures Later(st.s, st'.s)
  {
    LaterSelf(st.s);
    if st'.client.ClientDone? { LaterExit(st.s, st.s, st'.client.result); }
  }

  lemma ClientLater(st: State, a: ClientAction, st': State)
    requires Bounded(st.s) && ClientStep(st, a) == Some(st')
    ensures Later(st.s, st'.s)
  {
    match a {
      case ClientBegin(kind, now, haveId, stored) => ClientBeginLater(st, kind, now, haveId, stored, st');
      case ClientInterrupt =>
        LaterSelf(st.s);
        LaterInterrupt(st.s, st.client.interruptId);
      case _ => ClientQuietLater(st, a, st');
    }
  }

  lemma LaterFinishExit(s: Session, operation: OpId, status: RequestStatus, cause: RequestStatus)
    requires operation < |s.ops|
    ensures Later(s, RecordExitCause(FinishOperation(s, operation, status), cause))
  {
    LaterFinish(s, operation, status);
    LaterExit(s, FinishOperation(s, operation, status), cause);
  }

  lemma CoreFinishLater(st: State, st': State)
    requires Bounded(st.s) && CoreStep(st, CoreFinishes) == Some(st')
    ensures Later(st.s, st'.s)
  {
    var operation := CoreHeld(st.core).value;
    var status := if st.core.CoreTaken? then st.core.outcome else UpstreamError;
    LaterFinish(st.s, operation, status);
    if st'.core.CoreDone? { LaterFinishExit(st.s, operation, status, st'.core.result); }
  }

  lemma CoreRespondsLater(st: State, now: int, st': State)
    requires Bounded(st.s) && CoreStep(st, CoreResponds(now)) == Some(st')
    ensures Later(st.s, st'.s)
  {
    LaterRespond(st.s, now);
    LaterExit(st.s, ObserveCoreResponse(st.s, now), UpstreamError);
  }

  lemma CoreObservesLater(st: State, st': State)
    requires Bounded(st.s) && CoreStep(st, CoreObserves) == Some(st')
    ensures Later(st.s, st'.s)
  {
    LaterObserve(st.s, st.core.event, TerminalStatus(st.core.event.kind).Some?);
  }

  lemma CoreFrameLater(st: State, envelope: Envelope, st': State)
    requires Bounded(st.s) && CoreStep(st, CoreFrame(envelope)) == Some(st')
    ensures Later(st.s, st'.s)
  {
    LaterFailed(st.s, ParseWebSocketEvent(envelope));
  }

  lemma CoreControlLater(st: State, value: string, st': State)
    requires Bounded(st.s) && CoreStep(st, CoreControl(value)) == Some(st')
    ensures Later(st.s, st'.s)
  {
    LaterProvider(st.s, value);
  }

  lemma CoreDetachesLater(st: State, now: int, st': State)
    requires Bounded(st.s) && CoreStep(st, CoreDetaches(now)) == Some(st')
    ensures Later(st.s, st'.s)
  {
    LaterDetach(st.s, now);
  }

  lemma CoreCompletesLater(st: State, st': State)
    requires Bounded(st.s) && CoreStep(st, CoreCompletes) == Some(st')
    ensures Later(st.s, st'.s)
  {
    LaterTakeActive(st.s);
  }

  lemma LaterSelf(s: Session)
    ensures Later(s, s)
  {
  }

  lemma CoreQuietLater(st: State, a: CoreAction, st': State)
    requires Bounded(st.s) && CoreStep(st, a) == Some(st')
    requires a.CoreFails? || a.CoreUnparsed? || a.CoreClassifies? || a.CoreWrites?
    ensures Later(st.s, st'.s)
  {
    LaterSelf(st.s);
    if st'.core.CoreDone? { LaterExit(st.s, st.s, st'.core.result); }
  }

  lemma CoreLater(st: State, a: CoreAction, st': State)
    requires Bounded(st.s) && CoreStep(st, a) == Some(st')
    ensures Later(st.s, st'.s)
  {
    match a {
      case CoreControl(value) => CoreControlLater(st, value, st');
      case CoreFrame(envelope) => CoreFrameLater(st, envelope, st');
      case CoreResponds(now) => CoreRespondsLater(st, now, st');
      case CoreObserves => CoreObservesLater(st, st');
      case CoreDetaches(now) => CoreDetachesLater(st, now, st');
      case CoreCompletes => CoreCompletesLater(st, st');
      case CoreFinishes => CoreFinishLater(st, st');
      case _ => CoreQuietLater(st, a, st');
    }
  }

  lemma RunFinishLater(st: State, st': State)
    requires Bounded(st.s) && RunStep(st, RunFinishes) == Some(st')
    ensures Later(st.s, st'.s)
  {
    LaterFinish(st.s, RunHeld(st.run).value, if st.run.RunActive? then st.run.status else UpstreamError);
  }

  lemma RunTakesActiveLater(st: State, st': State)
    requires Bounded(st.s) && RunStep(st, RunTakesActive) == Some(st')
    ensures Later(st.s, st'.s)
  {
    LaterTakeActive(st.s);
  }

  /** The other steps of the run loop leave the operations alone. */
  lemma RunQuietStep(st: State, a: RunAction, st': State)
    requires Bounded(st.s) && RunStep(st, a) == Some(st') && !a.RunFinishes? && !a.RunTakesActive?
    ensures st'.s.ops == st.s.ops && LaterFlags(st.s, st'.s)
  {
  }

  lemma LaterSameOps(s: Session, s': Session)
    requires LaterFlags(s, s') && s'.ops == s.ops
    ensures Later(s, s')
  {
  }

  lemma RunLater(st: State, a: RunAction, st': State)
    requires Bounded(st.s) && RunStep(st, a) == Some(st')
    ensures Later(st.s, st'.s)
  {
    match a {
      case RunFinishes => RunFinishLater(st, st');
      case RunTakesActive => RunTakesActiveLater(st, st');
      case _ =>
        RunQuietStep(st, a, st');
        LaterSameOps(st.s, st'.s);
    }
  }

  lemma StepLater(st: State, a: Action, st': State)
    requires Bounded(st.s) && Step(st, a) == Some(st')
    ensures Later(st.s, st'.s)
  {
    match a {
      case Client(c) => ClientLater(st, c, st');
      case Core(c) => CoreLater(st, c, st');
      case Run(r) => RunLater(st, r, st');
      case _ => LaterSameOps(st.s, st'.s);
    }
  }

  lemma NextLater(st: State, st': State)
    requires Next(st, st')
    ensures Later(st.s, st'.s)
  {
    var a :| Step(st, a) == Some(st');
    StepLater(st, a, st');
  }

  lemma LaterAt(tr: seq<State>, i: nat)
    requires IsRun(tr) && 0 < i < |tr|
    ensures Later(tr[i - 1].s, tr[i].s)
  {
    assert StepAt(tr, i);
    NextLater(tr[i - 1], tr[i]);
  }

  lemma {:induction false} LaterInRun(tr: seq<State>, i: nat, j: nat)
    requires IsRun(tr) && i <= j < |tr|
    ensures Later(tr[i].s, tr[j].s)
  {
    if i == j {
      LaterSelf(tr[i].s);
    } else {
      LaterInRun(tr, i, j - 1);
      LaterAt(tr, j);
      LaterTrans(tr[i].s, tr[j - 1].s, tr[j].s);
    }
  }

  /** After the core pump has observed an error or a response.failed, no create is ever admitted:
      no operation is even allocated. */
  lemma NoCreateAfterFailure(tr: seq<State>, i: nat, j: nat)
    requires IsRun(tr) && i <= j < |tr|
    requires tr[i].core.CoreObserved?
    requires tr[i].core.event.kind == Error || tr[i].core.event.kind == ResponseFailed
    ensures tr[j].s.retired && |tr[j].s.ops| == |tr[i].s.ops|
  {
    RunInv(tr, i);
    LaterInRun(tr, i, j);
  }

  // ----- Terminal hand-off -------------------------------------------------------------

  /** terminalReady is closed exactly once, when the operation leaves `active`, and a create that
      waits on it is never left behind: the channel is closed or the operation is still pending. */
  lemma ReadyClosedOnce(tr: seq<State>, i: OpId)
    requires IsRun(tr) && i < |tr[|tr| - 1].s.ops|
    ensures var st := tr[|tr| - 1];
            && st.s.ops[i].closes == Count(st.s.ops[i].startedInStore && st.s.active != Some(i))
            && (st.client.ClientWaiting? && st.client.operation == i ==>
                  st.s.ops[i].closes == 1 || (st.s.active == Some(i) && st.s.ops[i].terminalPending))
  {
    RunInv(tr, |tr| - 1);
    assert OpOk(tr[|tr| - 1].s, i);
  }

  /** Once an event marked an operation terminal-pending, completeActive takes that operation, or
      nothing because the session was cancelled meanwhile; never a create that came later. */
  lemma HandOff(tr: seq<State>)
    requires IsRun(tr) && tr[|tr| - 1].core.CoreCompleting? && tr[|tr| - 1].core.marked.Some?
    ensures var st := tr[|tr| - 1];
            && Bounded(st.s)
            && (TakeActive(st.s).1 == st.core.marked || (TakeActive(st.s).1.None? && st.s.cancelled))
  {
    RunInv(tr, |tr| - 1);
  }

  /** The core pump is between the observation of an event and completeActive. */
  ghost predicate Pending(core: CorePc) {
    core.CoreObserved? || (core.CoreWriting? && core.ending.Some?) || core.CoreCompleting?
  }

  /** State i is the one in which the event handled in state n was observed. */
  ghost predicate ObservedAt(tr: seq<State>, i: nat, n: nat)
    requires n < |tr|
  {
    && 0 < i <= n && tr[i - 1].core.CoreTimed? && tr[i].core.CoreObserved? && Pending(tr[n].core)
    && tr[i].core.marked == tr[n].core.marked
    && tr[i].core.marked == (if TerminalStatus(tr[i].core.event.kind).Some? then tr[i].s.active else None)
    && (!tr[n].core.CoreObserved? ==> TerminalStatus(tr[i].core.event.kind).Some?)
    && forall j :: i <= j <= n ==> Pending(tr[j].core)
  }

  /** One step of the core pump while an event is pending. */
  lemma PendingStep(st: State, a: Action, st': State)
    requires Bounded(st.s) && Step(st, a) == Some(st') && Pending(st'.core)
    ensures st.core.CoreTimed? ==>
              && st'.core.CoreObserved?
              && st'.core.marked == (if TerminalStatus(st'.core.event.kind).Some? then st'.s.active else None)
    ensures !st.core.CoreTimed? ==>
              && Pending(st.core) && st'.core.marked == st.core.marked
              && (st'.core.CoreObserved? ==> st'.core == st.core)
              && (!st'.core.CoreObserved? ==> !st.core.CoreObserved? || TerminalStatus(st.core.event.kind).Some?)
  {
  }

  lemma {:induction false} ObservationOf(tr: seq<State>, n: nat) returns (i: nat)
    requires IsRun(tr) && n < |tr| && Pending(tr[n].core)
    ensures ObservedAt(tr, i, n) && (tr[n].core.CoreObserved? ==> tr[i].core.event == tr[n].core.event)
  {
    assert n > 0;
    assert StepAt(tr, n);
    var a :| Step(tr[n - 1], a) == Some(tr[n]);
    PendingStep(tr[n - 1], a, tr[n]);
    if tr[n - 1].core.CoreTimed? {
      i := n;
    } else {
      i := ObservationOf(tr, n - 1);
    }
  }

  /** An operation that is not active is never active again. */
  lemma NeverActiveAgain(tr: seq<State>, i: nat, j: nat, k: OpId)
    requires IsRun(tr) && i <= j < |tr| && k < |tr[i].s.ops| && tr[i].s.active != Some(k)
    ensures tr[j].s.active != Some(k)
  {
    RunInv(tr, i);
    RunInv(tr, j);
    LaterInRun(tr, i, j);
    assert OpOk(tr[i].s, k) && LaterOp(tr[i].s.ops[k], tr[j].s.ops[k]);
    assert OpOk(tr[j].s, k) && Located(tr[j], k) == Count(tr[j].s.ops[k].startedInStore);
  }

  /** Exactly when the hand-off is right: an operation that completeActive takes existed when the terminal event was
      observed if and only if an operation was active then, and in that case it is that one. With nothing active, it
      is an operation created after the observation. */
  lemma HandOffExact(tr: seq<State>, k: OpId) returns (i: nat)
    requires IsRun(tr) && tr[|tr| - 1].core.CoreCompleting?
    requires Bounded(tr[|tr| - 1].s) && TakeActive(tr[|tr| - 1].s).1 == Some(k)
    ensures ObservedAt(tr, i, |tr| - 1)
    ensures tr[i].s.active.Some? <==> k < |tr[i].s.ops|
    ensures tr[i].s.active.Some? ==> tr[i].s.active == Some(k)
  {
    var n := |tr| - 1;
    i := ObservationOf(tr, n);
    RunInv(tr, i);
    if tr[n].core.marked.Some? { HandOff(tr); }
    if k < |tr[i].s.ops| && tr[i].s.active != Some(k) { NeverActiveAgain(tr, i, n, k); }
  }

  /** A response.incomplete that was classified as a requested interrupt does not retire the session,
      although the classification and the observation take the lock separately. */
  lemma InterruptKeepsSessionOpen(tr: seq<State>, i: nat)
    requires IsRun(tr) && 0 < i < |tr|
    requires tr[i - 1].core.CoreTimed? && tr[i].core.CoreObserved?
    requires tr[i].core.event.kind == ResponseIncomplete && tr[i].core.status == Some(Completed)
    ensures tr[i].s.retired ==> tr[i - 1].s.retired || tr[i - 1].s.cancelled
  {
    RunInv(tr, i - 1);
    assert StepAt(tr, i);
    var a :| Step(tr[i - 1], a) == Some(tr[i]);
    OnlyObservation(tr[i - 1], a, tr[i]);
    ObservedInterrupt(tr[i - 1]);
  }

  lemma OnlyObservation(st: State, a: Action, st': State)
    requires Bounded(st.s) && Step(st, a) == Some(st') && st.core.CoreTimed? && st'.core.CoreObserved?
    ensures a == Core(CoreObserves)
  {
  }

  lemma ObservedInterrupt(st: State)
    requires Bounded(st.s) && st.core.CoreTimed? && InterruptOk(st.s, st.core.event, st.core.status)
    requires st.core.event.kind == ResponseIncomplete && st.core.status == Some(Completed)
    ensures CoreStep(st, CoreObserves).value.s.retired ==> st.s.retired || st.s.cancelled
  {
  }

  // ----- Usage attribution -------------------------------------------------------------

  /** Every event that wrote the usage of an operation bound to a response carried the identifier
      of that response, or none. */
  lemma UsageFromOwnResponse(tr: seq<State>, i: OpId, writer: string)
    requires IsRun(tr) && i < |tr[|tr| - 1].s.ops|
    requires tr[|tr| - 1].s.ops[i].responseId != "" && writer in tr[|tr| - 1].s.ops[i].writers
    ensures writer == "" || writer == tr[|tr| - 1].s.ops[i].responseId
  {
    RunInv(tr, |tr| - 1);
    assert OpOk(tr[|tr| - 1].s, i);
  }

  // ----- The race that remains ---------------------------------------------------------

  ghost function StrayRun(): seq<State> {
    var e := Event(ResponseCompleted, None, "", false, false);
    var s0 := NewSession(None);
    var s1 := s0.(ops := [NewOperation(s0, "inference", 0, true)], active := Some(0), generation := 1);
    var ended := CoreWriting(None, Some(Completed), None);
    [ State(s0, ClientReading, CoreReading, RunSelecting),
      State(s0, ClientReading, CoreChecked(e, None, false), RunSelecting),
      State(s0, ClientReading, CoreClassified(e, None, false, Some(Completed)), RunSelecting),
      State(s0, ClientReading, CoreTimed(e, Some(Completed)), RunSelecting),
      State(s0, ClientReading, CoreObserved(e, Some(Completed), None), RunSelecting),
      State(s0, ClientReading, ended, RunSelecting),
      State(s0, ClientBeginning(""), ended, RunSelecting),
      State(s1, ClientInterrupting(""), ended, RunSelecting),
      State(s1, ClientInterrupting(""), CoreCompleting(Completed, None), RunSelecting),
      State(TakeActive(s1).0, ClientInterrupting(""), CoreTaken(0, Completed, None), RunSelecting) ]
  }

  lemma StrayEventArrives(i: nat)
    requires 0 < i <= 2
    ensures StepAt(StrayRun(), i)
  {
    var tr := StrayRun();
    var frame := Envelope(ResponseCompleted, true, "", "", "", 0, 0, None);
    if i == 1 { assert Step(tr[0], Core(CoreFrame(frame))) == Some(tr[1]); }
    else { assert Step(tr[1], Core(CoreClassifies)) == Some(tr[2]); }
  }

  lemma StrayEventObserved(i: nat)
    requires 2 < i <= 5
    ensures StepAt(StrayRun(), i)
  {
    var tr := StrayRun();
    if i == 3 { assert Step(tr[2], Core(CoreResponds(0))) == Some(tr[3]); }
    else if i == 4 { assert Step(tr[3], Core(CoreObserves)) == Some(tr[4]); }
    else { assert Step(tr[4], Core(CoreDetaches(0))) == Some(tr[5]); }
  }

  lemma StrayCreateAdmitted(i: nat)
    requires 5 < i <= 7
    ensures StepAt(StrayRun(), i)
  {
    var tr := StrayRun();
    if i == 6 {
      assert Step(tr[5], Client(ClientFrame(true, ""))) == Some(tr[6]);
    } else {
      assert tr[6].s.ops + tr[7].s.ops == tr[7].s.ops;
      assert Step(tr[6], Client(ClientBegin("inference", 0, true, true))) == Some(tr[7]);
    }
  }

  lemma StrayCreateCompleted(i: nat)
    requires 7 < i < 10
    ensures StepAt(StrayRun(), i)
  {
    var tr := StrayRun();
    if i == 8 { assert Step(tr[7], Core(CoreWrites(true))) == Some(tr[8]); }
    else { assert Step(tr[8], Core(CoreCompletes)) == Some(tr[9]); }
  }

  /** Without a marked operation the guarantee of HandOff does not hold: a terminal event that
      arrives while nothing is active completes an operation created before completeActive runs. */
  lemma StrayTerminalCompletesLaterCreate()
    ensures exists tr: seq<State> :: IsRun(tr) && tr[|tr| - 1].core == CoreTaken(0, Completed, None)
  {
    var tr := StrayRun();
    forall i | 0 < i < |tr| ensures StepAt(tr, i) {
      if i <= 2 { StrayEventArrives(i); }
      else if i <= 5 { StrayEventObserved(i); }
      else if i <= 7 { StrayCreateAdmitted(i); }
      else { StrayCreateCompleted(i); }
    }
    assert IsRun(tr);
  }
}
