/** What every interleaving of the three session threads keeps. */
module SessionInvariant {
  import opened Domain
  import opened SessionState
  import opened SessionProtocol

  // ----- Where an operation is ---------------------------------------------------------

  function CoreHeld(core: CorePc): Option<OpId> {
    match core
    case CoreChecked(_, failed, _) => failed
    case CoreClassified(_, failed, _, _) => failed
    case CorePrevious(operation) => Some(operation)
    case CoreWriting(failed, _, _) => failed
    case CoreFooter(operation, _) => Some(operation)
    case CoreTaken(operation, _, _) => Some(operation)
    case _ => None
  }

  function RunHeld(run: RunPc): Option<OpId> {
    match run
    case RunExpired(operation) => Some(operation)
    case RunFooter(operation, _) => Some(operation)
    case RunActive(operation, _) => Some(operation)
    case RunFailed(operation) => Some(operation)
    case _ => None
  }

  function Count(b: bool): nat {
    if b then 1 else 0
  }

  /** How many times an operation is in `active`, in `failed` or handed to finishOperation. */
  function Present(s: Session, i: OpId): nat
    requires i < |s.ops|
  {
    Count(s.active == Some(i)) + Count(s.failed.Some? && s.failed.value.operation == i) + |s.ops[i].finishes|
  }

  /** The same, with the hands of the core pump and of the run loop. */
  function Located(st: State, i: OpId): nat
    requires i < |st.s.ops|
  {
    Present(st.s, i) + Count(CoreHeld(st.core) == Some(i)) + Count(RunHeld(st.run) == Some(i))
  }

  ghost predicate Places(st: State) {
    forall i :: 0 <= i < |st.s.ops| ==> Located(st, i) == Count(st.s.ops[i].startedInStore)
  }

  // ----- The shared fields -------------------------------------------------------------

  ghost predicate Fields(s: Session) {
    && Bounded(s)
    && s.generation == |s.ops|
    && (s.active.Some? ==> s.active.value == |s.ops| - 1)
    && (s.failed.Some? ==>
          && s.retired && s.active.None?
          && s.failed.value.operation == |s.ops| - 1
          && s.failed.value.generation == s.generation)
    && (s.failedResponseObserved ==> s.retired)
  }

  ghost predicate WrittenBy(op: Operation, id: string) {
    forall w :: w in op.writers ==> w == "" || w == id
  }

  ghost predicate AllUpstreamErrors(finishes: seq<RequestStatus>) {
    forall k :: 0 <= k < |finishes| ==> finishes[k] == UpstreamError
  }

  /** One operation: terminalReady is closed once, when the operation leaves `active`; usage comes
      from its own response; a detached operation ends as an upstream error. */
  ghost predicate OpOk(s: Session, i: OpId)
    requires i < |s.ops|
  {
    var op := s.ops[i];
    && op.closes == Count(op.startedInStore && s.active != Some(i))
    && (s.active == Some(i) ==> op.startedInStore && !op.detached)
    && (op.responseId != "" ==> WrittenBy(op, op.responseId))
    && (op.responseId == "" && (s.active == Some(i) || (s.failed.Some? && s.failed.value.operation == i)) ==>
          WrittenBy(op, ""))
    && (op.detached ==> AllUpstreamErrors(op.finishes))
  }

  ghost predicate Ops(s: Session) {
    forall i :: 0 <= i < |s.ops| ==> OpOk(s, i)
  }

  // ----- The threads -------------------------------------------------------------------

  ghost predicate ClientOk(s: Session, client: ClientPc) {
    client.ClientWaiting? ==>
      && client.operation < |s.ops|
      && (s.ops[client.operation].closes > 0
          || (s.active == Some(client.operation) && s.ops[client.operation].terminalPending))
  }

  /** An operation marked terminal-pending is still the active one, or the session is cancelled
      and nothing is active any more. */
  ghost predicate MarkOk(s: Session, marked: Option<OpId>) {
    marked.Some? ==>
      && marked.value < |s.ops| && s.ops[marked.value].terminalPending
      && (s.active == marked || (s.active.None? && s.cancelled))
  }

  /** A response that was classified as interrupted still is, or the session is cancelled and
      nothing is active any more. */
  ghost predicate InterruptOk(s: Session, e: Event, status: Option<RequestStatus>)
    requires Bounded(s)
  {
    e.kind == ResponseIncomplete && status == Some(Completed) ==>
      Interrupted(s, e) || (s.active.None? && s.cancelled)
  }

  ghost predicate CoreOk(s: Session, core: CorePc)
    requires Bounded(s)
  {
    && (CoreHeld(core).Some? ==> CoreHeld(core).value < |s.ops|)
    && match core
       case CoreChecked(event, failed, belongs) =>
         WellFormedEvent(event) && (failed.Some? ==> belongs && s.retired) && (!belongs ==> !Foreign(s, event))
       case CoreClassified(event, failed, belongs, status) =>
         && WellFormedEvent(event) && (failed.Some? ==> belongs && s.retired) && (!belongs ==> !Foreign(s, event))
         && InterruptOk(s, event, status)
       case CoreTimed(event, status) => WellFormedEvent(event) && !Foreign(s, event) && InterruptOk(s, event, status)
       case CoreObserved(event, _, marked) =>
         WellFormedEvent(event) && (event.kind == Error || event.kind == ResponseFailed ==> s.retired)
         && MarkOk(s, marked)
       case CorePrevious(_) => false
       case CoreWriting(_, _, marked) => MarkOk(s, marked)
       case CoreCompleting(_, marked) => MarkOk(s, marked)
       case CoreTaken(operation, _, marked) =>
         (marked.Some? ==> marked.value == operation) && !s.ops[operation].detached
       case _ => true
  }

  ghost predicate RunOk(s: Session, run: RunPc) {
    && (RunHeld(run).Some? ==> RunHeld(run).value < |s.ops|)
    && (run.RunTakingActive? || run.RunActive? || run.RunTakingFailed? || run.RunFailed? || run.RunDone? ==>
          s.cancelled)
    && (run.RunActive? || run.RunTakingFailed? || run.RunFailed? || run.RunDone? ==> s.active.None?)
    && (run.RunFailed? || run.RunDone? ==> s.failed.None?)
    && (run.RunActive? ==> !s.ops[run.operation].detached)
  }

  ghost predicate Inv(st: State) {
    && Fields(st.s)
    && Ops(st.s)
    && Places(st)
    && ClientOk(st.s, st.client)
    && CoreOk(st.s, st.core)
    && RunOk(st.s, st.run)
  }

  // ----- Preservation ------------------------------------------------------------------

  lemma InitInv(st: State)
    requires Init(st)
    ensures Inv(st)
  {
  }

  // Sections that leave the fate of every operation alone.

  ghost predicate SameFate(op: Operation, op': Operation) {
    && op'.startedInStore == op.startedInStore && op'.closes == op.closes && op'.detached == op.detached
    && op'.writers == op.writers && op'.responseId == op.responseId
    && op'.terminalPending == op.terminalPending && op'.finishes == op.finishes
    && (op.interruptRequested ==> op'.interruptRequested)
  }

  ghost predicate Soft(s: Session, s': Session) {
    && |s'.ops| == |s.ops|
    && (forall i :: 0 <= i < |s.ops| ==> SameFate(s.ops[i], s'.ops[i]))
    && s'.active == s.active && s'.failed == s.failed && s'.generation == s.generation
    && s'.retired == s.retired && s'.failedResponseObserved == s.failedResponseObserved
    && (s.cancelled ==> s'.cancelled)
  }

  lemma SoftFlags(s: Session, status: RequestStatus)
    requires Bounded(s)
    ensures Soft(s, s) && Soft(s, RecordExitCause(s, status))
    ensures Soft(s, s.(cancelled := true)) && Soft(s, s.(stopping := true))
  {
  }

  lemma SoftRespond(s: Session, now: int)
    requires Bounded(s)
    ensures Soft(s, ObserveCoreResponse(s, now))
    ensures Soft(s, RecordExitCause(ObserveCoreResponse(s, now), UpstreamError))
  {
    SoftFlags(ObserveCoreResponse(s, now), UpstreamError);
  }

  lemma SoftProvider(s: Session, value: string)
    requires Bounded(s)
    ensures Soft(s, ObserveProviderRequestId(s, value))
  {
  }

  lemma SoftInterrupt(s: Session, responseId: string)
    requires Bounded(s)
    ensures Soft(s, RequestInterrupt(s, responseId))
  {
  }

  lemma SoftOps(s: Session, s': Session)
    requires Soft(s, s') && Ops(s)
    ensures Ops(s')
  {
    forall i | 0 <= i < |s'.ops| ensures OpOk(s', i) {
      assert OpOk(s, i) && SameFate(s.ops[i], s'.ops[i]);
    }
  }

  lemma SoftCore(s: Session, s': Session, core: CorePc)
    requires Bounded(s) && Soft(s, s') && CoreOk(s, core)
    ensures Bounded(s') && CoreOk(s', core)
  {
  }

  lemma SoftStep(st: State, st': State)
    requires Inv(st) && Soft(st.s, st'.s)
    requires CoreHeld(st'.core) == CoreHeld(st.core) && RunHeld(st'.run) == RunHeld(st.run)
    requires ClientOk(st.s, st'.client) && CoreOk(st.s, st'.core) && RunOk(st'.s, st'.run)
    ensures Inv(st')
  {
    SoftOps(st.s, st'.s);
    SoftCore(st.s, st'.s, st'.core);
    forall i | 0 <= i < |st'.s.ops| ensures Located(st', i) == Count(st'.s.ops[i].startedInStore) {
      assert Located(st, i) == Count(st.s.ops[i].startedInStore);
      assert SameFate(st.s.ops[i], st'.s.ops[i]);
    }
  }

  // Sections that move operations. `Moved` says which operation leaves the session (to a thread)
  // and which one comes back.

  ghost predicate Moved(s: Session, s': Session, taken: Option<OpId>, back: Option<OpId>) {
    && |s'.ops| == |s.ops|
    && forall i :: 0 <= i < |s.ops| ==>
         && s'.ops[i].startedInStore == s.ops[i].startedInStore
         && Present(s', i) + Count(taken == Some(i)) == Present(s, i) + Count(back == Some(i))
  }

  lemma MovedStep(st: State, st': State, taken: Option<OpId>, back: Option<OpId>)
    requires Inv(st) && Moved(st.s, st'.s, taken, back)
    requires || (st'.run == st.run && CoreHeld(st.core) == back && CoreHeld(st'.core) == taken)
             || (CoreHeld(st'.core) == CoreHeld(st.core) && RunHeld(st.run) == back && RunHeld(st'.run) == taken)
    requires Fields(st'.s) && Ops(st'.s)
    requires ClientOk(st'.s, st'.client) && CoreOk(st'.s, st'.core) && RunOk(st'.s, st'.run)
    ensures Inv(st')
  {
    forall i | 0 <= i < |st'.s.ops| ensures Located(st', i) == Count(st'.s.ops[i].startedInStore) {
      assert Located(st, i) == Count(st.s.ops[i].startedInStore);
    }
  }

  /** What a section never takes back. */
  ghost predicate Forward(s: Session, s': Session) {
    && |s'.ops| == |s.ops|
    && (forall i :: 0 <= i < |s.ops| ==>
          && (s.ops[i].terminalPending ==> s'.ops[i].terminalPending)
          && s.ops[i].closes <= s'.ops[i].closes
          && s'.ops[i].startedInStore == s.ops[i].startedInStore
          && (s'.ops[i].detached ==> s.ops[i].detached || s.active == Some(i)))
    && (s.retired ==> s'.retired) && s'.cancelled == s.cancelled
    && (s'.active == s.active || s'.active.None?)
    && (s'.failed.Some? ==> s.failed.Some? || s.active.Some?)
  }

  lemma TakeActiveKeeps(s: Session)
    requires Fields(s) && Ops(s)
    ensures var (s', taken) := TakeActive(s); Fields(s') && Ops(s') && Moved(s, s', taken, None) && Forward(s, s')
  {
    var (s', taken) := TakeActive(s);
    forall i | 0 <= i < |s'.ops| ensures OpOk(s', i) { assert OpOk(s, i); }
  }

  lemma TakeFailedKeeps(s: Session)
    requires Fields(s) && Ops(s)
    ensures var (s', taken) := TakeFailedOperation(s);
            Fields(s') && Ops(s') && Moved(s, s', taken, None) && Forward(s, s')
  {
    var (s', taken) := TakeFailedOperation(s);
    forall i | 0 <= i < |s'.ops| ensures OpOk(s', i) { assert OpOk(s, i); }
  }

  lemma FinishKeeps(s: Session, operation: OpId, status: RequestStatus)
    requires Fields(s) && Ops(s) && operation < |s.ops|
    requires s.ops[operation].detached ==> status == UpstreamError
    ensures var s' := FinishOperation(s, operation, status);
            Fields(s') && Ops(s') && Moved(s, s', None, Some(operation)) && Forward(s, s')
  {
    var s' := FinishOperation(s, operation, status);
    forall i | 0 <= i < |s'.ops| ensures OpOk(s', i) { assert OpOk(s, i); }
  }

  lemma DetachKeeps(s: Session, now: int)
    requires Fields(s) && Ops(s) && s.retired && (s.active.Some? ==> |s.ops[s.active.value].finishes| == 0)
    ensures var (s', previous) := DetachFailedOperation(s, now);
            Fields(s') && Ops(s') && previous.None? && Moved(s, s', None, None) && Forward(s, s')
  {
    var (s', previous) := DetachFailedOperation(s, now);
    forall i | 0 <= i < |s'.ops| ensures OpOk(s', i) { assert OpOk(s, i); }
  }

  lemma FailedEventKeeps(s: Session, e: Event)
    requires Fields(s) && Ops(s)
    ensures var r := FailedServerEvent(s, e);
            && Fields(r.session) && Ops(r.session) && Moved(s, r.session, r.operation, None) && Forward(s, r.session)
            && (r.operation.Some? ==> r.belongs && r.session.retired)
            && (!r.belongs ==> !Foreign(r.session, e))
  {
    var r := FailedServerEvent(s, e);
    forall i | 0 <= i < |r.session.ops| ensures OpOk(r.session, i) { assert OpOk(s, i); }
  }

  /** An operation that took in an event of its own response. */
  ghost predicate Recorded(op: Operation, op': Operation) {
    && WrittenBy(op', op'.responseId) && (op.terminalPending ==> op'.terminalPending)
    && op'.startedInStore == op.startedInStore && op'.closes == op.closes
    && op'.detached == op.detached && op'.finishes == op.finishes
  }

  lemma RecordEventKeeps(op: Operation, e: Event, terminal: bool)
    requires WrittenBy(op, op.responseId)
    requires op.responseId != "" && e.responseId != "" ==> op.responseId == e.responseId
    ensures Recorded(op, RecordEvent(op, e, terminal))
    ensures terminal ==> RecordEvent(op, e, terminal).terminalPending
  {
  }

  lemma RecordedKeeps(s: Session, op: Operation, retired: bool)
    requires Fields(s) && Ops(s) && s.active.Some? && Recorded(ActiveOp(s), op) && (s.retired ==> retired)
    ensures var s' := s.(ops := s.ops[s.active.value := op], retired := retired);
            Fields(s') && Ops(s') && Moved(s, s', None, None) && Forward(s, s')
  {
    var s' := s.(ops := s.ops[s.active.value := op], retired := retired);
    forall i | 0 <= i < |s'.ops| ensures OpOk(s', i) { assert OpOk(s, i); }
  }

  lemma ObserveKeeps(s: Session, e: Event, terminal: bool)
    requires Fields(s) && Ops(s) && !Foreign(s, e)
    ensures var s' := ObserveServerEvent(s, e, terminal);
            && Fields(s') && Ops(s') && Moved(s, s', None, None) && Forward(s, s')
            && s'.active == s.active
            && (e.kind == Error || e.kind == ResponseFailed ==> s'.retired)
            && (terminal && s.active.Some? ==> s'.ops[s.active.value].terminalPending)
  {
    if s.active.Some? {
      assert OpOk(s, s.active.value);
      RecordEventKeeps(ActiveOp(s), e, terminal);
      RecordedKeeps(s, RecordEvent(ActiveOp(s), e, terminal), s.retired || Retires(s, e));
    } else {
      var s' := ObserveServerEvent(s, e, terminal);
      forall i | 0 <= i < |s'.ops| ensures OpOk(s', i) { assert OpOk(s, i); }
    }
  }

  lemma OthersOfCore(st: State, s': Session)
    requires Inv(st) && Forward(st.s, s') && Fields(s') && Ops(s')
    ensures ClientOk(s', st.client) && RunOk(s', st.run)
  {
    if st.client.ClientWaiting? {
      assert OpOk(st.s, st.client.operation) && OpOk(s', st.client.operation);
    }
  }

  lemma OthersOfRun(st: State, s': Session)
    requires Inv(st) && Forward(st.s, s') && Fields(s') && Ops(s')
    requires s'.active == st.s.active || (s'.active.None? && s'.cancelled)
    requires forall i :: 0 <= i < |s'.ops| ==>
               && s'.ops[i].responseId == st.s.ops[i].responseId && s'.ops[i].detached == st.s.ops[i].detached
               && s'.ops[i].interruptRequested == st.s.ops[i].interruptRequested
    ensures ClientOk(s', st.client) && CoreOk(s', st.core)
  {
    if st.client.ClientWaiting? {
      assert OpOk(st.s, st.client.operation) && OpOk(s', st.client.operation);
    }
  }

  // ----- One step of a thread ------------------------------------------------------------

  lemma BegunKeeps(st: State, kind: string, now: int, stored: bool)
    requires Inv(st) && !st.s.retired && st.s.active.None? && !st.s.cancelled && !st.s.stopping
    ensures Inv(st.(s := BeginOperation(st.s, kind, now, true, stored).0, client := ClientReading))
  {
    var s' := BeginOperation(st.s, kind, now, true, stored).0;
    var st' := st.(s := s', client := ClientReading);
    forall i | 0 <= i < |s'.ops|
      ensures OpOk(s', i) && Located(st', i) == Count(s'.ops[i].startedInStore)
    {
      if i < |st.s.ops| {
        assert OpOk(st.s, i) && Located(st, i) == Count(st.s.ops[i].startedInStore);
      }
    }
  }

  lemma ClientExitKeeps(st: State, status: RequestStatus)
    requires Inv(st)
    ensures Inv(ClientExit(st, status))
  {
    SoftFlags(st.s, status);
    SoftStep(st, ClientExit(st, status));
  }

  lemma ClientMoves(st: State, client: ClientPc)
    requires Inv(st) && ClientOk(st.s, client)
    ensures Inv(st.(client := client))
  {
    SoftFlags(st.s, UpstreamError);
    SoftStep(st, st.(client := client));
  }

  lemma BeginKeeps(st: State, kind: string, now: int, haveId: bool, stored: bool)
    requires Inv(st) && st.client.ClientBeginning?
    ensures Inv(ClientStep(st, ClientBegin(kind, now, haveId, stored)).value)
  {
    var (s', result) := BeginOperation(st.s, kind, now, haveId, stored);
    var id := st.client.interruptId;
    match result {
      case Retired => ClientExitKeeps(st, UpstreamError);
      case MustWait(operation) => ClientMoves(st, ClientWaiting(operation, id));
      case Overlapping | Cancelled | NoRequestId => ClientExitKeeps(st, Disconnected);
      case StoreRefused =>
        BegunKeeps(st, kind, now, stored);
        ClientExitKeeps(st.(s := s', client := ClientReading), Disconnected);
      case Begun =>
        BegunKeeps(st, kind, now, stored);
        ClientMoves(st.(s := s', client := ClientReading), ClientInterrupting(id));
    }
  }

  lemma ClientInterruptKeeps(st: State, st': State)
    requires Inv(st) && ClientStep(st, ClientInterrupt) == Some(st')
    ensures Inv(st')
  {
    SoftInterrupt(st.s, st.client.interruptId);
    SoftFlags(st.s, UpstreamError);
    SoftStep(st, st');
  }

  lemma ClientQuietKeeps(st: State, a: ClientAction, st': State)
    requires Inv(st) && ClientStep(st, a) == Some(st') && !a.ClientBegin? && !a.ClientInterrupt?
    ensures Inv(st')
  {
    if st'.client.ClientDone? {
      ClientExitKeeps(st, st'.client.result);
    } else {
      ClientMoves(st, st'.client);
    }
  }

  lemma ClientKeeps(st: State, a: ClientAction, st': State)
    requires Inv(st) && ClientStep(st, a) == Some(st')
    ensures Inv(st')
  {
    if a.ClientBegin? {
      BeginKeeps(st, a.kind, a.now, a.haveId, a.stored);
    } else if a.ClientInterrupt? {
      ClientInterruptKeeps(st, st');
    } else {
      ClientQuietKeeps(st, a, st');
    }
  }

  lemma CoreMoved(st: State, s': Session, core: CorePc, taken: Option<OpId>, back: Option<OpId>)
    requires Inv(st) && Fields(s') && Ops(s') && Forward(st.s, s') && Moved(st.s, s', taken, back)
    requires CoreHeld(st.core) == back && CoreHeld(core) == taken && CoreOk(s', core)
    ensures Inv(st.(s := s', core := core))
  {
    OthersOfCore(st, s');
    MovedStep(st, st.(s := s', core := core), taken, back);
  }

  lemma CheckKeeps(st: State, envelope: Envelope)
    requires Inv(st) && st.core.CoreReading?
    ensures Inv(CoreStep(st, CoreFrame(envelope)).value)
  {
    var e := ParseWebSocketEvent(envelope);
    var r := FailedServerEvent(st.s, e);
    FailedEventKeeps(st.s, e);
    CoreMoved(st, r.session, CoreChecked(e, r.operation, r.belongs), r.operation, None);
  }

  lemma CoreObservesKeeps(st: State)
    requires Inv(st) && st.core.CoreTimed?
    ensures Inv(CoreStep(st, CoreObserves).value)
  {
    var CoreTimed(e, status) := st.core;
    var terminal := TerminalStatus(e.kind).Some?;
    ObserveKeeps(st.s, e, terminal);
    CoreMoved(st, ObserveServerEvent(st.s, e, terminal),
              CoreObserved(e, status, if terminal then st.s.active else None), None, None);
  }

  lemma CoreFooterAwaited(st: State, now: int)
    requires Inv(st) && st.core.CoreObserved? && st.core.event.expectsFailedFooter
    ensures Inv(CoreStep(st, CoreDetaches(now)).value)
  {
    if st.s.active.Some? { assert OpOk(st.s, st.s.active.value) && Located(st, st.s.active.value) == 1; }
    DetachKeeps(st.s, now);
    CoreMoved(st, DetachFailedOperation(st.s, now).0, CoreWriting(None, None, None), None, None);
  }

  lemma CoreDetachesKeeps(st: State, now: int)
    requires Inv(st) && st.core.CoreObserved?
    ensures Inv(CoreStep(st, CoreDetaches(now)).value)
  {
    if st.core.event.expectsFailedFooter {
      CoreFooterAwaited(st, now);
    } else {
      CoreGoes(st, CoreStep(st, CoreDetaches(now)).value.core);
    }
  }

  lemma CoreCompletesKeeps(st: State)
    requires Inv(st) && st.core.CoreCompleting?
    ensures Inv(CoreStep(st, CoreCompletes).value)
  {
    var (s', taken) := TakeActive(st.s);
    TakeActiveKeeps(st.s);
    if taken.Some? {
      assert OpOk(st.s, taken.value);
      CoreMoved(st, s', CoreTaken(taken.value, st.core.outcome, st.core.marked), taken, None);
    } else {
      CoreMoved(st, s', CoreReading, None, None);
    }
  }

  lemma CoreExitKeeps(st: State, status: RequestStatus)
    requires Inv(st) && CoreHeld(st.core).None?
    ensures Inv(CoreExit(st, status))
  {
    SoftFlags(st.s, status);
    SoftStep(st, CoreExit(st, status));
  }

  lemma CoreGoes(st: State, core: CorePc)
    requires Inv(st) && CoreHeld(core) == CoreHeld(st.core) && CoreOk(st.s, core)
    ensures Inv(st.(core := core))
  {
    SoftFlags(st.s, UpstreamError);
    SoftStep(st, st.(core := core));
  }

  lemma CoreFinished(st: State, operation: OpId, status: RequestStatus)
    requires Inv(st) && CoreHeld(st.core) == Some(operation) && (st.core.CoreTaken? || status == UpstreamError)
    ensures Inv(st.(s := FinishOperation(st.s, operation, status), core := CoreReading))
  {
    FinishKeeps(st.s, operation, status);
    CoreMoved(st, FinishOperation(st.s, operation, status), CoreReading, None, Some(operation));
  }

  lemma CoreFinishKeeps(st: State, st': State)
    requires Inv(st) && CoreStep(st, CoreFinishes) == Some(st')
    ensures Inv(st')
  {
    match st.core {
      case CoreFooter(operation, written) =>
        CoreFinished(st, operation, UpstreamError);
        CoreExitKeeps(st.(s := FinishOperation(st.s, operation, UpstreamError), core := CoreReading),
                      if written then UpstreamError else Disconnected);
      case CoreTaken(operation, outcome, _) =>
        CoreFinished(st, operation, outcome);
        CoreExitKeeps(st.(s := FinishOperation(st.s, operation, outcome), core := CoreReading), UpstreamError);
      case _ =>
    }
  }

  lemma CoreKeeps(st: State, a: CoreAction, st': State)
    requires Inv(st) && CoreStep(st, a) == Some(st')
    ensures Inv(st')
  {
    match a {
      case CoreFrame(envelope) => CheckKeeps(st, envelope);
      case CoreObserves => CoreObservesKeeps(st);
      case CoreDetaches(now) => CoreDetachesKeeps(st, now);
      case CoreCompletes => CoreCompletesKeeps(st);
      case CoreFinishes => CoreFinishKeeps(st, st');
      case CoreControl(value) => CoreControlKeeps(st, value, st');
      case CoreResponds(now) => CoreResponseKeeps(st, now, st');
      case _ => CoreQuietKeeps(st, a, st');
    }
  }

  lemma CoreRespondsKeeps(st: State, now: int, core: CorePc)
    requires Inv(st) && CoreHeld(st.core).None? && CoreHeld(core).None? && CoreOk(st.s, core)
    ensures Inv(st.(s := ObserveCoreResponse(st.s, now), core := core))
  {
    SoftRespond(st.s, now);
    SoftStep(st, st.(s := ObserveCoreResponse(st.s, now), core := core));
  }

  lemma CoreControlKeeps(st: State, value: string, st': State)
    requires Inv(st) && CoreStep(st, CoreControl(value)) == Some(st')
    ensures Inv(st')
  {
    SoftProvider(st.s, value);
    SoftStep(st, st');
  }

  lemma CoreResponseKeeps(st: State, now: int, st': State)
    requires Inv(st) && CoreStep(st, CoreResponds(now)) == Some(st')
    ensures Inv(st')
  {
    if st.core.CoreBroken? {
      CoreRespondsKeeps(st, now, CoreBroken);
      CoreExitKeeps(st.(s := ObserveCoreResponse(st.s, now)), UpstreamError);
    } else if st.core.belongs {
      CoreGoes(st, st'.core);
    } else {
      CoreRespondsKeeps(st, now, st'.core);
    }
  }

  lemma CoreQuietKeeps(st: State, a: CoreAction, st': State)
    requires Inv(st) && CoreStep(st, a) == Some(st')
    requires a.CoreFails? || a.CoreUnparsed? || a.CoreClassifies? || a.CoreWrites?
    ensures Inv(st')
  {
    if st'.core.CoreDone? {
      CoreExitKeeps(st, st'.core.result);
    } else {
      CoreGoes(st, st'.core);
    }
  }

  lemma RunMoved(st: State, s': Session, run: RunPc, taken: Option<OpId>, back: Option<OpId>)
    requires Inv(st) && Fields(s') && Ops(s') && Forward(st.s, s') && Moved(st.s, s', taken, back)
    requires RunHeld(st.run) == back && RunHeld(run) == taken && RunOk(s', run)
    requires s'.active == st.s.active || (s'.active.None? && s'.cancelled)
    requires forall i :: 0 <= i < |s'.ops| ==>
               && s'.ops[i].responseId == st.s.ops[i].responseId && s'.ops[i].detached == st.s.ops[i].detached
               && s'.ops[i].interruptRequested == st.s.ops[i].interruptRequested
    ensures Inv(st.(s := s', run := run))
  {
    OthersOfRun(st, s');
    MovedStep(st, st.(s := s', run := run), taken, back);
  }

  lemma RunGoes(st: State, run: RunPc)
    requires Inv(st) && RunHeld(st.run).None? && RunHeld(run).None? && RunOk(st.s, run)
    ensures Inv(st.(run := run))
  {
    SoftFlags(st.s, UpstreamError);
    SoftStep(st, st.(run := run));
  }

  lemma RunFinished(st: State, operation: OpId, status: RequestStatus, run: RunPc)
    requires Inv(st) && RunHeld(st.run) == Some(operation) && (st.run.RunActive? || status == UpstreamError)
    requires RunHeld(run).None? && RunOk(st.s, run)
    ensures Inv(st.(s := FinishOperation(st.s, operation, status), run := run))
  {
    FinishKeeps(st.s, operation, status);
    RunMoved(st, FinishOperation(st.s, operation, status), run, None, Some(operation));
  }

  lemma RunFinishKeeps(st: State, st': State)
    requires Inv(st) && RunStep(st, RunFinishes) == Some(st')
    ensures Inv(st')
  {
    match st.run {
      case RunExpired(operation) => RunFinished(st, operation, UpstreamError, RunTailClosed);
      case RunFooter(operation, status) => RunFinished(st, operation, UpstreamError, RunCancelling(status));
      case RunActive(operation, status) => RunFinished(st, operation, status, RunTakingFailed);
      case RunFailed(operation) => RunFinished(st, operation, UpstreamError, RunDone);
    }
  }

  lemma RunTakenFailed(st: State, run: RunPc)
    requires Inv(st) && RunHeld(st.run).None?
    requires var (s', taken) := TakeFailedOperation(st.s); RunHeld(run) == taken && RunOk(s', run)
    ensures Inv(st.(s := TakeFailedOperation(st.s).0, run := run))
  {
    TakeFailedKeeps(st.s);
    RunMoved(st, TakeFailedOperation(st.s).0, run, TakeFailedOperation(st.s).1, None);
  }

  lemma RunTakenActive(st: State, run: RunPc)
    requires Inv(st) && RunHeld(st.run).None? && st.s.cancelled
    requires var (s', taken) := TakeActive(st.s); RunHeld(run) == taken && RunOk(s', run)
    ensures Inv(st.(s := TakeActive(st.s).0, run := run))
  {
    TakeActiveKeeps(st.s);
    RunMoved(st, TakeActive(st.s).0, run, TakeActive(st.s).1, None);
  }

  lemma RunTakesActiveKeeps(st: State, st': State)
    requires Inv(st) && RunStep(st, RunTakesActive) == Some(st')
    ensures Inv(st')
  {
    if st.s.active.Some? { assert OpOk(st.s, st.s.active.value); }
    RunTakenActive(st, st'.run);
  }

  lemma RunDecisionKeeps(st: State, a: RunAction, st': State)
    requires Inv(st) && RunStep(st, a) == Some(st')
    requires a.RunIdleFires? || a.RunClientResult? || a.RunCoreResult? || a.RunDecides?
    ensures Inv(st')
  {
    if st.run.RunTailClosed? {
      SoftFlags(st.s, UpstreamError);
      SoftStep(st, st.(s := RecordExitCause(st.s, UpstreamError), run := RunFinishing(UpstreamError)));
    } else {
      RunGoes(st, st'.run);
    }
  }

  lemma RunCancelsKeeps(st: State, st': State)
    requires Inv(st) && RunStep(st, RunCancels) == Some(st')
    ensures Inv(st')
  {
    SoftFlags(st.s, UpstreamError);
    SoftStep(st, st');
  }

  lemma RunTailKeeps(st: State, now: int, st': State)
    requires Inv(st) && RunStep(st, RunTailFires(now)) == Some(st')
    ensures Inv(st')
  {
    if st'.run.RunExpired? { RunTakenFailed(st, st'.run); } else { RunGoes(st, RunTailClosed); }
  }

  lemma RunTakesFailedKeeps(st: State, st': State)
    requires Inv(st) && RunStep(st, RunTakesFailed) == Some(st')
    ensures Inv(st')
  {
    RunTakenFailed(st, st'.run);
  }

  lemma RunKeeps(st: State, a: RunAction, st': State)
    requires Inv(st) && RunStep(st, a) == Some(st')
    ensures Inv(st')
  {
    match a {
      case RunFinishes => RunFinishKeeps(st, st');
      case RunTakesFailed => RunTakesFailedKeeps(st, st');
      case RunTakesActive => RunTakesActiveKeeps(st, st');
      case RunCancels => RunCancelsKeeps(st, st');
      case RunTailFires(now) => RunTailKeeps(st, now, st');
      case _ => RunDecisionKeeps(st, a, st');
    }
  }

  lemma StepKeeps(st: State, a: Action, st': State)
    requires Inv(st) && Step(st, a) == Some(st')
    ensures Inv(st')
  {
    match a {
      case Client(c) => ClientKeeps(st, c, st');
      case Core(c) => CoreKeeps(st, c, st');
      case Run(r) => RunKeeps(st, r, st');
      case _ =>
        SoftFlags(st.s, UpstreamError);
        SoftStep(st, st');
    }
  }
}
