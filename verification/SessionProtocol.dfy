/**
 The three threads of a WebSocket session as a transition system. One action is one
 mutex-protected section, one atomic access or one blocking call; between two actions of a
 thread every other thread may act. Sockets, clocks, timers and the store answer
 nondeterministically through the parameters of the actions.
 */
module SessionProtocol {
  import opened Domain
  import opened SessionState

  /** clientPump */
  datatype ClientPc =
    | ClientReading
    | ClientBeginning(interruptId: string)
    | ClientWaiting(operation: OpId, interruptId: string)
    | ClientChecking(interruptId: string)
    | ClientInterrupting(interruptId: string)
    | ClientWriting
    | ClientDone(result: RequestStatus)

  /** corePump. `marked` is the operation that observeServerEvent marked terminal-pending. */
  datatype CorePc =
    | CoreReading
    | CoreBroken
    | CoreChecked(event: Event, failed: Option<OpId>, belongs: bool)
    | CoreClassified(event: Event, failed: Option<OpId>, belongs: bool, status: Option<RequestStatus>)
    | CoreTimed(event: Event, status: Option<RequestStatus>)
    | CoreObserved(event: Event, status: Option<RequestStatus>, marked: Option<OpId>)
    | CorePrevious(previous: OpId)
    | CoreWriting(failed: Option<OpId>, ending: Option<RequestStatus>, marked: Option<OpId>)
    | CoreFooter(operation: OpId, written: bool)
    | CoreCompleting(outcome: RequestStatus, marked: Option<OpId>)
    | CoreTaken(operation: OpId, outcome: RequestStatus, marked: Option<OpId>)
    | CoreDone(result: RequestStatus)

  /** run, finishSession and finishActive */
  datatype RunPc =
    | RunSelecting
    | RunExpired(operation: OpId)
    | RunTailClosed
    | RunFinishing(fallback: RequestStatus)
    | RunTakingFooter(status: RequestStatus)
    | RunFooter(operation: OpId, status: RequestStatus)
    | RunCancelling(status: RequestStatus)
    | RunTakingActive(status: RequestStatus)
    | RunActive(operation: OpId, status: RequestStatus)
    | RunTakingFailed
    | RunFailed(operation: OpId)
    | RunDone

  datatype State = State(s: Session, client: ClientPc, core: CorePc, run: RunPc)

  ghost predicate Init(st: State) {
    && (exists id :: st.s == NewSession(id))
    && st.client == ClientReading && st.core == CoreReading && st.run == RunSelecting
  }

  // ----- Client pump -------------------------------------------------------------------

  datatype ClientAction =
    | ClientFails                                        // read error, binary or malformed frame
    | ClientFrame(create: bool, interruptId: string)     // an application event arrived
    | ClientBegin(kind: string, now: int, haveId: bool, stored: bool)
    | ClientWakes                                        // terminalReady is closed
    | ClientGivesUp                                      // the context is done while waiting
    | ClientHasActive
    | ClientInterrupt
    | ClientWrites(written: bool)

  function ClientExit(st: State, status: RequestStatus): State {
    st.(s := RecordExitCause(st.s, status), client := ClientDone(status))
  }

  function ClientStep(st: State, a: ClientAction): Option<State>
    requires Bounded(st.s)
  {
    match (st.client, a)
    case (ClientReading, ClientFails) => Some(ClientExit(st, Disconnected))
    case (ClientReading, ClientFrame(create, id)) =>
      Some(st.(client := if create then ClientBeginning(id) else ClientChecking(id)))
    case (ClientBeginning(id), ClientBegin(kind, now, haveId, stored)) =>
      var (s, result) := BeginOperation(st.s, kind, now, haveId, stored);
      var next := st.(s := s);
      Some(match result
           case Retired => ClientExit(next, UpstreamError)
           case MustWait(operation) => next.(client := ClientWaiting(operation, id))
           case Overlapping | Cancelled | NoRequestId | StoreRefused => ClientExit(next, Disconnected)
           case Begun => next.(client := ClientInterrupting(id)))
    case (ClientWaiting(operation, id), ClientWakes) =>
      if operation < |st.s.ops| && st.s.ops[operation].closes > 0 then Some(st.(client := ClientBeginning(id)))
      else None
    case (ClientWaiting(_, _), ClientGivesUp) =>
      if st.s.cancelled then Some(ClientExit(st, Disconnected)) else None
    case (ClientChecking(id), ClientHasActive) =>
      Some(if st.s.active.Some? then st.(client := ClientInterrupting(id)) else ClientExit(st, Disconnected))
    case (ClientInterrupting(id), ClientInterrupt) =>
      Some(st.(s := if id != "" then RequestInterrupt(st.s, id) else st.s, client := ClientWriting))
    case (ClientWriting, ClientWrites(written)) =>
      Some(if written then st.(client := ClientReading) else ClientExit(st, UpstreamError))
    case _ => None
  }

  // ----- Core pump ---------------------------------------------------------------------

  datatype CoreAction =
    | CoreFails                                          // read error, binary frame, bad control frame
    | CoreControl(providerRequestId: string)
    | CoreUnparsed                                       // a frame that is not an event
    | CoreFrame(envelope: Envelope)
    | CoreClassifies
    | CoreResponds(now: int)                             // observeCoreResponse
    | CoreObserves
    | CoreDetaches(now: int)
    | CoreWrites(written: bool)
    | CoreFinishes
    | CoreCompletes

  function CoreExit(st: State, status: RequestStatus): State {
    st.(s := RecordExitCause(st.s, status), core := CoreDone(status))
  }

  function CoreStep(st: State, a: CoreAction): Option<State>
    requires Bounded(st.s)
  {
    match (st.core, a)
    case (CoreReading, CoreFails) => Some(CoreExit(st, UpstreamError))
    case (CoreReading, CoreControl(value)) => Some(st.(s := ObserveProviderRequestId(st.s, value)))
    case (CoreReading, CoreUnparsed) => Some(st.(core := CoreBroken))
    case (CoreBroken, CoreResponds(now)) =>
      Some(CoreExit(st.(s := ObserveCoreResponse(st.s, now)), UpstreamError))
    case (CoreReading, CoreFrame(envelope)) =>
      var event := ParseWebSocketEvent(envelope);
      var r := FailedServerEvent(st.s, event);
      Some(st.(s := r.session, core := CoreChecked(event, r.operation, r.belongs)))
    case (CoreChecked(event, failed, belongs), CoreClassifies) =>
      var status := if event.interrupted && InterruptedActive(st.s, event.responseId) then Some(Completed)
                    else TerminalStatus(event.kind);
      Some(st.(core := CoreClassified(event, failed, belongs, status)))
    case (CoreClassified(event, failed, belongs, status), CoreResponds(now)) =>
      Some(if belongs then st.(core := CoreWriting(failed, None, None))
           else st.(s := ObserveCoreResponse(st.s, now), core := CoreTimed(event, status)))
    case (CoreTimed(event, status), CoreObserves) =>
      var terminal := TerminalStatus(event.kind).Some?;
      var marked := if terminal then st.s.active else None;
      Some(st.(s := ObserveServerEvent(st.s, event, terminal), core := CoreObserved(event, status, marked)))
    case (CoreObserved(event, status, marked), CoreDetaches(now)) =>
      if event.expectsFailedFooter then
        var (s, previous) := DetachFailedOperation(st.s, now);
        Some(st.(s := s,
                 core := if previous.Some? then CorePrevious(previous.value) else CoreWriting(None, None, None)))
      else if TerminalStatus(event.kind).Some? then
        Some(st.(core := CoreWriting(None, status, marked)))
      else
        Some(st.(core := CoreWriting(None, None, None)))
    case (CorePrevious(previous), CoreFinishes) =>
      if previous < |st.s.ops| then
        Some(st.(s := FinishOperation(st.s, previous, UpstreamError), core := CoreWriting(None, None, None)))
      else None
    case (CoreWriting(failed, ending, marked), CoreWrites(written)) =>
      Some(if failed.Some? then st.(core := CoreFooter(failed.value, written))
           else if !written then CoreExit(st, Disconnected)
           else if ending.Some? then st.(core := CoreCompleting(ending.value, marked))
           else st.(core := CoreReading))
    case (CoreFooter(operation, written), CoreFinishes) =>
      if operation < |st.s.ops| then
        Some(CoreExit(st.(s := FinishOperation(st.s, operation, UpstreamError)),
                      if written then UpstreamError else Disconnected))
      else None
    case (CoreCompleting(outcome, marked), CoreCompletes) =>
      var (s, taken) := TakeActive(st.s);
      Some(st.(s := s, core := if taken.Some? then CoreTaken(taken.value, outcome, marked) else CoreReading))
    case (CoreTaken(operation, outcome, _), CoreFinishes) =>
      if operation < |st.s.ops| then
        var next := st.(s := FinishOperation(st.s, operation, outcome));
        Some(if outcome == UpstreamError then CoreExit(next, UpstreamError) else next.(core := CoreReading))
      else None
    case _ => None
  }

  // ----- Run loop ----------------------------------------------------------------------

  datatype RunAction =
    | RunTailFires(now: int)                             // the failure-tail timer
    | RunIdleFires                                       // the first-frame or inter-turn timer
    | RunClientResult                                    // the client pump has returned
    | RunCoreResult
    | RunDecides                                         // causalStatus, stopping, or a recorded cause
    | RunTakesFailed
    | RunCancels
    | RunTakesActive
    | RunFinishes

  function RunStep(st: State, a: RunAction): Option<State>
    requires Bounded(st.s)
  {
    match (st.run, a)
    case (RunSelecting, RunTailFires(now)) =>
      var (s, expired) := ExpireFailureTail(st.s, now);
      Some(st.(s := s, run := if expired.Some? then RunExpired(expired.value) else RunTailClosed))
    case (RunExpired(operation), RunFinishes) =>
      if operation < |st.s.ops| then
        Some(st.(s := FinishOperation(st.s, operation, UpstreamError), run := RunTailClosed))
      else None
    case (RunTailClosed, RunDecides) =>
      Some(st.(s := RecordExitCause(st.s, UpstreamError), run := RunFinishing(UpstreamError)))
    case (RunSelecting, RunIdleFires) => Some(st.(run := RunCancelling(Disconnected)))
    case (RunSelecting, RunClientResult) =>
      if st.client.ClientDone? then Some(st.(run := RunFinishing(st.client.result))) else None
    case (RunSelecting, RunCoreResult) =>
      if st.core.CoreDone? then Some(st.(run := RunFinishing(st.core.result))) else None
    case (RunFinishing(fallback), RunDecides) =>
      var status := CausalStatus(st.s, fallback);
      Some(st.(run := if st.s.stopping then RunCancelling(UpstreamError)
                      else if status == UpstreamError then RunTakingFooter(status)
                      else RunCancelling(status)))
    case (RunTakingFooter(status), RunTakesFailed) =>
      var (s, taken) := TakeFailedOperation(st.s);
      Some(st.(s := s, run := if taken.Some? then RunFooter(taken.value, status) else RunCancelling(status)))
    case (RunFooter(operation, status), RunFinishes) =>
      if operation < |st.s.ops| then
        Some(st.(s := FinishOperation(st.s, operation, UpstreamError), run := RunCancelling(status)))
      else None
    case (RunCancelling(status), RunCancels) =>
      Some(st.(s := st.s.(cancelled := true), run := RunTakingActive(status)))
    case (RunTakingActive(status), RunTakesActive) =>
      var (s, taken) := TakeActive(st.s);
      Some(st.(s := s, run := if taken.Some? then RunActive(taken.value, status) else RunTakingFailed))
    case (RunActive(operation, status), RunFinishes) =>
      if operation < |st.s.ops| then
        Some(st.(s := FinishOperation(st.s, operation, status), run := RunTakingFailed))
      else None
    case (RunTakingFailed, RunTakesFailed) =>
      var (s, taken) := TakeFailedOperation(st.s);
      Some(st.(s := s, run := if taken.Some? then RunFailed(taken.value) else RunDone))
    case (RunFailed(operation), RunFinishes) =>
      if operation < |st.s.ops| then
        Some(st.(s := FinishOperation(st.s, operation, UpstreamError), run := RunDone))
      else None
    case _ => None
  }

  // ----- Runs --------------------------------------------------------------------------

  datatype Action =
    | Client(client: ClientAction)
    | Core(core: CoreAction)
    | Run(run: RunAction)
    | StopRequested                                      // stop(): the flag, then the context
    | StopCancels

  function Step(st: State, a: Action): Option<State>
    requires Bounded(st.s)
  {
    match a
    case Client(c) => ClientStep(st, c)
    case Core(c) => CoreStep(st, c)
    case Run(r) => RunStep(st, r)
    case StopRequested => Some(st.(s := st.s.(stopping := true)))
    case StopCancels => if st.s.stopping then Some(st.(s := st.s.(cancelled := true))) else None
  }

  ghost predicate Next(st: State, st': State) {
    Bounded(st.s) && exists a :: Step(st, a) == Some(st')
  }

  ghost predicate StepAt(tr: seq<State>, i: nat)
    requires 0 < i < |tr|
  {
    Next(tr[i - 1], tr[i])
  }

  ghost predicate IsRun(tr: seq<State>) {
    && |tr| > 0 && Init(tr[0])
    && forall i :: 0 < i < |tr| ==> StepAt(tr, i)
  }

  ghost predicate Quiescent(st: State) {
    st.client.ClientDone? && st.core.CoreDone? && st.run.RunDone?
  }
}
