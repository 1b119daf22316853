/**
 The state that the client pump, the core pump and the run loop of one WebSocket session
 share, and one function per mutex-protected section (or atomic access) of the session.

 Operations live in an arena: an operation pointer is an index into `ops`. The fields
 `startedInStore`, `closes`, `writers`, `detached` and `finishes` of an operation record what
 happened to it; no section branches on them.
 */
module SessionState {
  import opened Domain

  // ----- Upstream events ---------------------------------------------------------------

  datatype EventKind =
    | Error
    | ResponseCompleted
    | ResponseFailed
    | ResponseIncomplete
    | OtherEvent(name: string)

  datatype Event = Event(
    kind: EventKind,
    usage: Option<TokenUsage>,
    responseId: string,
    expectsFailedFooter: bool,
    interrupted: bool)

  /** The members of an upstream frame that the parser reads, after JSON decoding; a member that
      is absent or has the wrong JSON type is empty or zero. */
  datatype Envelope = Envelope(
    kind: EventKind,
    statusAbsentOrIncomplete: bool,
    incompleteReason: string,
    responseId: string,
    errorCode: string,
    status: nat,
    statusCode: nat,
    usage: Option<TokenUsage>)

  ghost predicate WellFormedEvent(e: Event) {
    && (e.expectsFailedFooter ==> e.kind == Error)
    && (e.interrupted ==> e.kind == ResponseIncomplete)
    && |e.responseId| <= 512
  }

  predicate HttpStatus(status: nat) {
    100 <= status <= 599
  }

  /** An error that says by itself how the request failed. */
  predicate SelfContained(envelope: Envelope) {
    envelope.errorCode == "flex_unavailable" || HttpStatus(envelope.status) || HttpStatus(envelope.statusCode)
  }

  /** Kind and usage are the sender's; a response is named by the sender's identifier or not at all, and then only
      because that was empty or too long; an error waits for a failed response exactly if it does not stand alone. */
  function ParseWebSocketEvent(envelope: Envelope): (e: Event)
    ensures WellFormedEvent(e)
    ensures e.kind == envelope.kind && e.usage == envelope.usage
    ensures e.responseId == envelope.responseId || (e.responseId == "" && |envelope.responseId| > 512)
    ensures e.kind == Error ==> (e.expectsFailedFooter <==> !SelfContained(envelope))
  {
    Event(
      envelope.kind,
      envelope.usage,
      if |envelope.responseId| > 512 then "" else envelope.responseId,
      envelope.kind == Error && envelope.errorCode != "flex_unavailable"
      && !HttpStatus(envelope.status) && !HttpStatus(envelope.statusCode),
      envelope.kind == ResponseIncomplete && envelope.statusAbsentOrIncomplete
      && envelope.incompleteReason == "interrupted")
  }

  /** websocketTerminalStatus */
  function TerminalStatus(kind: EventKind): Option<RequestStatus> {
    match kind
    case ResponseCompleted => Some(Completed)
    case ResponseFailed | ResponseIncomplete | Error => Some(UpstreamError)
    case OtherEvent(_) => None
  }

  // ----- Shared state ------------------------------------------------------------------

  type OpId = nat

  datatype Operation = Operation(
    kind: string,
    started: int,
    ttfb: Option<int>,
    usage: Option<TokenUsage>,
    terminalPending: bool,
    providerRequestId: Option<string>,
    responseId: string,
    interruptRequested: bool,
    startedInStore: bool,
    closes: nat,
    writers: set<string>,
    detached: bool,
    finishes: seq<RequestStatus>)

  datatype FailedOperation = FailedOperation(operation: OpId, generation: nat, deadline: int)

  datatype ExitCause = CauseUnset | CauseClient | CauseUpstream

  datatype Session = Session(
    ops: seq<Operation>,
    active: Option<OpId>,
    failed: Option<FailedOperation>,
    generation: nat,
    failedResponseObserved: bool,
    retired: bool,
    providerRequestId: Option<string>,
    stopping: bool,
    cancelled: bool,
    exitCause: ExitCause)

  function NewSession(providerRequestId: Option<string>): Session {
    Session([], None, None, 0, false, false, providerRequestId, false, false, CauseUnset)
  }

  /** Every operation pointer that the session holds points into the arena. */
  predicate Bounded(s: Session) {
    && (s.active.Some? ==> s.active.value < |s.ops|)
    && (s.failed.Some? ==> s.failed.value.operation < |s.ops|)
  }

  function ActiveOp(s: Session): Operation
    requires Bounded(s) && s.active.Some?
  {
    s.ops[s.active.value]
  }

  function UpdateActive(s: Session, op: Operation): Session
    requires Bounded(s) && s.active.Some?
  {
    s.(ops := s.ops[s.active.value := op])
  }

  /** close(operation.terminalReady) */
  function CloseReady(op: Operation): Operation {
    op.(closes := op.closes + 1)
  }

  function WriteUsage(op: Operation, e: Event): Operation {
    if e.usage.Some? then op.(usage := e.usage, writers := op.writers + {e.responseId}) else op
  }

  // ----- Sections ----------------------------------------------------------------------

  datatype BeginResult =
    | Retired
    | MustWait(operation: OpId)
    | Overlapping
    | Cancelled
    | NoRequestId
    | StoreRefused
    | Begun

  function NewOperation(s: Session, kind: string, now: int, stored: bool): Operation {
    Operation(kind, now, None, None, false, s.providerRequestId, "", false, stored, 0, {}, false, [])
  }

  /** One pass of beginOperation under the lock. `haveId` and `stored` say whether the request
      identifier could be drawn and whether the store accepted the operation. */
  function BeginOperation(s: Session, kind: string, now: int, haveId: bool, stored: bool): (Session, BeginResult)
    requires Bounded(s)
  {
    if s.retired then (s, Retired)
    else if s.active.Some? && ActiveOp(s).terminalPending then (s, MustWait(s.active.value))
    else if s.active.Some? then (s, Overlapping)
    else if s.cancelled || s.stopping then (s, Cancelled)
    else if !haveId then (s, NoRequestId)
    else
      var begun := s.(
        ops := s.ops + [NewOperation(s, kind, now, stored)],
        active := if stored then Some(|s.ops|) else None,
        generation := s.generation + 1,
        failedResponseObserved := false);
      (begun, if stored then Begun else StoreRefused)
  }

  function ObserveProviderRequestId(s: Session, value: string): Session
    requires Bounded(s)
  {
    var observed := s.(providerRequestId := Some(value));
    if s.active.Some? then UpdateActive(observed, ActiveOp(s).(providerRequestId := Some(value)))
    else observed
  }

  predicate Interrupted(s: Session, e: Event)
    requires Bounded(s)
  {
    && e.interrupted && s.active.Some? && ActiveOp(s).interruptRequested
    && e.responseId != "" && ActiveOp(s).responseId == e.responseId
  }

  predicate Retires(s: Session, e: Event)
    requires Bounded(s)
  {
    e.kind == Error || e.kind == ResponseFailed || (e.kind == ResponseIncomplete && !Interrupted(s, e))
  }

  /** What an upstream event leaves on the operation it belongs to. */
  function RecordEvent(op: Operation, e: Event, terminal: bool): Operation {
    var used := WriteUsage(op, e);
    var bound := if e.responseId != "" && used.responseId == "" then used.(responseId := e.responseId) else used;
    if terminal then bound.(terminalPending := true) else bound
  }

  function ObserveServerEvent(s: Session, e: Event, terminal: bool): Session
    requires Bounded(s)
  {
    var seen := s.(retired := s.retired || Retires(s, e));
    if s.active.None? then seen else UpdateActive(seen, RecordEvent(ActiveOp(s), e, terminal))
  }

  function ObserveCoreResponse(s: Session, now: int): Session
    requires Bounded(s)
  {
    if s.active.None? || ActiveOp(s).ttfb.Some? then s
    else
      var elapsed := now - ActiveOp(s).started;
      UpdateActive(s, ActiveOp(s).(ttfb := Some(if elapsed < 0 then 0 else elapsed)))
  }

  function TakeActive(s: Session): (Session, Option<OpId>)
    requires Bounded(s)
  {
    if s.active.None? then (s, None)
    else (UpdateActive(s, CloseReady(ActiveOp(s))).(active := None), s.active)
  }

  const FAILURE_TAIL := 1_000_000_000

  function DetachFailedOperation(s: Session, now: int): (Session, Option<OpId>)
    requires Bounded(s)
  {
    if s.active.None? then (s, None)
    else
      var previous := if s.failed.Some? then Some(s.failed.value.operation) else None;
      (UpdateActive(s, CloseReady(ActiveOp(s)).(detached := true)).(
         active := None,
         failed := Some(FailedOperation(s.active.value, s.generation, now + FAILURE_TAIL)),
         failedResponseObserved := true),
       previous)
  }

  /** Whether an event belongs to the detached operation. */
  predicate BelongsToFailed(s: Session, e: Event)
    requires Bounded(s) && s.failed.Some?
  {
    var failed := s.failed.value;
    var id := s.ops[failed.operation].responseId;
    || (id != "" && e.responseId == id)
    || (id == "" && s.generation == failed.generation && e.kind == ResponseFailed)
    || (s.active.None? && s.generation == failed.generation && e.kind == Error)
  }

  /** The active operation is known under another response identifier than the event's. */
  predicate Foreign(s: Session, e: Event)
    requires Bounded(s)
  {
    && s.active.Some? && ActiveOp(s).responseId != "" && e.responseId != ""
    && ActiveOp(s).responseId != e.responseId
  }

  datatype FailedEvent = FailedEvent(session: Session, operation: Option<OpId>, belongs: bool)

  function FailedServerEvent(s: Session, e: Event): FailedEvent
    requires Bounded(s)
  {
    if s.failed.Some? && BelongsToFailed(s, e) then
      if e.kind != ResponseFailed then FailedEvent(s, None, true)
      else
        var failed := s.failed.value;
        FailedEvent(
          s.(ops := s.ops[failed.operation := WriteUsage(s.ops[failed.operation], e)],
             failed := None,
             failedResponseObserved := s.generation != failed.generation && s.failedResponseObserved),
          Some(failed.operation), true)
    else FailedEvent(s, None, Foreign(s, e))
  }

  function TakeFailedOperation(s: Session): (Session, Option<OpId>)
    requires Bounded(s)
  {
    if s.failed.None? then (s, None)
    else (s.(failed := None), Some(s.failed.value.operation))
  }

  function ExpireFailureTail(s: Session, now: int): (Session, Option<OpId>)
    requires Bounded(s)
  {
    if s.failed.Some? && now >= s.failed.value.deadline then TakeFailedOperation(s) else (s, None)
  }

  function RequestInterrupt(s: Session, responseId: string): Session
    requires Bounded(s)
  {
    if s.active.Some? && ActiveOp(s).responseId == responseId && !ActiveOp(s).terminalPending then
      UpdateActive(s, ActiveOp(s).(interruptRequested := true))
    else s
  }

  predicate InterruptedActive(s: Session, responseId: string)
    requires Bounded(s)
  {
    s.active.Some? && responseId != "" && ActiveOp(s).responseId == responseId && ActiveOp(s).interruptRequested
  }

  /** finishOperation: the operation is handed to the store with its final status. */
  function FinishOperation(s: Session, operation: OpId, status: RequestStatus): Session
    requires operation < |s.ops|
  {
    var op := s.ops[operation];
    s.(ops := s.ops[operation := op.(finishes := op.finishes + [status])])
  }

  /** recordExitCause: the first recorded cause stays. */
  function RecordExitCause(s: Session, status: RequestStatus): Session {
    if s.exitCause != CauseUnset then s
    else s.(exitCause := if status == Disconnected then CauseClient else CauseUpstream)
  }

  function CausalStatus(s: Session, fallback: RequestStatus): RequestStatus {
    match s.exitCause
    case CauseClient => Disconnected
    case CauseUpstream => UpstreamError
    case CauseUnset => fallback
  }

  datatype RetryAdvice = RetrySafe | RetryAmbiguous | RetryNever

  datatype Delivery = NotDelivered | PossiblyDelivered | Delivered

  function CurrentDeliveryFailure(s: Session): (RetryAdvice, Delivery)
    requires Bounded(s)
  {
    if s.retired then (RetryNever, Delivered)
    else if s.active.None? then
      if s.failedResponseObserved then (RetryNever, Delivered) else (RetrySafe, NotDelivered)
    else if ActiveOp(s).ttfb.Some? then (RetryNever, Delivered)
    else (RetryAmbiguous, PossiblyDelivered)
  }
}
