/**
 The coordinator database: its tables as maps, and one function per write transaction. A transaction that returns an
 error leaves the tables as they were. Identifiers and hashes are drawn by the environment; the row that a presented
 key hashes to is a parameter.
 */
module StoreState {
  import opened Domain
  import opened TextOrder
  import opened Timestamps

  // ----- Tables ------------------------------------------------------------------------

  datatype CredentialStatus = CredentialEnabled | CredentialDisabled | CredentialRequiresLogin | CredentialDeleted

  datatype Credential = Credential(
    adapter: string, authKind: string, accountRef: string, status: CredentialStatus, deletedAt: Option<Utc>)

  datatype ApiKey = ApiKey(credential: string, active: bool)

  datatype Transport = Http | WebSocket

  datatype OperationKind = Inference | Prewarm | OtherKind(text: string)

  datatype Request = Request(
    apiKey: string,
    credential: string,
    startedAt: Utc,
    completedAt: Option<Utc>,
    status: RequestStatus,
    httpStatus: Option<int>,
    ttfbMs: Option<int>,
    durationMs: int,
    usage: Option<TokenUsage>,
    providerRequestId: Option<string>,
    transport: Transport,
    kind: OperationKind,
    aggregated: bool)

  datatype Aggregate = Aggregate(
    requests: int, completed: int, errors: int, disconnected: int, durationMs: int, observations: int,
    tokens: TokenUsage)

  type DayKey = (string, string)

  datatype Db = Db(
    credentials: map<string, Credential>,
    keys: map<string, ApiKey>,
    requests: map<string, Request>,
    daily: map<DayKey, Aggregate>)

  const EMPTY_DB := Db(map[], map[], map[], map[])

  datatype StoreError =
    | InvalidArgument
    | NotFound
    | Conflict
    | Unauthorized
    | ConstraintViolated
    | CallbackFailed

  /** The tables after a transaction, and its error if it has one. */
  datatype Tx = Tx(db: Db, error: Option<StoreError>)

  function Fail(db: Db, e: StoreError): Tx {
    Tx(db, Some(e))
  }

  function Done(db: Db): Tx {
    Tx(db, None)
  }

  // ----- Credentials -------------------------------------------------------------------

  function CreateCredential(db: Db, id: string, c: Credential): Tx {
    if c.adapter != "codex" || (c.authKind != "codex_oauth" && c.authKind != "openai_api_key")
       || !("acct_" <= c.accountRef) || |c.accountRef| > 133 then Fail(db, InvalidArgument)
    else if id in db.credentials || exists k :: k in db.credentials && db.credentials[k].accountRef == c.accountRef then
      Fail(db, ConstraintViolated)
    else Done(db.(credentials := db.credentials[id := c.(status := CredentialEnabled, deletedAt := None)]))
  }

  predicate Present(db: Db, id: string) {
    id in db.credentials && db.credentials[id].deletedAt.None?
  }

  function SetStatus(db: Db, id: string, status: CredentialStatus): Tx {
    if !Present(db, id) then Fail(db, NotFound)
    else Done(db.(credentials := db.credentials[id := db.credentials[id].(status := status)]))
  }

  function SetCredentialEnabled(db: Db, id: string, enabled: bool): Tx {
    SetStatus(db, id, if enabled then CredentialEnabled else CredentialDisabled)
  }

  function MarkCredentialRequiresLogin(db: Db, id: string): Tx {
    SetStatus(db, id, CredentialRequiresLogin)
  }

  predicate HasActiveKey(db: Db, credential: string) {
    exists k :: k in db.keys && db.keys[k].credential == credential && db.keys[k].active
  }

  predicate HasInFlight(db: Db, credential: string) {
    exists r :: r in db.requests && db.requests[r].credential == credential && db.requests[r].status == InProgress
  }

  function DeleteCredentialMetadata(db: Db, id: string, now: Utc): Tx {
    if HasActiveKey(db, id) then Fail(db, Conflict)
    else if !Present(db, id) then Fail(db, NotFound)
    else
      Done(db.(credentials :=
        db.credentials[id := db.credentials[id].(status := CredentialDeleted, deletedAt := Some(now))]))
  }

  /** credentialMutationTarget: why a mutation of the credential may not start. */
  function MutationTarget(db: Db, id: string): Option<StoreError> {
    if !Present(db, id) then Some(NotFound)
    else if db.credentials[id].status != CredentialDisabled then Some(Conflict)
    else if HasInFlight(db, id) then Some(Conflict)
    else None
  }

  // ----- Keys --------------------------------------------------------------------------

  function CreateApiKey(db: Db, key: string, credential: string): Tx {
    if !Present(db, credential) then Fail(db, NotFound)
    else if db.credentials[credential].status != CredentialEnabled then Fail(db, Conflict)
    else if key in db.keys then Fail(db, ConstraintViolated)
    else Done(db.(keys := db.keys[key := ApiKey(credential, true)]))
  }

  function RevokeApiKey(db: Db, key: string): Tx {
    if key !in db.keys || !db.keys[key].active then Fail(db, NotFound)
    else Done(db.(keys := db.keys[key := db.keys[key].(active := false)]))
  }

  // ----- Starting requests -------------------------------------------------------------

  predicate ValidRequestId(id: string) {
    "req_" <= id && |id| <= 132
  }

  /** The key is active and its credential is enabled. */
  predicate Eligible(db: Db, key: string) {
    && key in db.keys && db.keys[key].active
    && Present(db, db.keys[key].credential)
    && db.credentials[db.keys[key].credential].status == CredentialEnabled
  }

  function NewRequest(key: string, credential: string, now: Utc, transport: Transport, kind: OperationKind): Request {
    Request(key, credential, now, None, InProgress, None, None, 0, None, None, transport, kind, false)
  }

  function InsertRequest(db: Db, id: string, row: Request): Tx {
    if id in db.requests then Fail(db, ConstraintViolated) else Done(db.(requests := db.requests[id := row]))
  }

  /** `key` is the row that the presented secret hashes to, if there is one. */
  function AuthenticateAndStart(db: Db, key: Option<string>, id: string, now: Utc): Tx {
    if key.None? || !ValidRequestId(id) || !Eligible(db, key.value) then Fail(db, Unauthorized)
    else InsertRequest(db, id, NewRequest(key.value, db.keys[key.value].credential, now, Http, Inference))
  }

  datatype Route = Route(apiKey: string, credential: string, adapter: string, authKind: string, accountRef: string)

  predicate RouteStands(db: Db, route: Route) {
    && Eligible(db, route.apiKey) && db.keys[route.apiKey].credential == route.credential
    && db.credentials[route.credential].adapter == route.adapter
    && db.credentials[route.credential].authKind == route.authKind
    && db.credentials[route.credential].accountRef == route.accountRef
  }

  function StartWebSocketOperation(db: Db, route: Route, id: string, kind: OperationKind, now: Utc): Tx {
    if !ValidRequestId(id) || kind.OtherKind? then Fail(db, InvalidArgument)
    else if !RouteStands(db, route) then Fail(db, Unauthorized)
    else InsertRequest(db, id, NewRequest(route.apiKey, route.credential, now, WebSocket, kind))
  }

  // ----- Finalising --------------------------------------------------------------------

  datatype RequestResult = RequestResult(
    completedAt: Option<Utc>,
    status: RequestStatus,
    httpStatus: Option<int>,
    ttfb: Option<int>,
    duration: int,
    usage: Option<TokenUsage>,
    providerRequestId: Option<string>)

  predicate ValidTerminalStatus(s: RequestStatus) {
    s == Completed || s == UpstreamError || s == Disconnected
  }

  predicate ValidProviderRequestId(s: string) {
    0 < |s| <= 512 && forall i :: 0 <= i < |s| ==> '\U{21}' <= s[i] <= '\U{7e}'
  }

  /** Duration.Milliseconds, which truncates toward zero. */
  function Milliseconds(nanos: int): int {
    if nanos >= 0 then nanos / 1_000_000 else -(-nanos / 1_000_000)
  }

  function AddTokens(a: TokenUsage, b: TokenUsage): TokenUsage {
    TokenUsage(a.input + b.input, a.cachedInput + b.cachedInput, a.cacheWriteInput + b.cacheWriteInput,
               a.output + b.output, a.reasoningOutput + b.reasoningOutput, a.total + b.total)
  }

  const NO_USAGE := Aggregate(0, 0, 0, 0, 0, 0, NO_TOKENS)

  function AddRequest(a: Aggregate, status: RequestStatus, durationMs: int, usage: Option<TokenUsage>): Aggregate {
    Aggregate(
      a.requests + 1,
      a.completed + (if status == Completed then 1 else 0),
      a.errors + (if status == UpstreamError then 1 else 0),
      a.disconnected + (if status == Disconnected then 1 else 0),
      a.durationMs + durationMs,
      a.observations + (if usage.Some? then 1 else 0),
      AddTokens(a.tokens, if usage.Some? then usage.value else NO_TOKENS))
  }

  /** addDailyUsageTx: insert, or add to the row on conflict. */
  function AddDaily(
    daily: map<DayKey, Aggregate>, at: DayKey, status: RequestStatus, durationMs: int, usage: Option<TokenUsage>)
    : map<DayKey, Aggregate>
  {
    daily[at := AddRequest(if at in daily then daily[at] else NO_USAGE, status, durationMs, usage)]
  }

  function CompleteRow(row: Request, result: RequestResult, now: Utc): Request {
    row.(
      completedAt := Some(if result.completedAt.Some? then result.completedAt.value else now),
      status := result.status,
      httpStatus := result.httpStatus,
      ttfbMs := if result.ttfb.Some? then Some(Milliseconds(result.ttfb.value)) else None,
      durationMs := Milliseconds(if result.duration < 0 then 0 else result.duration),
      usage := result.usage,
      providerRequestId := result.providerRequestId,
      aggregated := true)
  }

  predicate ValidResult(result: RequestResult) {
    && ValidTerminalStatus(result.status)
    && (result.providerRequestId.Some? ==> ValidProviderRequestId(result.providerRequestId.value))
  }

  function FinalizeRequest(db: Db, id: string, result: RequestResult, now: Utc): Tx {
    if !ValidResult(result) then Fail(db, InvalidArgument)
    else if id !in db.requests || db.requests[id].status != InProgress then Fail(db, NotFound)
    else
      var row := CompleteRow(db.requests[id], result, now);
      Done(db.(
        requests := db.requests[id := row],
        daily := if row.kind == Inference
                 then AddDaily(db.daily, (DateOnly(row.startedAt), row.apiKey), row.status, row.durationMs, row.usage)
                 else db.daily))
  }

  const RECOVERED := RequestResult(None, UpstreamError, Some(503), None, 0, None, None)

  // ----- Pruning -----------------------------------------------------------------------

  predicate StartedBefore(row: Request, cutoff: Utc) {
    TextLess(Timestamp(row.startedAt), Timestamp(cutoff))
  }

  function PendingRows(db: Db, cutoff: Utc): set<string> {
    set id | id in db.requests && StartedBefore(db.requests[id], cutoff)
             && db.requests[id].status != InProgress && !db.requests[id].aggregated
  }

  /** The rows that detail pruning deletes, and that its preview counts. */
  function PrunableRows(db: Db, cutoff: Utc): set<string> {
    set id | id in db.requests && StartedBefore(db.requests[id], cutoff) && db.requests[id].status != InProgress
  }

  function OldDays(db: Db, day: string): set<DayKey> {
    set at | at in db.daily && TextLess(at.0, day)
  }

  function AddRow(db: Db, row: Request): map<DayKey, Aggregate> {
    AddDaily(db.daily, (DateOnly(row.startedAt), row.apiKey), row.status, row.durationMs, row.usage)
  }

  /** The pending rows, in the order in which the query returned them, are aggregated and marked. */
  function AggregateRows(db: Db, rows: seq<string>): (r: Db)
    requires forall id :: id in rows ==> id in db.requests
    ensures r.requests.Keys == db.requests.Keys && r.credentials == db.credentials && r.keys == db.keys
  {
    if rows == [] then db
    else
      var before := AggregateRows(db, rows[..|rows| - 1]);
      var id := rows[|rows| - 1];
      before.(daily := AddRow(before, before.requests[id]),
              requests := before.requests[id := before.requests[id].(aggregated := true)])
  }

  ghost predicate IsListing(rows: seq<string>, ids: set<string>) {
    && (forall i, j :: 0 <= i < j < |rows| ==> rows[i] != rows[j])
    && (forall id :: id in ids <==> id in rows)
  }

  /** The rows that the deletion of old aggregated details leaves. */
  function KeptRows(requests: map<string, Request>, cutoff: Utc): map<string, Request> {
    map id | id in requests && !(StartedBefore(requests[id], cutoff)
                                 && requests[id].status != InProgress && requests[id].aggregated)
           :: requests[id]
  }

  function PruneDetailsBefore(db: Db, cutoff: Utc, rows: seq<string>): Tx
    requires IsListing(rows, PendingRows(db, cutoff))
  {
    var ready := AggregateRows(db, rows);
    Done(ready.(requests := KeptRows(ready.requests, cutoff)))
  }

  /** `valid` is the verdict of the date validation on the text. */
  function DeleteAggregatesBefore(db: Db, day: string, valid: bool): Tx {
    if !valid || day == "" then Fail(db, InvalidArgument)
    else Done(db.(daily := map at | at in db.daily && !TextLess(at.0, day) :: db.daily[at]))
  }
}
