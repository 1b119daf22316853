/**
 Every sequence of transactions on the coordinator database. Write transactions exclude each other; a credential
 fence keeps its transaction open while an external callback runs, so it is two steps with the write lock in between.
 */
module StoreRuns {
  import opened Domain
  import opened TextOrder
  import opened Timestamps
  import opened StoreState

  // ----- What happened to the ledger ---------------------------------------------------

  datatype LedgerEvent =
    | Admitted(request: string, at: DayKey, kind: OperationKind)
    | Finalised(
        request: string, at: DayKey, kind: OperationKind, status: RequestStatus, durationMs: int,
        usage: Option<TokenUsage>)
    | AggregatesDeleted(before: string)

  /** The aggregate that a history calls for: the sum of the inference requests of that day and key, finalised since the
      aggregates of that day were last deleted; none if there are none. */
  ghost function Expected(history: seq<LedgerEvent>, at: DayKey): Option<Aggregate> {
    if history == [] then None
    else
      var sum := Expected(history[..|history| - 1], at);
      match history[|history| - 1]
      case Admitted(_, _, _) => sum
      case Finalised(_, where, kind, status, durationMs, usage) =>
        if where == at && kind == Inference then
          Some(AddRequest(if sum.Some? then sum.value else NO_USAGE, status, durationMs, usage))
        else sum
      case AggregatesDeleted(before) => if TextLess(at.0, before) then None else sum
  }

  // ----- States and steps --------------------------------------------------------------

  datatype Fence = Fence(credential: string, removing: bool)

  datatype State = State(db: Db, fence: Option<Fence>, history: seq<LedgerEvent>, removed: set<string>)

  datatype Action =
    | CreatesCredential(id: string, credential: Credential)
    | SetsEnabled(id: string, enabled: bool)
    | MarksRequiresLogin(id: string)
    | DeletesMetadata(id: string, now: Utc)
    | CreatesKey(key: string, id: string)
    | RevokesKey(key: string)
    | Authenticates(presented: Option<string>, request: string, now: Utc)
    | StartsOperation(route: Route, request: string, kind: OperationKind, now: Utc)
    | Finalises(request: string, result: RequestResult, now: Utc)
    | Prunes(cutoff: Utc, rows: seq<string>)
    | DeletesAggregates(day: string, valid: bool)
    | FenceOpens(fenced: Fence)
    | FenceCloses(callback: bool, now: Utc)

  ghost predicate Init(st: State) {
    st == State(EMPTY_DB, None, [], {})
  }

  /** The transactions that leave the ledger to its rows. */
  ghost function Administer(db: Db, a: Action): Tx {
    match a
    case CreatesCredential(id, c) => CreateCredential(db, id, c)
    case SetsEnabled(id, enabled) => SetCredentialEnabled(db, id, enabled)
    case MarksRequiresLogin(id) => MarkCredentialRequiresLogin(db, id)
    case DeletesMetadata(id, now) => DeleteCredentialMetadata(db, id, now)
    case CreatesKey(key, id) => CreateApiKey(db, key, id)
    case RevokesKey(key) => RevokeApiKey(db, key)
    case Authenticates(presented, request, now) => AuthenticateAndStart(db, presented, request, now)
    case StartsOperation(route, request, kind, now) => StartWebSocketOperation(db, route, request, kind, now)
    case _ => Done(db)
  }

  function DayOf(row: Request): DayKey {
    (DateOnly(row.startedAt), row.apiKey)
  }

  /** The history with the admission of an action that started a request. */
  ghost function WithAdmission(history: seq<LedgerEvent>, a: Action, tx: Tx): seq<LedgerEvent> {
    if (a.Authenticates? || a.StartsOperation?) && tx.error.None? && a.request in tx.db.requests then
      history + [Admitted(a.request, DayOf(tx.db.requests[a.request]), tx.db.requests[a.request].kind)]
    else history
  }

  ghost function FinalisedRow(request: string, row: Request): LedgerEvent {
    Finalised(request, DayOf(row), row.kind, row.status, row.durationMs, row.usage)
  }

  /** What the caller reports about a request, on the day and key it was admitted with. */
  ghost function Reported(request: string, row: Request, result: RequestResult): LedgerEvent {
    Finalised(request, DayOf(row), row.kind, result.status,
              if result.duration < 0 then 0 else result.duration / 1_000_000, result.usage)
  }

  ghost function FenceStep(st: State, a: Action): Option<State> {
    match a
    case FenceOpens(f) =>
      if st.fence.Some? then None
      else if MutationTarget(st.db, f.credential).Some? || (f.removing && HasActiveKey(st.db, f.credential))
      then Some(st)
      else Some(st.(fence := Some(f)))
    case FenceCloses(callback, now) =>
      if st.fence.None? then None
      else
        var f := st.fence.value;
        if !callback || !f.removing then Some(st.(fence := None))
        else
          var tx := DeleteCredentialMetadata(st.db, f.credential, now);
          Some(st.(fence := None, db := tx.db,
                   removed := if tx.error.None? then st.removed + {f.credential} else st.removed))
    case _ => None
  }

  ghost function Step(st: State, a: Action): Option<State> {
    if a.FenceOpens? || a.FenceCloses? then FenceStep(st, a)
    else if st.fence.Some? then None
    else
      match a
      case Finalises(request, result, now) =>
        var tx := FinalizeRequest(st.db, request, result, now);
        Some(st.(db := tx.db,
                 history := if tx.error.None? then st.history + [Reported(request, st.db.requests[request], result)]
                            else st.history))
      case Prunes(cutoff, rows) =>
        if IsListing(rows, PendingRows(st.db, cutoff)) then Some(st.(db := PruneDetailsBefore(st.db, cutoff, rows).db))
        else None
      case DeletesAggregates(day, valid) =>
        var tx := DeleteAggregatesBefore(st.db, day, valid);
        Some(st.(db := tx.db, history := if tx.error.None? then st.history + [AggregatesDeleted(day)] else st.history))
      case _ =>
        var tx := Administer(st.db, a);
        Some(st.(db := tx.db, history := WithAdmission(st.history, a, tx)))
  }

  ghost predicate Next(st: State, st': State) {
    exists a :: Step(st, a) == Some(st')
  }

  ghost predicate StepAt(tr: seq<State>, i: nat)
    requires 0 < i < |tr|
  {
    Next(tr[i - 1], tr[i])
  }

  ghost predicate IsRun(tr: seq<State>) {
    && |tr| > 0 && Init(tr[0])
    && forall i :: 0 < i < |tr| ==> StepAt(tr, i)
  }

  // ----- Invariants --------------------------------------------------------------------

  ghost predicate RowOk(row: Request) {
    && (row.status == InProgress || ValidTerminalStatus(row.status))
    && (row.status != InProgress ==> row.aggregated)
    && !row.kind.OtherKind?
  }

  ghost predicate RowsOk(db: Db) {
    forall id :: id in db.requests ==> RowOk(db.requests[id])
  }

  ghost predicate DailyOk(db: Db, history: seq<LedgerEvent>, at: DayKey) {
    Expected(history, at) == if at in db.daily then Some(db.daily[at]) else None
  }

  ghost predicate HistoryOk(history: seq<LedgerEvent>) {
    forall i :: 0 <= i < |history| && history[i].Finalised? ==> ValidTerminalStatus(history[i].status)
  }

  ghost predicate LedgerOk(st: State) {
    && RowsOk(st.db) && HistoryOk(st.history)
    && forall at :: DailyOk(st.db, st.history, at)
  }

  /** A credential removed through the fence has no active key and no request in flight. */
  ghost predicate Gone(db: Db, id: string) {
    && id in db.credentials && db.credentials[id].status == CredentialDeleted && db.credentials[id].deletedAt.Some?
    && !HasActiveKey(db, id) && !HasInFlight(db, id)
  }

  ghost predicate FenceOk(st: State) {
    st.fence.Some? ==>
      && MutationTarget(st.db, st.fence.value.credential).None?
      && (st.fence.value.removing ==> !HasActiveKey(st.db, st.fence.value.credential))
  }

  ghost predicate Inv(st: State) {
    LedgerOk(st) && FenceOk(st) && forall id :: id in st.removed ==> Gone(st.db, id)
  }

  // ----- Ledger steps ------------------------------------------------------------------

  lemma ExpectedSnoc(history: seq<LedgerEvent>, e: LedgerEvent, at: DayKey)
    ensures Expected(history + [e], at) ==
            match e
            case Admitted(_, _, _) => Expected(history, at)
            case Finalised(_, where, kind, status, durationMs, usage) =>
              if where == at && kind == Inference then
                var sum := Expected(history, at);
                Some(AddRequest(if sum.Some? then sum.value else NO_USAGE, status, durationMs, usage))
              else Expected(history, at)
            case AggregatesDeleted(before) => if TextLess(at.0, before) then None else Expected(history, at)
  {
    assert (history + [e])[..|history|] == history;
  }

  lemma FinaliseIsExpected(
      db: Db, history: seq<LedgerEvent>, request: string, result: RequestResult, now: Utc, at: DayKey)
    requires DailyOk(db, history, at) && FinalizeRequest(db, request, result, now).error.None?
    ensures DailyOk(FinalizeRequest(db, request, result, now).db,
                    history + [Reported(request, db.requests[request], result)], at)
  {
    ExpectedSnoc(history, Reported(request, db.requests[request], result), at);
  }

  lemma FinaliseKeepsRows(db: Db, request: string, result: RequestResult, now: Utc)
    requires RowsOk(db)
    ensures RowsOk(FinalizeRequest(db, request, result, now).db)
  {
    var db' := FinalizeRequest(db, request, result, now).db;
    forall id | id in db'.requests ensures RowOk(db'.requests[id]) { assert RowOk(db.requests[id]); }
  }

  lemma FinaliseKeepsLedger(st: State, request: string, result: RequestResult, now: Utc)
    requires LedgerOk(st) && st.fence.None?
    ensures LedgerOk(Step(st, Finalises(request, result, now)).value)
  {
    FinaliseKeepsRows(st.db, request, result, now);
    if FinalizeRequest(st.db, request, result, now).error.None? {
      var st' := Step(st, Finalises(request, result, now)).value;
      forall at ensures DailyOk(st'.db, st'.history, at) {
        assert DailyOk(st.db, st.history, at);
        FinaliseIsExpected(st.db, st.history, request, result, now, at);
      }
    }
  }

  lemma DeleteKeepsLedger(st: State, day: string, valid: bool)
    requires LedgerOk(st) && st.fence.None?
    ensures LedgerOk(Step(st, DeletesAggregates(day, valid)).value)
  {
    var st' := Step(st, DeletesAggregates(day, valid)).value;
    if st'.history != st.history {
      forall at ensures DailyOk(st'.db, st'.history, at) {
        assert DailyOk(st.db, st.history, at);
        ExpectedSnoc(st.history, AggregatesDeleted(day), at);
      }
    }
  }

  /** Every terminal row is aggregated when it becomes terminal, so there is never anything pending. */
  lemma NothingPending(db: Db, cutoff: Utc)
    requires RowsOk(db)
    ensures PendingRows(db, cutoff) == {}
  {
    forall id | id in db.requests ensures id !in PendingRows(db, cutoff) { assert RowOk(db.requests[id]); }
  }

  lemma EmptyListing(rows: seq<string>)
    requires IsListing(rows, {})
    ensures rows == []
  {
    if rows != [] { HasMember(rows); }
  }

  lemma HasMember(rows: seq<string>)
    requires rows != []
    ensures exists id :: id in rows
  {
    assert rows[0] in rows;
  }

  lemma PruneChangesNoAggregate(db: Db, cutoff: Utc, rows: seq<string>)
    requires RowsOk(db) && IsListing(rows, PendingRows(db, cutoff))
    ensures var pruned := PruneDetailsBefore(db, cutoff, rows).db;
            && pruned.daily == db.daily && pruned.credentials == db.credentials && pruned.keys == db.keys
            && pruned.requests == db.requests - PrunableRows(db, cutoff)
  {
    NothingPending(db, cutoff);
    EmptyListing(rows);
    forall id | id in PrunableRows(db, cutoff) ensures db.requests[id].aggregated { assert RowOk(db.requests[id]); }
  }

  // ----- The other transactions --------------------------------------------------------

  /** What an administrative transaction may do to the rows of the ledger: at most add a request in progress, on an
      enabled credential. */
  ghost predicate OnlyAdmits(db: Db, db': Db) {
    && db'.daily == db.daily
    && (forall r :: r in db.requests ==> r in db'.requests && db'.requests[r] == db.requests[r])
    && (forall r :: r in db'.requests && r !in db.requests ==>
          RowOk(db'.requests[r]) && db'.requests[r].status == InProgress && Open(db, db'.requests[r].credential))
  }

  ghost predicate Open(db: Db, id: string) {
    Present(db, id) && db.credentials[id].status == CredentialEnabled
  }

  ghost predicate Starts(a: Action) {
    a.Authenticates? || a.StartsOperation?
  }

  lemma QuietAdministration(db: Db, a: Action)
    requires !Starts(a)
    ensures Administer(db, a).db.requests == db.requests && Administer(db, a).db.daily == db.daily
  {
  }

  lemma InsertOnlyAdmits(db: Db, id: string, row: Request)
    requires RowOk(row) && row.status == InProgress && Open(db, row.credential)
    ensures OnlyAdmits(db, InsertRequest(db, id, row).db)
  {
  }

  lemma AuthenticationOnlyAdmits(db: Db, key: Option<string>, id: string, now: Utc)
    ensures OnlyAdmits(db, AuthenticateAndStart(db, key, id, now).db)
  {
    if key.Some? && Eligible(db, key.value) {
      InsertOnlyAdmits(db, id, NewRequest(key.value, db.keys[key.value].credential, now, Http, Inference));
    }
  }

  lemma OperationOnlyAdmits(db: Db, route: Route, id: string, kind: OperationKind, now: Utc)
    ensures OnlyAdmits(db, StartWebSocketOperation(db, route, id, kind, now).db)
  {
    if !kind.OtherKind? && RouteStands(db, route) {
      InsertOnlyAdmits(db, id, NewRequest(route.apiKey, route.credential, now, WebSocket, kind));
    }
  }

  lemma AdministerOnlyAdmits(db: Db, a: Action)
    ensures OnlyAdmits(db, Administer(db, a).db)
  {
    match a {
      case Authenticates(presented, request, now) => AuthenticationOnlyAdmits(db, presented, request, now);
      case StartsOperation(route, request, kind, now) => OperationOnlyAdmits(db, route, request, kind, now);
      case _ => QuietAdministration(db, a);
    }
  }

  lemma NoKeyReturns(db: Db, a: Action, id: string)
    requires Gone(db, id)
    ensures !HasActiveKey(Administer(db, a).db, id)
  {
    var db' := Administer(db, a).db;
    forall k | k in db'.keys && db'.keys[k].credential == id ensures !db'.keys[k].active {
      if k in db.keys { assert !(db.keys[k].credential == id && db.keys[k].active); }
    }
  }

  lemma NothingStarts(db: Db, db': Db, id: string)
    requires Gone(db, id) && OnlyAdmits(db, db')
    ensures !HasInFlight(db', id)
  {
    forall r | r in db'.requests && db'.requests[r].credential == id ensures db'.requests[r].status != InProgress {
      if r in db.requests { assert !(db.requests[r].credential == id && db.requests[r].status == InProgress); }
    }
  }

  lemma CredentialStays(db: Db, a: Action, id: string)
    requires id in db.credentials && db.credentials[id].deletedAt.Some?
    ensures id in Administer(db, a).db.credentials && Administer(db, a).db.credentials[id] == db.credentials[id]
  {
  }

  lemma StillGone(db: Db, db': Db, id: string)
    requires Gone(db, id) && id in db'.credentials && db'.credentials[id] == db.credentials[id]
    requires !HasActiveKey(db', id) && !HasInFlight(db', id)
    ensures Gone(db', id)
  {
  }

  /** A deleted credential is left alone, and no key of it becomes active. */
  lemma AdministerKeepsGone(db: Db, a: Action, id: string)
    requires Gone(db, id)
    ensures Gone(Administer(db, a).db, id) && Administer(db, a).db.credentials[id] == db.credentials[id]
  {
    CredentialStays(db, a, id);
    AdministerOnlyAdmits(db, a);
    NoKeyReturns(db, a, id);
    NothingStarts(db, Administer(db, a).db, id);
    StillGone(db, Administer(db, a).db, id);
  }

  /** An admission is no usage. */
  lemma AdmissionKeepsDaily(db: Db, db': Db, history: seq<LedgerEvent>, a: Action, tx: Tx, at: DayKey)
    requires DailyOk(db, history, at) && db'.daily == db.daily
    ensures DailyOk(db', WithAdmission(history, a, tx), at)
  {
    var longer := WithAdmission(history, a, tx);
    if longer != history { ExpectedSnoc(history, longer[|history|], at); }
  }

  lemma AdministerKeeps(st: State, a: Action)
    requires Inv(st) && st.fence.None?
    ensures var tx := Administer(st.db, a); Inv(st.(db := tx.db, history := WithAdmission(st.history, a, tx)))
  {
    var tx := Administer(st.db, a);
    var db' := tx.db;
    AdministerOnlyAdmits(st.db, a);
    forall id | id in db'.requests ensures RowOk(db'.requests[id]) {
      if id in st.db.requests { assert RowOk(st.db.requests[id]); }
    }
    forall at ensures DailyOk(db', WithAdmission(st.history, a, tx), at) {
      assert DailyOk(st.db, st.history, at);
      AdmissionKeepsDaily(st.db, db', st.history, a, tx, at);
    }
    forall id | id in st.removed ensures Gone(db', id) { AdministerKeepsGone(st.db, a, id); }
  }

  /** The ledger transactions touch neither credentials nor keys, and start nothing. */
  lemma LedgerStepKeepsGone(st: State, a: Action, st': State, id: string)
    requires Inv(st) && Step(st, a) == Some(st') && (a.Finalises? || a.Prunes? || a.DeletesAggregates?)
    requires Gone(st.db, id)
    ensures Gone(st'.db, id) && st'.db.credentials[id] == st.db.credentials[id]
  {
    if a.Prunes? { PruneChangesNoAggregate(st.db, a.cutoff, a.rows); }
    assert st'.db.credentials == st.db.credentials && st'.db.keys == st.db.keys;
    forall r | r in st'.db.requests && st'.db.requests[r].credential == id
      ensures st'.db.requests[r].status != InProgress
    {
      assert !(st.db.requests[r].credential == id && st.db.requests[r].status == InProgress);
    }
  }

  lemma LedgerStepKeeps(st: State, a: Action, st': State)
    requires Inv(st) && Step(st, a) == Some(st') && (a.Finalises? || a.Prunes? || a.DeletesAggregates?)
    ensures Inv(st')
  {
    match a {
      case Finalises(request, result, now) => FinaliseKeepsLedger(st, request, result, now);
      case DeletesAggregates(day, valid) => DeleteKeepsLedger(st, day, valid);
      case Prunes(cutoff, rows) =>
        PruneChangesNoAggregate(st.db, cutoff, rows);
        forall id | id in st'.db.requests ensures RowOk(st'.db.requests[id]) { assert RowOk(st.db.requests[id]); }
        forall at ensures DailyOk(st'.db, st'.history, at) { assert DailyOk(st.db, st.history, at); }
    }
    forall id | id in st.removed ensures Gone(st'.db, id) { LedgerStepKeepsGone(st, a, st', id); }
  }

  lemma FenceStepKeeps(st: State, a: Action, st': State)
    requires Inv(st) && FenceStep(st, a) == Some(st')
    ensures Inv(st')
  {
    if st'.db != st.db {
      forall at ensures DailyOk(st'.db, st'.history, at) { assert DailyOk(st.db, st.history, at); }
      forall id | id in st'.removed ensures Gone(st'.db, id) {
        if id in st.removed { assert Gone(st.db, id); }
      }
    }
  }

  lemma StepKeeps(st: State, a: Action, st': State)
    requires Inv(st) && Step(st, a) == Some(st')
    ensures Inv(st')
  {
    if a.FenceOpens? || a.FenceCloses? {
      FenceStepKeeps(st, a, st');
    } else if a.Finalises? || a.Prunes? || a.DeletesAggregates? {
      LedgerStepKeeps(st, a, st');
    } else {
      AdministerKeeps(st, a);
    }
  }

  /** A removal through the fence, from its opening to its closing. */
  lemma RemovalKeeps(st: State, id: string, now: Utc)
    requires Inv(st) && st.fence.None? && MutationTarget(st.db, id).None? && !HasActiveKey(st.db, id)
    ensures var tx := DeleteCredentialMetadata(st.db, id, now);
            tx.error.None? && Inv(st.(db := tx.db, removed := st.removed + {id})) && Gone(tx.db, id)
  {
    var f := Fence(id, true);
    var open := st.(fence := Some(f));
    FenceStepKeeps(st, FenceOpens(f), open);
    var closed := st.(db := DeleteCredentialMetadata(st.db, id, now).db, removed := st.removed + {id});
    FenceStepKeeps(open, FenceCloses(true, now), closed);
    assert id in closed.removed;
  }

  lemma {:induction false} RunInv(tr: seq<State>, i: nat)
    requires IsRun(tr) && i < |tr|
    ensures Inv(tr[i])
  {
    if i > 0 {
      RunInv(tr, i - 1);
      assert StepAt(tr, i);
      var a :| Step(tr[i - 1], a) == Some(tr[i]);
      StepKeeps(tr[i - 1], a, tr[i]);
    }
  }

  // ----- Guarantees --------------------------------------------------------------------

  /** The inference requests of a day and key that were finalised since the aggregates of that day were last deleted. */
  ghost function Counted(history: seq<LedgerEvent>, at: DayKey): seq<LedgerEvent> {
    if history == [] then []
    else
      var before := Counted(history[..|history| - 1], at);
      var e := history[|history| - 1];
      if e.Admitted? then before
      else if e.AggregatesDeleted? then (if TextLess(at.0, e.before) then [] else before)
      else if e.at == at && e.kind == Inference then before + [e]
      else before
  }

  ghost function Sum(events: seq<LedgerEvent>, f: LedgerEvent -> int): int {
    if events == [] then 0 else Sum(events[..|events| - 1], f) + f(events[|events| - 1])
  }

  ghost function Ended(status: RequestStatus): LedgerEvent -> int {
    (e: LedgerEvent) => if e.Finalised? && e.status == status then 1 else 0
  }

  ghost function Observed(): LedgerEvent -> int {
    (e: LedgerEvent) => if e.Finalised? && e.usage.Some? then 1 else 0
  }

  ghost function Duration(): LedgerEvent -> int {
    (e: LedgerEvent) => if e.Finalised? then e.durationMs else 0
  }

  /** A token count of the requests that reported usage. */
  ghost function Tokens(f: TokenUsage -> int): LedgerEvent -> int {
    (e: LedgerEvent) => if e.Finalised? && e.usage.Some? then f(e.usage.value) else 0
  }

  ghost predicate TokensAddUp(events: seq<LedgerEvent>, t: TokenUsage) {
    && t.input == Sum(events, Tokens((u: TokenUsage) => u.input))
    && t.cachedInput == Sum(events, Tokens((u: TokenUsage) => u.cachedInput))
    && t.cacheWriteInput == Sum(events, Tokens((u: TokenUsage) => u.cacheWriteInput))
    && t.output == Sum(events, Tokens((u: TokenUsage) => u.output))
    && t.reasoningOutput == Sum(events, Tokens((u: TokenUsage) => u.reasoningOutput))
    && t.total == Sum(events, Tokens((u: TokenUsage) => u.total))
  }

  /** Column by column, an aggregate is the sum over the requests. */
  ghost predicate AddsUp(events: seq<LedgerEvent>, a: Aggregate) {
    && a.requests == |events|
    && a.completed == Sum(events, Ended(Completed))
    && a.errors == Sum(events, Ended(UpstreamError))
    && a.disconnected == Sum(events, Ended(Disconnected))
    && a.durationMs == Sum(events, Duration())
    && a.observations == Sum(events, Observed())
    && TokensAddUp(events, a.tokens)
  }

  lemma SumSnoc(events: seq<LedgerEvent>, e: LedgerEvent, f: LedgerEvent -> int)
    ensures Sum(events + [e], f) == Sum(events, f) + f(e)
  {
    assert (events + [e])[..|events|] == events;
  }

  lemma TokensAddUpSnoc(events: seq<LedgerEvent>, e: LedgerEvent, t: TokenUsage)
    requires TokensAddUp(events, t) && e.Finalised?
    ensures TokensAddUp(events + [e], AddTokens(t, if e.usage.Some? then e.usage.value else NO_TOKENS))
  {
    SumSnoc(events, e, Tokens((u: TokenUsage) => u.input));
    SumSnoc(events, e, Tokens((u: TokenUsage) => u.cachedInput));
    SumSnoc(events, e, Tokens((u: TokenUsage) => u.cacheWriteInput));
    SumSnoc(events, e, Tokens((u: TokenUsage) => u.output));
    SumSnoc(events, e, Tokens((u: TokenUsage) => u.reasoningOutput));
    SumSnoc(events, e, Tokens((u: TokenUsage) => u.total));
  }

  lemma AddsUpSnoc(events: seq<LedgerEvent>, e: LedgerEvent, a: Aggregate)
    requires AddsUp(events, a) && e.Finalised?
    ensures AddsUp(events + [e], AddRequest(a, e.status, e.durationMs, e.usage))
  {
    SumSnoc(events, e, Ended(Completed));
    SumSnoc(events, e, Ended(UpstreamError));
    SumSnoc(events, e, Ended(Disconnected));
    SumSnoc(events, e, Duration());
    SumSnoc(events, e, Observed());
    TokensAddUpSnoc(events, e, a.tokens);
  }

  ghost predicate Sums(events: seq<LedgerEvent>, sum: Option<Aggregate>) {
    (sum.None? <==> events == []) && AddsUp(events, if sum.Some? then sum.value else NO_USAGE)
  }

  lemma NothingSums(events: seq<LedgerEvent>)
    requires |events| == 0
    ensures Sums(events, None)
  {
    assert TokensAddUp(events, NO_TOKENS);
  }

  lemma SumsSnoc(events: seq<LedgerEvent>, e: LedgerEvent, sum: Option<Aggregate>)
    requires Sums(events, sum) && e.Finalised?
    ensures Sums(events + [e],
                 Some(AddRequest(if sum.Some? then sum.value else NO_USAGE, e.status, e.durationMs, e.usage)))
  {
    AddsUpSnoc(events, e, if sum.Some? then sum.value else NO_USAGE);
  }

  /** The running aggregate of a history is the sum over the requests that count. */
  lemma {:induction false} ExpectedAddsUp(history: seq<LedgerEvent>, at: DayKey)
    ensures Sums(Counted(history, at), Expected(history, at))
  {
    if history == [] {
      NothingSums(Counted(history, at));
    } else {
      var before, e := history[..|history| - 1], history[|history| - 1];
      ExpectedAddsUp(before, at);
      if e.Finalised? && e.at == at && e.kind == Inference {
        SumsSnoc(Counted(before, at), e, Expected(before, at));
      } else if e.AggregatesDeleted? && TextLess(at.0, e.before) {
        NothingSums(Counted(history, at));
      }
    }
  }

  lemma {:induction false} CountsAddUp(history: seq<LedgerEvent>, at: DayKey)
    requires HistoryOk(history) && Expected(history, at).Some?
    ensures var a := Expected(history, at).value;
            a.requests == a.completed + a.errors + a.disconnected && a.requests >= 1
  {
    var before := history[..|history| - 1];
    if Expected(before, at).Some? { CountsAddUp(before, at); }
  }

  /** Conservation: after any run, every daily aggregate is, column by column, the sum over the inference requests of
      that day and key finalised since its last deletion; days and keys without such requests have none; and the counts
      by outcome add up to the requests. */
  lemma LedgerConservation(tr: seq<State>, at: DayKey)
    requires IsRun(tr)
    ensures var st := tr[|tr| - 1];
            var counted := Counted(st.history, at);
            && (at in st.db.daily <==> counted != [])
            && (at in st.db.daily ==>
                  var a := st.db.daily[at]; AddsUp(counted, a) && a.requests == a.completed + a.errors + a.disconnected)
  {
    RunInv(tr, |tr| - 1);
    var st := tr[|tr| - 1];
    assert DailyOk(st.db, st.history, at);
    ExpectedAddsUp(st.history, at);
    if at in st.db.daily { CountsAddUp(st.history, at); }
  }

  /** While the callback of a fence runs, the credential is disabled, present and idle, and the only transaction that
      can come next is the one that closes the fence. */
  lemma FenceExcludesAdmission(tr: seq<State>, i: nat)
    requires IsRun(tr) && i < |tr| && tr[i].fence.Some?
    ensures var db := tr[i].db; var id := tr[i].fence.value.credential;
            && Present(db, id) && db.credentials[id].status == CredentialDisabled && !HasInFlight(db, id)
            && (tr[i].fence.value.removing ==> !HasActiveKey(db, id))
    ensures i + 1 < |tr| ==> exists callback, now :: Step(tr[i], FenceCloses(callback, now)) == Some(tr[i + 1])
  {
    RunInv(tr, i);
    if i + 1 < |tr| {
      assert StepAt(tr, i + 1);
      var a :| Step(tr[i], a) == Some(tr[i + 1]);
      OnlyTheFenceCloses(tr[i], a, tr[i + 1]);
      assert a == FenceCloses(a.callback, a.now);
    }
  }

  lemma OnlyTheFenceCloses(st: State, a: Action, st': State)
    requires st.fence.Some? && Step(st, a) == Some(st')
    ensures a.FenceCloses?
  {
  }

  lemma RemovedAreGone(tr: seq<State>, i: nat, id: string)
    requires IsRun(tr) && i < |tr| && id in tr[i].removed
    ensures Gone(tr[i].db, id)
  {
    RunInv(tr, i);
  }

  lemma FrozenInStep(tr: seq<State>, i: nat, id: string)
    requires IsRun(tr) && 0 < i < |tr| && id in tr[i - 1].removed
    ensures id in tr[i].removed && id in tr[i - 1].db.credentials && id in tr[i].db.credentials
    ensures tr[i].db.credentials[id] == tr[i - 1].db.credentials[id]
  {
    RunInv(tr, i - 1);
    assert StepAt(tr, i);
    var a :| Step(tr[i - 1], a) == Some(tr[i]);
    GoneIsFrozen(tr[i - 1], a, tr[i], id);
  }

  /** A credential removed through the fence stays removed: its row never changes again, and it never again has an
      active key or a request in flight. */
  lemma {:induction false} RemovalIsFinal(tr: seq<State>, i: nat, j: nat, id: string)
    requires IsRun(tr) && i <= j < |tr| && id in tr[i].removed
    ensures id in tr[j].removed && Gone(tr[j].db, id) && id in tr[i].db.credentials
    ensures tr[j].db.credentials[id] == tr[i].db.credentials[id]
  {
    if i < j {
      RemovalIsFinal(tr, i, j - 1, id);
      FrozenInStep(tr, j, id);
    }
    RemovedAreGone(tr, j, id);
  }

  lemma GoneIsFrozen(st: State, a: Action, st': State, id: string)
    requires Inv(st) && Step(st, a) == Some(st') && id in st.removed
    ensures id in st'.removed && id in st.db.credentials && id in st'.db.credentials
    ensures st'.db.credentials[id] == st.db.credentials[id]
  {
    assert Gone(st.db, id);
    if a.Finalises? || a.Prunes? || a.DeletesAggregates? {
      LedgerStepKeepsGone(st, a, st', id);
    } else if !(a.FenceOpens? || a.FenceCloses?) {
      AdministerKeepsGone(st.db, a, id);
    }
  }
}
