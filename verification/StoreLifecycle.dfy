/** The life of a request in the coordinator database: admitted, finalised once, and deleted only by a prune. */
module StoreLifecycle {
  import opened Domain
  import opened TextOrder
  import opened Timestamps
  import opened StoreState
  import opened StoreRuns

  // ----- Admissions and finalisations of one request -----------------------------------

  datatype Life = Idle | Running(at: DayKey, kind: OperationKind) | Broken

  /** What a history says about a request: admissions and finalisations alternate, and a finalisation has the day, key
      and kind of the admission before it; anything else is broken. */
  ghost function LifeOf(history: seq<LedgerEvent>, id: string): Life {
    if history == [] then Idle
    else LifeAfter(LifeOf(history[..|history| - 1], id), history[|history| - 1], id)
  }

  ghost function LifeAfter(life: Life, e: LedgerEvent, id: string): Life {
    if e.Admitted? && e.request == id then (if life == Idle then Running(e.at, e.kind) else Broken)
    else if e.Finalised? && e.request == id then (if life == Running(e.at, e.kind) then Idle else Broken)
    else life
  }

  lemma LifeSnoc(history: seq<LedgerEvent>, e: LedgerEvent, id: string)
    ensures LifeOf(history + [e], id) == LifeAfter(LifeOf(history, id), e, id)
  {
    assert (history + [e])[..|history|] == history;
  }

  /** What the tables say about it. */
  ghost function Standing(db: Db, id: string): Life {
    if id in db.requests && db.requests[id].status == InProgress
    then Running(DayOf(db.requests[id]), db.requests[id].kind) else Idle
  }

  ghost predicate LifeOk(db: Db, history: seq<LedgerEvent>, id: string) {
    LifeOf(history, id) == Standing(db, id)
  }

  // ----- Every step keeps it -----------------------------------------------------------

  lemma SameStanding(db: Db, db': Db, history: seq<LedgerEvent>, id: string)
    requires LifeOk(db, history, id) && Standing(db', id) == Standing(db, id)
    ensures LifeOk(db', history, id)
  {
  }

  /** One event more, and the standing it leads to. */
  lemma NextLife(db: Db, db': Db, history: seq<LedgerEvent>, e: LedgerEvent, id: string)
    requires LifeOk(db, history, id) && Standing(db', id) == LifeAfter(Standing(db, id), e, id)
    ensures LifeOk(db', history + [e], id)
  {
    LifeSnoc(history, e, id);
  }

  lemma FinaliseStanding(db: Db, request: string, result: RequestResult, now: Utc, id: string)
    requires FinalizeRequest(db, request, result, now).error.None?
    ensures Standing(FinalizeRequest(db, request, result, now).db, id) ==
            LifeAfter(Standing(db, id), Reported(request, db.requests[request], result), id)
  {
  }

  lemma FinaliseLife(db: Db, history: seq<LedgerEvent>, request: string, result: RequestResult, now: Utc, id: string)
    requires LifeOk(db, history, id)
    ensures var tx := FinalizeRequest(db, request, result, now);
            if tx.error.None? then LifeOk(tx.db, history + [Reported(request, db.requests[request], result)], id)
            else LifeOk(tx.db, history, id)
  {
    var tx := FinalizeRequest(db, request, result, now);
    if tx.error.None? {
      FinaliseStanding(db, request, result, now, id);
      NextLife(db, tx.db, history, Reported(request, db.requests[request], result), id);
    }
  }

  lemma DeleteLife(db: Db, history: seq<LedgerEvent>, day: string, valid: bool, id: string)
    requires LifeOk(db, history, id)
    ensures var tx := DeleteAggregatesBefore(db, day, valid);
            LifeOk(tx.db, if tx.error.None? then history + [AggregatesDeleted(day)] else history, id)
  {
    var tx := DeleteAggregatesBefore(db, day, valid);
    if tx.error.None? { NextLife(db, tx.db, history, AggregatesDeleted(day), id); }
  }

  lemma PruneStanding(db: Db, db': Db, gone: set<string>, id: string)
    requires db'.requests == db.requests - gone
    requires id in gone && id in db.requests ==> db.requests[id].status != InProgress
    ensures Standing(db', id) == Standing(db, id)
  {
  }

  lemma PruneLife(db: Db, history: seq<LedgerEvent>, cutoff: Utc, rows: seq<string>, id: string)
    requires LifeOk(db, history, id) && RowsOk(db) && IsListing(rows, PendingRows(db, cutoff))
    ensures LifeOk(PruneDetailsBefore(db, cutoff, rows).db, history, id)
  {
    var db' := PruneDetailsBefore(db, cutoff, rows).db;
    PruneChangesNoAggregate(db, cutoff, rows);
    PruneStanding(db, db', PrunableRows(db, cutoff), id);
    SameStanding(db, db', history, id);
  }

  /** The requests after a transaction that inserted one, and the requests otherwise. */
  ghost predicate Inserted(db: Db, tx: Tx, id: string) {
    if tx.error.None? then
      && id !in db.requests && id in tx.db.requests && tx.db.requests[id].status == InProgress
      && tx.db.requests == db.requests[id := tx.db.requests[id]]
    else tx.db.requests == db.requests
  }

  /** An administrative transaction changes the requests only by inserting the one it admits. */
  lemma AdministerInserts(db: Db, a: Action)
    ensures var tx := Administer(db, a);
            if Starts(a) then Inserted(db, tx, a.request) else tx.db.requests == db.requests
  {
    match a {
      case Authenticates(presented, request, now) => AuthenticationInserts(db, presented, request, now);
      case StartsOperation(route, request, kind, now) => OperationInserts(db, route, request, kind, now);
      case _ => QuietAdministration(db, a);
    }
  }

  lemma AuthenticationInserts(db: Db, key: Option<string>, id: string, now: Utc)
    ensures Inserted(db, AuthenticateAndStart(db, key, id, now), id)
  {
  }

  lemma OperationInserts(db: Db, route: Route, id: string, kind: OperationKind, now: Utc)
    ensures Inserted(db, StartWebSocketOperation(db, route, id, kind, now), id)
  {
  }

  lemma InsertStanding(db: Db, tx: Tx, request: string, id: string)
    requires tx.error.None? && Inserted(db, tx, request)
    ensures var row := tx.db.requests[request];
            Standing(tx.db, id) == LifeAfter(Standing(db, id), Admitted(request, DayOf(row), row.kind), id)
  {
  }

  lemma AdmissionLife(db: Db, history: seq<LedgerEvent>, a: Action, tx: Tx, id: string)
    requires LifeOk(db, history, id) && Starts(a) && Inserted(db, tx, a.request)
    ensures LifeOk(tx.db, WithAdmission(history, a, tx), id)
  {
    if tx.error.None? {
      var row := tx.db.requests[a.request];
      InsertStanding(db, tx, a.request, id);
      NextLife(db, tx.db, history, Admitted(a.request, DayOf(row), row.kind), id);
    } else {
      SameStanding(db, tx.db, history, id);
    }
  }

  lemma AdministerLife(db: Db, history: seq<LedgerEvent>, a: Action, id: string)
    requires LifeOk(db, history, id)
    ensures LifeOk(Administer(db, a).db, WithAdmission(history, a, Administer(db, a)), id)
  {
    AdministerInserts(db, a);
    if Starts(a) {
      AdmissionLife(db, history, a, Administer(db, a), id);
    } else {
      SameStanding(db, Administer(db, a).db, history, id);
    }
  }

  lemma FenceKeepsRequests(st: State, a: Action, st': State)
    requires FenceStep(st, a) == Some(st')
    ensures st'.db.requests == st.db.requests && st'.history == st.history
  {
  }

  lemma StepLife(st: State, a: Action, st': State, id: string)
    requires LifeOk(st.db, st.history, id) && RowsOk(st.db) && Step(st, a) == Some(st')
    ensures LifeOk(st'.db, st'.history, id)
  {
    match a {
      case FenceOpens(_) => FenceKeepsRequests(st, a, st');
      case FenceCloses(_, _) => FenceKeepsRequests(st, a, st');
      case Finalises(request, result, now) => FinaliseLife(st.db, st.history, request, result, now, id);
      case DeletesAggregates(day, valid) => DeleteLife(st.db, st.history, day, valid, id);
      case Prunes(cutoff, rows) => PruneLife(st.db, st.history, cutoff, rows, id);
      case _ => AdministerLife(st.db, st.history, a, id);
    }
  }

  lemma {:induction false} RunLife(tr: seq<State>, i: nat, id: string)
    requires IsRun(tr) && i < |tr|
    ensures LifeOk(tr[i].db, tr[i].history, id)
  {
    if i > 0 {
      RunLife(tr, i - 1, id);
      RunInv(tr, i - 1);
      assert StepAt(tr, i);
      var a :| Step(tr[i - 1], a) == Some(tr[i]);
      StepLife(tr[i - 1], a, tr[i], id);
    }
  }

  // ----- Guarantees --------------------------------------------------------------------

  ghost function Admissions(history: seq<LedgerEvent>, id: string): nat {
    if history == [] then 0
    else
      var e := history[|history| - 1];
      Admissions(history[..|history| - 1], id) + if e.Admitted? && e.request == id then 1 else 0
  }

  ghost function Finalisations(history: seq<LedgerEvent>, id: string): nat {
    if history == [] then 0
    else
      var e := history[|history| - 1];
      Finalisations(history[..|history| - 1], id) + if e.Finalised? && e.request == id then 1 else 0
  }

  lemma {:induction false} LifeCounts(history: seq<LedgerEvent>, id: string)
    requires LifeOf(history, id) != Broken
    ensures Admissions(history, id) == Finalisations(history, id) + if LifeOf(history, id).Running? then 1 else 0
  {
    if history != [] { LifeCounts(history[..|history| - 1], id); }
  }

  /** In every run the admissions and finalisations of a request alternate, each finalisation on the day, key and kind
      of its admission; so the admissions are the finalisations and, while it is in progress, one more. */
  lemma FinalisedOncePerAdmission(tr: seq<State>, id: string)
    requires IsRun(tr)
    ensures var st := tr[|tr| - 1];
            && LifeOf(st.history, id) == Standing(st.db, id)
            && Admissions(st.history, id) ==
               Finalisations(st.history, id)
               + (if id in st.db.requests && st.db.requests[id].status == InProgress then 1 else 0)
  {
    RunLife(tr, |tr| - 1, id);
    LifeCounts(tr[|tr| - 1].history, id);
  }

  lemma QuietStep(st: State, a: Action, st': State, id: string)
    requires Step(st, a) == Some(st') && id in st.db.requests
    requires !a.Finalises? && !a.Prunes?
    ensures id in st'.db.requests && st'.db.requests[id] == st.db.requests[id]
  {
    if a.FenceOpens? || a.FenceCloses? {
      FenceKeepsRequests(st, a, st');
    } else if !a.DeletesAggregates? {
      AdministerInserts(st.db, a);
    }
  }

  lemma FinaliseStep(db: Db, request: string, result: RequestResult, now: Utc, id: string)
    requires id in db.requests
    ensures var requests := FinalizeRequest(db, request, result, now).db.requests;
            && id in requests
            && (requests[id] == db.requests[id] || (request == id && db.requests[id].status == InProgress))
  {
  }

  /** A prune either keeps a row or deletes it, and it deletes the finished rows from before the cutoff. */
  lemma PruneStep(db: Db, cutoff: Utc, rows: seq<string>, id: string)
    requires RowsOk(db) && IsListing(rows, PendingRows(db, cutoff)) && id in db.requests
    ensures var requests := PruneDetailsBefore(db, cutoff, rows).db.requests;
            && (id in requests ==> requests[id] == db.requests[id])
            && (id !in requests <==> StartedBefore(db.requests[id], cutoff) && db.requests[id].status != InProgress)
  {
    PruneChangesNoAggregate(db, cutoff, rows);
    KeptOrDeleted(db.requests, PrunableRows(db, cutoff), id);
  }

  lemma KeptOrDeleted(requests: map<string, Request>, gone: set<string>, id: string)
    requires id in requests
    ensures id in requests - gone <==> id !in gone
    ensures id in requests - gone ==> (requests - gone)[id] == requests[id]
  {
  }

  /** What any step does to a row: it stays, or it was in progress and is finalised, or it was finished and is pruned by
      a later cutoff. */
  lemma RowStep(st: State, a: Action, st': State, id: string)
    requires RowsOk(st.db) && Step(st, a) == Some(st') && id in st.db.requests
    ensures id in st'.db.requests ==>
              st'.db.requests[id] == st.db.requests[id]
              || (a.Finalises? && a.request == id && st.db.requests[id].status == InProgress)
    ensures id !in st'.db.requests ==>
              a.Prunes? && StartedBefore(st.db.requests[id], a.cutoff) && st.db.requests[id].status != InProgress
  {
    if a.Prunes? { PruneStep(st.db, a.cutoff, a.rows, id); }
    else if a.Finalises? { FinaliseStep(st.db, a.request, a.result, a.now, id); }
    else { QuietStep(st, a, st', id); }
  }

  lemma FinishedStepAt(tr: seq<State>, i: nat, id: string) returns (a: Action)
    requires IsRun(tr) && 0 < i < |tr|
    requires id in tr[i - 1].db.requests && tr[i - 1].db.requests[id].status != InProgress
    ensures Step(tr[i - 1], a) == Some(tr[i])
    ensures id in tr[i].db.requests ==> tr[i].db.requests[id] == tr[i - 1].db.requests[id]
    ensures id !in tr[i].db.requests ==> a.Prunes? && StartedBefore(tr[i - 1].db.requests[id], a.cutoff)
  {
    RunInv(tr, i - 1);
    assert StepAt(tr, i);
    a :| Step(tr[i - 1], a) == Some(tr[i]);
    RowStep(tr[i - 1], a, tr[i], id);
  }

  /** The row is there from state i to state j. */
  ghost predicate Kept(tr: seq<State>, i: nat, j: nat, id: string)
    requires j < |tr|
  {
    forall k :: i <= k <= j ==> id in tr[k].db.requests
  }

  /** A finished request never changes while its row is there, and every attempt to finalise it again fails without any
      effect. */
  lemma {:induction false} FinishedForGood(tr: seq<State>, i: nat, j: nat, id: string, again: RequestResult, now: Utc)
    requires IsRun(tr) && i <= j < |tr| && Kept(tr, i, j, id)
    requires id in tr[i].db.requests && tr[i].db.requests[id].status != InProgress
    ensures id in tr[j].db.requests && tr[j].db.requests[id] == tr[i].db.requests[id]
    ensures FinalizeRequest(tr[j].db, id, again, now).error.Some?
    ensures FinalizeRequest(tr[j].db, id, again, now).db == tr[j].db
  {
    if i < j {
      assert id in tr[j].db.requests;
      FinishedForGood(tr, i, j - 1, id, again, now);
      var a := FinishedStepAt(tr, j, id);
    }
  }

  /** A request that is in progress leaves that state only by being finalised: no transaction deletes its row. */
  lemma InProgressStep(tr: seq<State>, i: nat, id: string)
    requires IsRun(tr) && 0 < i < |tr|
    requires id in tr[i - 1].db.requests && tr[i - 1].db.requests[id].status == InProgress
    ensures id in tr[i].db.requests
    ensures tr[i].db.requests[id] == tr[i - 1].db.requests[id]
            || exists result, now :: Step(tr[i - 1], Finalises(id, result, now)) == Some(tr[i])
  {
    RunInv(tr, i - 1);
    assert StepAt(tr, i);
    var a :| Step(tr[i - 1], a) == Some(tr[i]);
    RowStep(tr[i - 1], a, tr[i], id);
  }

  /** The id of a row that is gone is free: it can be admitted again, so finalisation is once per admission and not once
      per id. */
  lemma DeletedIdIsFree(db: Db, cutoff: Utc, rows: seq<string>, id: string, key: string, now: Utc)
    requires RowsOk(db) && IsListing(rows, PendingRows(db, cutoff)) && id in PrunableRows(db, cutoff)
    requires ValidRequestId(id) && Eligible(db, key)
    ensures var pruned := PruneDetailsBefore(db, cutoff, rows).db;
            var tx := AuthenticateAndStart(pruned, Some(key), id, now);
            tx.error.None? && id in tx.db.requests && tx.db.requests[id].status == InProgress
  {
    PruneChangesNoAggregate(db, cutoff, rows);
  }
}
