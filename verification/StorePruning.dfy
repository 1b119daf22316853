/** What pruning removes from the coordinator database, and what it may not touch. */
module StorePruning {
  import opened Domain
  import opened TextOrder
  import opened Timestamps
  import opened StoreState
  import opened StoreRuns

  // ----- Any database ------------------------------------------------------------------

  /** The ledger events of rows that pruning aggregates late. */
  ghost function LateEvents(db: Db, rows: seq<string>): seq<LedgerEvent>
    requires forall id :: id in rows ==> id in db.requests
  {
    if rows == [] then []
    else LateEvents(db, rows[..|rows| - 1]) + [FinalisedRow(rows[|rows| - 1], db.requests[rows[|rows| - 1]])]
  }

  lemma {:induction false} AggregatedRowsAreMarked(db: Db, rows: seq<string>, id: string)
    requires (forall r :: r in rows ==> r in db.requests) && id in db.requests
    ensures AggregateRows(db, rows).requests[id] ==
            if id in rows then db.requests[id].(aggregated := true) else db.requests[id]
  {
    if rows != [] {
      AggregatedRowsAreMarked(db, rows[..|rows| - 1], id);
      assert id in rows <==> id in rows[..|rows| - 1] || id == rows[|rows| - 1];
    }
  }

  /** The row that is added last stands for the same usage as at first. */
  lemma LastRow(db: Db, rows: seq<string>)
    requires rows != [] && forall r :: r in rows ==> r in db.requests
    ensures var id := rows[|rows| - 1];
            AggregateRows(db, rows[..|rows| - 1]).requests[id].(aggregated := true) ==
            db.requests[id].(aggregated := true)
  {
    AggregatedRowsAreMarked(db, rows[..|rows| - 1], rows[|rows| - 1]);
  }

  ghost function RequestCount(a: Option<Aggregate>): int {
    if a.Some? then a.value.requests else 0
  }

  ghost function DailyAt(daily: map<DayKey, Aggregate>, at: DayKey): Option<Aggregate> {
    if at in daily then Some(daily[at]) else None
  }

  /** A listed row of that day and key that is not inference. */
  ghost predicate Misfit(row: Request, at: DayKey) {
    DayOf(row) == at && row.kind != Inference
  }

  ghost function Misfits(db: Db, rows: seq<string>, at: DayKey): nat
    requires forall id :: id in rows ==> id in db.requests
  {
    if rows == [] then 0
    else Misfits(db, rows[..|rows| - 1], at) + if Misfit(db.requests[rows[|rows| - 1]], at) then 1 else 0
  }

  lemma {:induction false} NoMisfits(db: Db, rows: seq<string>, at: DayKey)
    requires forall id :: id in rows ==> id in db.requests
    ensures Misfits(db, rows, at) == 0 <==> forall id :: id in rows ==> !Misfit(db.requests[id], at)
  {
    if rows != [] {
      NoMisfits(db, rows[..|rows| - 1], at);
      assert forall id :: id in rows <==> id in rows[..|rows| - 1] || id == rows[|rows| - 1];
    }
  }

  /** The day counts `n` requests more than the history calls for, and agrees with it if that is none. */
  ghost predicate Exceeds(daily: Option<Aggregate>, expected: Option<Aggregate>, n: nat) {
    RequestCount(daily) == RequestCount(expected) + n && (n == 0 ==> daily == expected)
  }

  /** One row more: what is added to the aggregates, and what the history calls for. */
  lemma OneMore(db: Db, history: seq<LedgerEvent>, n: nat, id: string, row: Request, same: Request, at: DayKey)
    requires Exceeds(DailyAt(db.daily, at), Expected(history, at), n)
    requires row.(aggregated := true) == same.(aggregated := true)
    ensures Exceeds(DailyAt(AddRow(db, row), at), Expected(history + [FinalisedRow(id, same)], at),
                    n + (if Misfit(same, at) then 1 else 0))
  {
    ExpectedSnoc(history, FinalisedRow(id, same), at);
  }

  lemma LastEvent(db: Db, history: seq<LedgerEvent>, rows: seq<string>)
    requires rows != [] && forall id :: id in rows ==> id in db.requests
    ensures var before, id := rows[..|rows| - 1], rows[|rows| - 1];
            history + LateEvents(db, rows) == (history + LateEvents(db, before)) + [FinalisedRow(id, db.requests[id])]
  {
  }

  /** The request count exceeds what the history calls for by the rows that are not inference; without such rows the
      aggregates agree. */
  lemma {:induction false} LateRows(db: Db, history: seq<LedgerEvent>, rows: seq<string>, at: DayKey)
    requires forall id :: id in rows ==> id in db.requests
    requires DailyOk(db, history, at)
    ensures Exceeds(DailyAt(AggregateRows(db, rows).daily, at), Expected(history + LateEvents(db, rows), at),
                    Misfits(db, rows, at))
  {
    if rows == [] {
      assert history + [] == history;
    } else {
      var before, id := rows[..|rows| - 1], rows[|rows| - 1];
      LateRows(db, history, before, at);
      LastRow(db, rows);
      var mid, events := AggregateRows(db, before), history + LateEvents(db, before);
      OneMore(mid, events, Misfits(db, before, at), id, mid.requests[id], db.requests[id], at);
      LastEvent(db, history, rows);
    }
  }

  /** On any database, reachable or not, aggregating the listed rows late keeps a day and key in agreement with the
      history exactly if every listed row of that day and key is inference: the loop does not look at the kind. */
  lemma LateRowsAreAggregated(db: Db, history: seq<LedgerEvent>, rows: seq<string>, at: DayKey)
    requires forall id :: id in rows ==> id in db.requests
    requires DailyOk(db, history, at)
    ensures DailyOk(AggregateRows(db, rows), history + LateEvents(db, rows), at) <==>
            forall id :: id in rows && DayOf(db.requests[id]) == at ==> db.requests[id].kind == Inference
  {
    LateRows(db, history, rows, at);
    NoMisfits(db, rows, at);
    assert forall id :: id in rows ==>
             (Misfit(db.requests[id], at) <==> DayOf(db.requests[id]) == at && db.requests[id].kind != Inference);
  }

  /** A database with one finished prewarm that was not aggregated: pruning counts it as a request. */
  lemma LatePrewarmIsCounted(id: string, row: Request)
    requires row.kind == Prewarm && row.status == Completed && !row.aggregated
    ensures var db := EMPTY_DB.(requests := map[id := row]);
            && DailyOk(db, [], DayOf(row))
            && Expected([] + LateEvents(db, [id]), DayOf(row)) == None
            && DayOf(row) in AggregateRows(db, [id]).daily && AggregateRows(db, [id]).daily[DayOf(row)].requests == 1
  {
    var db, rows := EMPTY_DB.(requests := map[id := row]), [id];
    assert rows[..0] == [];
    assert LateEvents(db, rows) == [] + [FinalisedRow(id, row)];
    ExpectedSnoc([], FinalisedRow(id, row), DayOf(row));
    assert AggregateRows(db, rows[..0]) == db;
  }

  lemma PrunedRow(db: Db, cutoff: Utc, rows: seq<string>, id: string)
    requires IsListing(rows, PendingRows(db, cutoff)) && id in db.requests
    ensures id in PruneDetailsBefore(db, cutoff, rows).db.requests <==> id !in PrunableRows(db, cutoff)
    ensures id !in PrunableRows(db, cutoff) ==> PruneDetailsBefore(db, cutoff, rows).db.requests[id] == db.requests[id]
  {
    AggregatedRowsAreMarked(db, rows, id);
  }

  /** On any database, pruning details deletes exactly the finished requests that started before the cutoff, also those
      it had to aggregate first, and leaves every other row as it was. */
  lemma PruneRemovesPrunable(db: Db, cutoff: Utc, rows: seq<string>)
    requires IsListing(rows, PendingRows(db, cutoff))
    ensures PruneDetailsBefore(db, cutoff, rows).db.requests == db.requests - PrunableRows(db, cutoff)
  {
    var pruned := PruneDetailsBefore(db, cutoff, rows).db.requests;
    forall id | id in db.requests
      ensures id in pruned <==> id in db.requests - PrunableRows(db, cutoff)
      ensures id in pruned ==> pruned[id] == db.requests[id]
    {
      PrunedRow(db, cutoff, rows, id);
    }
    assert pruned.Keys <= db.requests.Keys;
  }

  // ----- Reachable databases -----------------------------------------------------------

  lemma PruneKeeps(st: State, cutoff: Utc, rows: seq<string>)
    requires Inv(st) && st.fence.None? && IsListing(rows, PendingRows(st.db, cutoff))
    ensures Inv(st.(db := PruneDetailsBefore(st.db, cutoff, rows).db))
    ensures PruneDetailsBefore(st.db, cutoff, rows).db.daily == st.db.daily
  {
    LedgerStepKeeps(st, Prunes(cutoff, rows), st.(db := PruneDetailsBefore(st.db, cutoff, rows).db));
    PruneChangesNoAggregate(st.db, cutoff, rows);
  }

  /** A database that some run leads to. */
  ghost predicate ReachableDb(db: Db) {
    exists tr :: IsRun(tr) && EndsWith(tr, db)
  }

  ghost predicate EndsWith(tr: seq<State>, db: Db) {
    |tr| > 0 && tr[|tr| - 1].db == db
  }

  lemma ReachableRowsOk(db: Db)
    requires ReachableDb(db)
    ensures RowsOk(db)
  {
    var tr :| IsRun(tr) && EndsWith(tr, db);
    RunInv(tr, |tr| - 1);
  }

  /** Pruning details never changes an aggregate, because nothing is ever left to aggregate; it removes exactly the
      finished requests that started before the cutoff. */
  lemma PruneIsInvisibleToLedger(db: Db, cutoff: Utc, rows: seq<string>)
    requires ReachableDb(db) && IsListing(rows, PendingRows(db, cutoff))
    ensures var pruned := PruneDetailsBefore(db, cutoff, rows).db;
            pruned.daily == db.daily && pruned.requests == db.requests - PrunableRows(db, cutoff)
  {
    ReachableRowsOk(db);
    PruneChangesNoAggregate(db, cutoff, rows);
  }

  // ----- The preview -------------------------------------------------------------------

  datatype Preview = Preview(details: nat, aggregates: nat)

  function PreviewPrune(db: Db, cutoff: Utc, includeAggregates: bool): Preview {
    Preview(|PrunableRows(db, cutoff)|, if includeAggregates then |OldDays(db, DateOnly(cutoff))| else 0)
  }

  lemma PreviewOfDays(db: Db, day: string)
    requires day != ""
    ensures |OldDays(db, day)| == |db.daily| - |DeleteAggregatesBefore(db, day, true).db.daily|
  {
    assert DeleteAggregatesBefore(db, day, true).db.daily == db.daily - OldDays(db, day);
    RemovedCount(db.daily, OldDays(db, day));
  }

  lemma PreviewOfAggregates(db: Db, pruned: Db, cutoff: Utc)
    requires pruned.daily == db.daily
    ensures PreviewPrune(db, cutoff, true).aggregates ==
            |pruned.daily| - |DeleteAggregatesBefore(pruned, DateOnly(cutoff), true).db.daily|
  {
    DigitsLength(cutoff.year, 4);
    PreviewOfDays(pruned, DateOnly(cutoff));
    assert OldDays(pruned, DateOnly(cutoff)) == OldDays(db, DateOnly(cutoff));
  }

  /** The preview counts exactly what an uninterrupted prune then deletes: the details, on any database; and on any
      reachable one the aggregates of the days before the cutoff. */
  lemma PreviewIsExact(db: Db, cutoff: Utc, rows: seq<string>)
    requires IsListing(rows, PendingRows(db, cutoff))
    ensures var pruned := PruneDetailsBefore(db, cutoff, rows).db;
            var deleted := DeleteAggregatesBefore(pruned, DateOnly(cutoff), true).db;
            && PreviewPrune(db, cutoff, true).details == |db.requests| - |pruned.requests|
            && (ReachableDb(db) ==> PreviewPrune(db, cutoff, true).aggregates == |pruned.daily| - |deleted.daily|)
  {
    PrunedCount(db, cutoff, rows);
    SameCount(AggregateRows(db, rows).requests, db.requests);
    if ReachableDb(db) {
      PruneIsInvisibleToLedger(db, cutoff, rows);
      PreviewOfAggregates(db, PruneDetailsBefore(db, cutoff, rows).db, cutoff);
    }
  }

  lemma RemovedCount<K, V>(m: map<K, V>, gone: set<K>)
    requires gone <= m.Keys
    ensures |m - gone| == |m| - |gone|
  {
    assert (m - gone).Keys == m.Keys - gone;
    assert |m.Keys - gone| == |m.Keys| - |gone|;
  }

  lemma SameCount<K, V>(m: map<K, V>, n: map<K, V>)
    requires m.Keys == n.Keys
    ensures |m| == |n|
  {
    assert |m| == |m.Keys| && |n| == |n.Keys|;
  }

  lemma PrunedCount(db: Db, cutoff: Utc, rows: seq<string>)
    requires IsListing(rows, PendingRows(db, cutoff))
    ensures |AggregateRows(db, rows).requests| - |PruneDetailsBefore(db, cutoff, rows).db.requests|
            == |PrunableRows(db, cutoff)|
  {
    PruneRemovesPrunable(db, cutoff, rows);
    RemovedCount(db.requests, PrunableRows(db, cutoff));
    SameCount(AggregateRows(db, rows).requests, db.requests);
  }

  /** For a midnight cutoff the two prunes agree on days: a finished request loses its details exactly if the aggregates
      of its day are deleted, for whatever key the day has any. */
  lemma PrunesAgreeOnDays(db: Db, cutoff: Utc, rows: seq<string>, id: string, key: string)
    requires IsMidnight(cutoff) && IsListing(rows, PendingRows(db, cutoff))
    requires id in db.requests && db.requests[id].status != InProgress
    requires (DateOnly(db.requests[id].startedAt), key) in db.daily
    ensures id !in PruneDetailsBefore(db, cutoff, rows).db.requests <==>
            (DateOnly(db.requests[id].startedAt), key) !in DeleteAggregatesBefore(db, DateOnly(cutoff), true).db.daily
  {
    PrunedRow(db, cutoff, rows, id);
    MidnightCutoff(db.requests[id].startedAt, cutoff);
    DigitsLength(cutoff.year, 4);
  }
}
