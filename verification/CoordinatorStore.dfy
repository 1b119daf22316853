/**
 The store of the coordinator: one method per write transaction, over the tables it updates. Every method is one step of
 the runs in StoreRuns, so what holds of every run holds of every sequence of calls.
 */
module CoordinatorStore {
  import opened Domain
  import opened TextOrder
  import opened Timestamps
  import S = StoreState
  import R = StoreRuns
  import P = StorePruning

  ghost function InFlight(requests: map<string, S.Request>): set<string> {
    set id | id in requests && requests[id].status == InProgress
  }

  /** The listed requests are distinct and in progress. */
  ghost predicate AllInFlight(requests: map<string, S.Request>, ids: seq<string>) {
    && (forall i :: 0 <= i < |ids| ==> ids[i] in requests && requests[ids[i]].status == InProgress)
    && (forall i, j :: 0 <= i < j < |ids| ==> ids[i] != ids[j])
  }

  /** Recovery of a prefix: its rows are closed as upstream errors, the other rows are as before. */
  ghost predicate RecoveredFirst(
    before: map<string, S.Request>, after: map<string, S.Request>, ids: seq<string>, clock: seq<Utc>)
    requires |clock| == |ids| && AllInFlight(before, ids)
  {
    && after.Keys == before.Keys
    && (forall i :: 0 <= i < |ids| ==> after[ids[i]] == S.CompleteRow(before[ids[i]], S.RECOVERED, clock[i]))
    && (forall id :: id in before && id !in ids ==> after[id] == before[id])
  }

  lemma RecoveredAreClosed(
    before: map<string, S.Request>, after: map<string, S.Request>, ids: seq<string>, clock: seq<Utc>, id: string)
    requires |clock| == |ids| && AllInFlight(before, ids) && RecoveredFirst(before, after, ids, clock)
    requires id in ids
    ensures id in after && after[id].status == UpstreamError
  {
    var i :| 0 <= i < |ids| && ids[i] == id;
  }

  lemma RecoveredNext(
    before: map<string, S.Request>, after: map<string, S.Request>, ids: seq<string>, clock: seq<Utc>, i: nat)
    requires |clock| == |ids| && i < |ids| && AllInFlight(before, ids[..i])
    requires RecoveredFirst(before, after, ids[..i], clock[..i])
    requires ids[i] in after && after[ids[i]].status == InProgress
    ensures AllInFlight(before, ids[..i + 1])
    ensures RecoveredFirst(before, after[ids[i] := S.CompleteRow(after[ids[i]], S.RECOVERED, clock[i])],
                           ids[..i + 1], clock[..i + 1])
  {
    forall id | id in ids[..i] ensures id in after && after[id].status == UpstreamError {
      RecoveredAreClosed(before, after, ids[..i], clock[..i], id);
    }
    assert ids[..i + 1] == ids[..i] + [ids[i]];
    assert clock[..i + 1] == clock[..i] + [clock[i]];
  }

  /** The ledger events of interrupted requests. */
  ghost function Interrupted(before: map<string, S.Request>, ids: seq<string>): seq<R.LedgerEvent>
    requires forall id :: id in ids ==> id in before
  {
    if ids == [] then []
    else Interrupted(before, ids[..|ids| - 1]) + [R.Reported(ids[|ids| - 1], before[ids[|ids| - 1]], S.RECOVERED)]
  }

  /** The rows and the events of a recovered prefix. */
  ghost predicate Recovered(
    before: map<string, S.Request>, after: map<string, S.Request>, ids: seq<string>, clock: seq<Utc>,
    events: seq<R.LedgerEvent>)
    requires |clock| == |ids|
  {
    AllInFlight(before, ids) && RecoveredFirst(before, after, ids, clock) && events == Interrupted(before, ids)
  }

  lemma Append(history: seq<R.LedgerEvent>, events: seq<R.LedgerEvent>, e: R.LedgerEvent)
    ensures (history + events) + [e] == history + (events + [e])
  {
  }

  lemma Untouched(
    before: map<string, S.Request>, after: map<string, S.Request>, ids: seq<string>, clock: seq<Utc>, id: string)
    requires |clock| == |ids| && AllInFlight(before, ids) && RecoveredFirst(before, after, ids, clock)
    requires id in after && after[id].status == InProgress
    ensures id in before && before[id] == after[id]
  {
    if id in ids { RecoveredAreClosed(before, after, ids, clock, id); }
  }

  lemma RecoveryGoesOn(
    before: map<string, S.Request>, after: map<string, S.Request>, ids: seq<string>, clock: seq<Utc>,
    events: seq<R.LedgerEvent>, i: nat)
    requires |clock| == |ids| && i < |ids| && Recovered(before, after, ids[..i], clock[..i], events)
    requires ids[i] in after && after[ids[i]].status == InProgress
    ensures Recovered(before, after[ids[i] := S.CompleteRow(after[ids[i]], S.RECOVERED, clock[i])],
                      ids[..i + 1], clock[..i + 1], events + [R.Reported(ids[i], after[ids[i]], S.RECOVERED)])
  {
    RecoveredNext(before, after, ids, clock, i);
    Untouched(before, after, ids[..i], clock[..i], ids[i]);
    assert ids[..i + 1][..i] == ids[..i] && ids[..i + 1][i] == ids[i];
  }

  /** A request that recovery cannot close is missing, finished, or listed twice. */
  lemma RecoveryStuck(
    before: map<string, S.Request>, after: map<string, S.Request>, ids: seq<string>, clock: seq<Utc>, i: nat)
    requires |clock| == |ids| && i < |ids| && AllInFlight(before, ids[..i])
    requires RecoveredFirst(before, after, ids[..i], clock[..i])
    requires !(ids[i] in after && after[ids[i]].status == InProgress)
    ensures !AllInFlight(before, ids[..i + 1])
  {
    var first := ids[..i + 1];
    assert first[i] == ids[i];
    if ids[i] in ids[..i] {
      var k :| 0 <= k < i && ids[..i][k] == ids[i];
      assert first[k] == first[i];
    }
  }

  lemma PrefixInFlight(requests: map<string, S.Request>, ids: seq<string>, n: nat)
    requires n <= |ids| && AllInFlight(requests, ids)
    ensures AllInFlight(requests, ids[..n])
  {
  }

  /** A failed recovery: exactly the requests before the first that is missing, finished or a repeat were closed. */
  ghost predicate StoppedAt(
    before: map<string, S.Request>, after: map<string, S.Request>, ids: seq<string>, clock: seq<Utc>,
    events: seq<R.LedgerEvent>, n: nat)
    requires |clock| == |ids|
  {
    n < |ids| && Recovered(before, after, ids[..n], clock[..n], events) && !AllInFlight(before, ids[..n + 1])
  }

  lemma NoneInFlight(before: map<string, S.Request>, after: map<string, S.Request>, ids: seq<string>, clock: seq<Utc>)
    requires |clock| == |ids| && AllInFlight(before, ids) && RecoveredFirst(before, after, ids, clock)
    requires S.IsListing(ids, InFlight(before))
    ensures InFlight(after) == {}
  {
    forall id | id in after ensures after[id].status != InProgress {
      if id in ids {
        RecoveredAreClosed(before, after, ids, clock, id);
      } else {
        assert id !in InFlight(before);
      }
    }
  }

  class Store {
    var credentials: map<string, S.Credential>
    var keys: map<string, S.ApiKey>
    var requests: map<string, S.Request>
    var daily: map<S.DayKey, S.Aggregate>
    ghost var history: seq<R.LedgerEvent>
    ghost var removed: set<string>

    ghost function View(): S.Db
      reads this
    {
      S.Db(credentials, keys, requests, daily)
    }

    /** The state of the runs in which no fence is open. */
    ghost function Abs(): R.State
      reads this
    {
      R.State(View(), None, history, removed)
    }

    /** Aggregates agree with the history, and removed credentials are gone. */
    ghost predicate Valid()
      reads this
    {
      R.Inv(Abs())
    }

    constructor ()
      ensures R.Init(Abs()) && Valid()
    {
      credentials, keys, requests, daily := map[], map[], map[], map[];
      history, removed := [], {};
    }

    // ----- Credentials -----------------------------------------------------------------

    method SetStatus(id: string, status: S.CredentialStatus) returns (error: Option<S.StoreError>)
      modifies this`credentials
      ensures S.Tx(View(), error) == S.SetStatus(old(View()), id, status)
    {
      if id !in credentials || credentials[id].deletedAt.Some? {
        return Some(S.NotFound);
      }
      credentials := credentials[id := credentials[id].(status := status)];
      error := None;
    }

    method SetCredentialEnabled(id: string, enabled: bool) returns (error: Option<S.StoreError>)
      requires Valid()
      modifies this`credentials
      ensures Valid() && R.Step(old(Abs()), R.SetsEnabled(id, enabled)) == Some(Abs())
      ensures error.None? <==> old(S.Present(View(), id))
    {
      ghost var st := Abs();
      error := SetStatus(id, if enabled then S.CredentialEnabled else S.CredentialDisabled);
      R.StepKeeps(st, R.SetsEnabled(id, enabled), Abs());
    }

    method MarkCredentialRequiresLogin(id: string) returns (error: Option<S.StoreError>)
      requires Valid()
      modifies this`credentials
      ensures Valid() && R.Step(old(Abs()), R.MarksRequiresLogin(id)) == Some(Abs())
      ensures error.None? <==> old(S.Present(View(), id))
    {
      ghost var st := Abs();
      error := SetStatus(id, S.CredentialRequiresLogin);
      R.StepKeeps(st, R.MarksRequiresLogin(id), Abs());
    }

    /** credentialMutationTarget */
    method MutationTarget(id: string) returns (error: Option<S.StoreError>)
      ensures error == S.MutationTarget(View(), id)
    {
      if id !in credentials || credentials[id].deletedAt.Some? {
        return Some(S.NotFound);
      }
      if credentials[id].status != S.CredentialDisabled {
        return Some(S.Conflict);
      }
      if exists r :: r in requests && requests[r].credential == id && requests[r].status == InProgress {
        return Some(S.Conflict);
      }
      error := None;
    }

    /** The callback runs only on a credential that is present, disabled and idle; the tables stay as they are. */
    method WithCredentialMutationFence(id: string, callback: bool) returns (ran: bool, error: Option<S.StoreError>)
      ensures ran <==> S.MutationTarget(View(), id).None?
      ensures error == if !ran then S.MutationTarget(View(), id) else if !callback then Some(S.CallbackFailed) else None
    {
      error := MutationTarget(id);
      if error.Some? {
        return false, error;
      }
      if !callback {
        return true, Some(S.CallbackFailed);
      }
      return true, None;
    }

    /** Every removal that succeeds leaves the credential gone for good; one that fails changes nothing. `callback` says
        whether the external cleanup succeeded. */
    method RemoveCredentialWithMutationFence(id: string, callback: bool, now: Utc) returns (error: Option<S.StoreError>)
      requires Valid()
      modifies this`credentials, this`removed
      ensures Valid()
      ensures error.None? <==>
              callback && old(S.MutationTarget(View(), id)).None? && !old(S.HasActiveKey(View(), id))
      ensures error.None? ==> R.Gone(View(), id) && removed == old(removed) + {id}
      ensures error.Some? ==> Abs() == old(Abs())
    {
      ghost var st := Abs();
      error := MutationTarget(id);
      if error.Some? {
        return;
      }
      if exists k :: k in keys && keys[k].credential == id && keys[k].active {
        return Some(S.Conflict);
      }
      R.RemovalKeeps(st, id, now);
      if !callback {
        return Some(S.CallbackFailed);
      }
      credentials := credentials[id := credentials[id].(status := S.CredentialDeleted, deletedAt := Some(now))];
      removed := removed + {id};
      error := None;
    }

    // ----- Keys and admission ----------------------------------------------------------

    method CreateApiKey(key: string, credential: string) returns (error: Option<S.StoreError>)
      requires Valid()
      modifies this`keys
      ensures Valid() && R.Step(old(Abs()), R.CreatesKey(key, credential)) == Some(Abs())
      ensures error == S.CreateApiKey(old(View()), key, credential).error
    {
      ghost var st := Abs();
      if credential !in credentials || credentials[credential].deletedAt.Some? {
        return Some(S.NotFound);
      }
      if credentials[credential].status != S.CredentialEnabled {
        return Some(S.Conflict);
      }
      if key in keys {
        return Some(S.ConstraintViolated);
      }
      keys := keys[key := S.ApiKey(credential, true)];
      R.StepKeeps(st, R.CreatesKey(key, credential), Abs());
      error := None;
    }

    method RevokeApiKey(key: string) returns (error: Option<S.StoreError>)
      requires Valid()
      modifies this`keys
      ensures Valid() && R.Step(old(Abs()), R.RevokesKey(key)) == Some(Abs())
      ensures error.None? <==> key in old(keys) && old(keys)[key].active
    {
      ghost var st := Abs();
      if key !in keys || !keys[key].active {
        return Some(S.NotFound);
      }
      keys := keys[key := keys[key].(active := false)];
      R.StepKeeps(st, R.RevokesKey(key), Abs());
      error := None;
    }

    method AuthenticateAndStart(key: Option<string>, id: string, now: Utc) returns (error: Option<S.StoreError>)
      requires Valid()
      modifies this`requests, this`history
      ensures Valid() && R.Step(old(Abs()), R.Authenticates(key, id, now)) == Some(Abs())
      ensures error == S.AuthenticateAndStart(old(View()), key, id, now).error
    {
      ghost var st := Abs();
      if key.None? || !S.ValidRequestId(id) || key.value !in keys || !keys[key.value].active {
        return Some(S.Unauthorized);
      }
      var credential := keys[key.value].credential;
      if credential !in credentials || credentials[credential].deletedAt.Some?
         || credentials[credential].status != S.CredentialEnabled {
        return Some(S.Unauthorized);
      }
      if id in requests {
        return Some(S.ConstraintViolated);
      }
      requests := requests[id := S.NewRequest(key.value, credential, now, S.Http, S.Inference)];
      history := history + [R.Admitted(id, R.DayOf(requests[id]), requests[id].kind)];
      R.StepKeeps(st, R.Authenticates(key, id, now), Abs());
      error := None;
    }

    method StartWebSocketOperation(route: S.Route, id: string, kind: S.OperationKind, now: Utc)
      returns (error: Option<S.StoreError>)
      requires Valid()
      modifies this`requests, this`history
      ensures Valid() && R.Step(old(Abs()), R.StartsOperation(route, id, kind, now)) == Some(Abs())
      ensures error == S.StartWebSocketOperation(old(View()), route, id, kind, now).error
    {
      ghost var st := Abs();
      if !S.ValidRequestId(id) || kind.OtherKind? {
        return Some(S.InvalidArgument);
      }
      if route.apiKey !in keys || !keys[route.apiKey].active || keys[route.apiKey].credential != route.credential {
        return Some(S.Unauthorized);
      }
      if route.credential !in credentials || credentials[route.credential].deletedAt.Some?
         || credentials[route.credential].status != S.CredentialEnabled {
        return Some(S.Unauthorized);
      }
      var c := credentials[route.credential];
      if c.adapter != route.adapter || c.authKind != route.authKind || c.accountRef != route.accountRef {
        return Some(S.Unauthorized);
      }
      if id in requests {
        return Some(S.ConstraintViolated);
      }
      requests := requests[id := S.NewRequest(route.apiKey, route.credential, now, S.WebSocket, kind)];
      history := history + [R.Admitted(id, R.DayOf(requests[id]), requests[id].kind)];
      R.StepKeeps(st, R.StartsOperation(route, id, kind, now), Abs());
      error := None;
    }

    // ----- The ledger ------------------------------------------------------------------

    method FinalizeRequest(id: string, result: S.RequestResult, now: Utc) returns (error: Option<S.StoreError>)
      requires Valid()
      modifies this`requests, this`daily, this`history
      ensures Valid() && R.Step(old(Abs()), R.Finalises(id, result, now)) == Some(Abs())
      ensures error == S.FinalizeRequest(old(View()), id, result, now).error
    {
      ghost var st := Abs();
      if !S.ValidResult(result) {
        return Some(S.InvalidArgument);
      }
      if id !in requests || requests[id].status != InProgress {
        return Some(S.NotFound);
      }
      history := history + [R.Reported(id, requests[id], result)];
      var row := S.CompleteRow(requests[id], result, now);
      requests := requests[id := row];
      if row.kind == S.Inference {
        daily := S.AddDaily(daily, (DateOnly(row.startedAt), row.apiKey), row.status, row.durationMs, row.usage);
      }
      R.StepKeeps(st, R.Finalises(id, result, now), Abs());
      error := None;
    }

    /** One round of recovery. */
    method RecoverOne(id: string, now: Utc) returns (error: Option<S.StoreError>)
      requires Valid()
      modifies this`requests, this`daily, this`history
      ensures Valid()
      ensures error.None? <==> id in old(requests) && old(requests)[id].status == InProgress
      ensures error.None? ==>
                && requests == old(requests)[id := S.CompleteRow(old(requests)[id], S.RECOVERED, now)]
                && history == old(history) + [R.Reported(id, old(requests)[id], S.RECOVERED)]
      ensures error.Some? ==> Abs() == old(Abs())
    {
      error := FinalizeRequest(id, S.RECOVERED, now);
    }

    method RecoverListed(ids: seq<string>, clock: seq<Utc>) returns (error: Option<S.StoreError>)
      requires Valid() && |clock| == |ids|
      modifies this`requests, this`daily, this`history
      ensures Valid()
      ensures error.None? <==> AllInFlight(old(requests), ids)
      ensures error.None? ==>
                && RecoveredFirst(old(requests), requests, ids, clock)
                && history == old(history) + Interrupted(old(requests), ids)
      ensures error.Some? ==>
                && old(history) <= history
                && exists n :: StoppedAt(old(requests), requests, ids, clock, history[|old(history)|..], n)
    {
      ghost var events := [];
      for i := 0 to |ids|
        invariant Valid() && Recovered(old(requests), requests, ids[..i], clock[..i], events)
        invariant history == old(history) + events
      {
        ghost var before := requests;
        error := RecoverOne(ids[i], clock[i]);
        if error.Some? {
          RecoveryStuck(old(requests), before, ids, clock, i);
          if AllInFlight(old(requests), ids) { PrefixInFlight(old(requests), ids, i + 1); }
          assert history[|old(history)|..] == events;
          assert StoppedAt(old(requests), requests, ids, clock, events, i);
          return;
        }
        RecoveryGoesOn(old(requests), before, ids, clock, events, i);
        Append(old(history), events, R.Reported(ids[i], before[ids[i]], S.RECOVERED));
        events := events + [R.Reported(ids[i], before[ids[i]], S.RECOVERED)];
      }
      assert ids[..|ids|] == ids && clock[..|ids|] == clock;
      error := None;
    }

    /** Closes the listed requests one transaction at a time. It succeeds exactly if they are distinct and all in
        progress; then each is an upstream error with status 503, and it is in the history once. With a listing of all
        requests in progress, none is in progress afterwards. A failure leaves the requests before the first that could
        not be closed closed, and the others as they were. `clock` holds the readings of the clock. */
    method RecoverInFlight(ids: seq<string>, clock: seq<Utc>) returns (count: nat, error: Option<S.StoreError>)
      requires Valid() && |clock| == |ids|
      modifies this`requests, this`daily, this`history
      ensures Valid()
      ensures error.None? <==> AllInFlight(old(requests), ids)
      ensures count == if error.None? then |ids| else 0
      ensures error.None? ==>
                && RecoveredFirst(old(requests), requests, ids, clock)
                && history == old(history) + Interrupted(old(requests), ids)
      ensures error.None? && S.IsListing(ids, InFlight(old(requests))) ==> InFlight(requests) == {}
      ensures error.Some? ==>
                && old(history) <= history
                && exists n :: StoppedAt(old(requests), requests, ids, clock, history[|old(history)|..], n)
    {
      error := RecoverListed(ids, clock);
      if error.Some? {
        return 0, error;
      }
      if S.IsListing(ids, InFlight(old(requests))) {
        NoneInFlight(old(requests), requests, ids, clock);
      }
      return |ids|, None;
    }

    /** Adds rows that are still to be aggregated to the daily usage, and marks them. */
    method AggregatePending(rows: seq<string>)
      requires forall id :: id in rows ==> id in requests
      modifies this`requests, this`daily
      ensures View() == S.AggregateRows(old(View()), rows)
    {
      ghost var db := View();
      for i := 0 to |rows|
        invariant forall id :: id in rows[..i] ==> id in db.requests
        invariant View() == S.AggregateRows(db, rows[..i])
      {
        assert rows[..i + 1][..i] == rows[..i];
        var row := requests[rows[i]];
        daily := S.AddDaily(daily, (DateOnly(row.startedAt), row.apiKey), row.status, row.durationMs, row.usage);
        requests := requests[rows[i] := row.(aggregated := true)];
      }
      assert rows[..|rows|] == rows;
    }

    method DeleteDetails(cutoff: Utc) returns (count: nat)
      modifies this`requests
      ensures requests == S.KeptRows(old(requests), cutoff)
      ensures count == |old(requests)| - |requests|
    {
      ghost var old' := requests;
      var before := |requests|;
      requests := S.KeptRows(requests, cutoff);
      P.RemovedCount(old', old'.Keys - requests.Keys);
      assert old' - (old'.Keys - requests.Keys) == requests;
      count := before - |requests|;
    }

    method AggregateAndDelete(cutoff: Utc, rows: seq<string>) returns (count: nat)
      requires S.IsListing(rows, S.PendingRows(View(), cutoff))
      modifies this`requests, this`daily
      ensures View() == S.PruneDetailsBefore(old(View()), cutoff, rows).db
      ensures count == |old(S.PrunableRows(View(), cutoff))|
    {
      ghost var db := View();
      AggregatePending(rows);
      count := DeleteDetails(cutoff);
      P.PrunedCount(db, cutoff, rows);
    }

    /** `rows` is what the query for unaggregated rows returned. Exactly the finished requests from before the cutoff
        are deleted, and counted. */
    method PruneDetailsBefore(cutoff: Utc, rows: seq<string>) returns (count: nat)
      requires S.IsListing(rows, S.PendingRows(View(), cutoff))
      modifies this`requests, this`daily
      ensures View() == S.PruneDetailsBefore(old(View()), cutoff, rows).db
      ensures requests == old(requests) - old(S.PrunableRows(View(), cutoff))
      ensures count == |old(S.PrunableRows(View(), cutoff))|
      ensures old(Valid()) ==> Valid() && daily == old(daily)
    {
      ghost var st := Abs();
      count := AggregateAndDelete(cutoff, rows);
      P.PruneRemovesPrunable(st.db, cutoff, rows);
      if R.Inv(st) {
        P.PruneKeeps(st, cutoff, rows);
        assert Abs() == st.(db := View());
      }
    }

    method DeleteAggregatesBefore(day: string, valid: bool) returns (count: nat, error: Option<S.StoreError>)
      requires Valid()
      modifies this`daily, this`history
      ensures Valid() && R.Step(old(Abs()), R.DeletesAggregates(day, valid)) == Some(Abs())
      ensures error.None? <==> valid && day != ""
      ensures error.None? ==> daily == old(daily) - old(S.OldDays(View(), day))
      ensures error.None? ==> count == |old(S.OldDays(View(), day))|
    {
      ghost var st := Abs();
      if !valid || day == "" {
        return 0, Some(S.InvalidArgument);
      }
      var before := |daily|;
      daily := map at | at in daily && !TextLess(at.0, day) :: daily[at];
      history := history + [R.AggregatesDeleted(day)];
      R.StepKeeps(st, R.DeletesAggregates(day, valid), Abs());
      P.PreviewOfDays(st.db, day);
      return before - |daily|, None;
    }
  }
}
