/**
 The session object itself: the fields that the pumps share and the methods that change them while
 they hold the mutex. Each method is proved to do to the fields exactly what the section of the same
 name in SessionState does to their snapshot, so the theorems about runs speak about this object.
 */
module WebSocketSession {
  import opened Domain
  import S = SessionState

  class Session {
    var ops: seq<S.Operation>
    var active: Option<S.OpId>
    var failed: Option<S.FailedOperation>
    var generation: nat
    var failedResponseObserved: bool
    var retired: bool
    var providerRequestId: Option<string>
    var stopping: bool
    var cancelled: bool
    var exitCause: S.ExitCause

    /** The snapshot of the fields. */
    ghost function View(): S.Session
      reads this
    {
      S.Session(ops, active, failed, generation, failedResponseObserved, retired, providerRequestId,
                stopping, cancelled, exitCause)
    }

    constructor (requestId: Option<string>)
      ensures View() == S.NewSession(requestId)
    {
      ops, active, failed, generation := [], None, None, 0;
      failedResponseObserved, retired, providerRequestId := false, false, requestId;
      stopping, cancelled, exitCause := false, false, S.CauseUnset;
    }

    method BeginOperation(kind: string, now: int, haveId: bool, stored: bool) returns (result: S.BeginResult)
      requires S.Bounded(View())
      modifies this
      ensures (View(), result) == S.BeginOperation(old(View()), kind, now, haveId, stored)
      ensures S.Bounded(View())
    {
      if retired {
        return S.Retired;
      }
      if active.Some? && ops[active.value].terminalPending {
        return S.MustWait(active.value);
      }
      if active.Some? {
        return S.Overlapping;
      }
      if cancelled || stopping {
        return S.Cancelled;
      }
      if !haveId {
        return S.NoRequestId;
      }
      var operation := |ops|;
      ops := ops + [S.Operation(kind, now, None, None, false, providerRequestId, "", false, stored, 0, {}, false, [])];
      active := Some(operation);
      generation := generation + 1;
      failedResponseObserved := false;
      if !stored {
        active := None;
        return S.StoreRefused;
      }
      return S.Begun;
    }

    method ObserveProviderRequestId(value: string)
      requires S.Bounded(View())
      modifies this
      ensures View() == S.ObserveProviderRequestId(old(View()), value) && S.Bounded(View())
    {
      providerRequestId := Some(value);
      if active.Some? {
        ops := ops[active.value := ops[active.value].(providerRequestId := Some(value))];
      }
    }

    /** An error, a failure, or an incomplete response that nobody asked for ends the session for new operations. */
    method RetireOn(event: S.Event)
      requires S.Bounded(View())
      modifies this`retired
      ensures View() == old(View()).(retired := old(retired) || S.Retires(old(View()), event))
    {
      var interrupted := event.interrupted && active.Some? && ops[active.value].interruptRequested
        && event.responseId != "" && ops[active.value].responseId == event.responseId;
      if event.kind == S.Error || event.kind == S.ResponseFailed
         || (event.kind == S.ResponseIncomplete && !interrupted) {
        retired := true;
      }
    }

    static method RecordOn(operation: S.Operation, event: S.Event, terminal: bool) returns (r: S.Operation)
      ensures r == S.RecordEvent(operation, event, terminal)
    {
      r := operation;
      if event.usage.Some? {
        r := r.(usage := event.usage, writers := r.writers + {event.responseId});
      }
      if event.responseId != "" && r.responseId == "" {
        r := r.(responseId := event.responseId);
      }
      if terminal {
        r := r.(terminalPending := true);
      }
    }

    method ObserveServerEvent(event: S.Event, terminal: bool)
      requires S.Bounded(View())
      modifies this
      ensures View() == S.ObserveServerEvent(old(View()), event, terminal) && S.Bounded(View())
    {
      RetireOn(event);
      if active.None? {
        return;
      }
      var operation := RecordOn(ops[active.value], event, terminal);
      ops := ops[active.value := operation];
    }

    method ObserveCoreResponse(now: int)
      requires S.Bounded(View())
      modifies this`ops
      ensures View() == S.ObserveCoreResponse(old(View()), now) && S.Bounded(View())
    {
      if active.None? || ops[active.value].ttfb.Some? {
        return;
      }
      var value := now - ops[active.value].started;
      if value < 0 {
        value := 0;
      }
      ops := ops[active.value := ops[active.value].(ttfb := Some(value))];
    }

    method TakeActive() returns (operation: Option<S.OpId>)
      requires S.Bounded(View())
      modifies this
      ensures (View(), operation) == S.TakeActive(old(View())) && S.Bounded(View())
    {
      operation := active;
      if operation.None? {
        return;
      }
      active := None;
      ops := ops[operation.value := S.CloseReady(ops[operation.value])];
    }

    method DetachFailedOperation(now: int) returns (previous: Option<S.OpId>)
      requires S.Bounded(View())
      modifies this
      ensures (View(), previous) == S.DetachFailedOperation(old(View()), now) && S.Bounded(View())
    {
      previous := None;
      if active.None? {
        return;
      }
      if failed.Some? {
        previous := Some(failed.value.operation);
      }
      failed := Some(S.FailedOperation(active.value, generation, now + S.FAILURE_TAIL));
      failedResponseObserved := true;
      ops := ops[active.value := S.CloseReady(ops[active.value]).(detached := true)];
      active := None;
    }

    method FailedServerEvent(event: S.Event) returns (operation: Option<S.OpId>, belongs: bool)
      requires S.Bounded(View())
      modifies this
      ensures S.FailedEvent(View(), operation, belongs) == S.FailedServerEvent(old(View()), event)
      ensures S.Bounded(View())
    {
      if failed.Some? {
        var f := failed.value;
        var id := ops[f.operation].responseId;
        var matches := id != "" && event.responseId == id;
        var unbound := id == "" && generation == f.generation && event.kind == S.ResponseFailed;
        var repeatedError := active.None? && generation == f.generation && event.kind == S.Error;
        if matches || unbound || repeatedError {
          if event.kind != S.ResponseFailed {
            return None, true;
          }
          ops := ops[f.operation := S.WriteUsage(ops[f.operation], event)];
          failed := None;
          if generation == f.generation {
            failedResponseObserved := false;
          }
          return Some(f.operation), true;
        }
      }
      if active.Some? && ops[active.value].responseId != "" && event.responseId != ""
         && ops[active.value].responseId != event.responseId {
        return None, true;
      }
      return None, false;
    }

    method TakeFailedOperation() returns (operation: Option<S.OpId>)
      requires S.Bounded(View())
      modifies this`failed
      ensures (View(), operation) == S.TakeFailedOperation(old(View())) && S.Bounded(View())
    {
      if failed.None? {
        return None;
      }
      operation := Some(failed.value.operation);
      failed := None;
    }

    method ExpireFailureTail(now: int) returns (operation: Option<S.OpId>)
      requires S.Bounded(View())
      modifies this`failed
      ensures (View(), operation) == S.ExpireFailureTail(old(View()), now) && S.Bounded(View())
    {
      operation := None;
      if failed.Some? && now >= failed.value.deadline {
        operation := Some(failed.value.operation);
        failed := None;
      }
    }

    method RequestInterrupt(responseId: string)
      requires S.Bounded(View())
      modifies this`ops
      ensures View() == S.RequestInterrupt(old(View()), responseId) && S.Bounded(View())
    {
      if active.Some? && ops[active.value].responseId == responseId && !ops[active.value].terminalPending {
        ops := ops[active.value := ops[active.value].(interruptRequested := true)];
      }
    }

    method RecordExitCause(status: RequestStatus)
      modifies this`exitCause
      ensures View() == S.RecordExitCause(old(View()), status)
    {
      var cause := S.CauseUpstream;
      if status == Disconnected {
        cause := S.CauseClient;
      }
      if exitCause == S.CauseUnset {
        exitCause := cause;
      }
    }

    /** finishActive after the context was cancelled, without interference: whatever the session still
        holds is handed to the store once, and the session holds nothing. */
    method FinishActive(status: RequestStatus)
      requires S.Bounded(View())
      modifies this
      ensures active.None? && failed.None? && |ops| == old(|ops|)
      ensures forall i :: 0 <= i < |ops| ==>
                ops[i].finishes == old(ops)[i].finishes
                + (if old(active) == Some(i) then [status] else [])
                + (if old(failed).Some? && old(failed).value.operation == i then [UpstreamError] else [])
    {
      var operation := TakeActive();
      if operation.Some? {
        ops := ops[operation.value := ops[operation.value].(finishes := ops[operation.value].finishes + [status])];
      }
      operation := TakeFailedOperation();
      if operation.Some? {
        var op := ops[operation.value];
        ops := ops[operation.value := op.(finishes := op.finishes + [UpstreamError])];
      }
    }
  }
}
