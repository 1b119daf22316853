/**
 The relay of an upstream body to a downstream writer. The environment is a script: what each read delivers
 and how each write to the client goes. Deadlines and flushing are part of the script; the guard hands in the
 reason it stopped for.
 */
module StreamRelay {
  import opened Domain
  import opened SseEvents
  import O = ObserverState
  import T = ObserverTheorems
  import R = ResponseObserver
  import opened StreamGuard

  datatype ReadStatus = More | Eof | ReadFailed

  datatype WriteError = NoError | WriteError(timeout: bool)

  /** One pass of the relay loop, as the environment answers it. */
  datatype Turn = Turn(
    bytes: seq<byte>,
    read: ReadStatus,
    deadline: WriteError,
    written: nat,
    write: WriteError,
    flush: WriteError)

  datatype Outcome = StreamComplete | StreamResponseFailed | StreamUpstreamError | StreamClientDisconnected

  function WriteStopReason(e: WriteError): StopReason {
    if e.WriteError? && e.timeout then StopWriteTimeout else StopCanceled
  }

  /** observedStreamOutcome, on a flushed observer. */
  function ObservedOutcome(o: O.Observer): Outcome {
    if o.account.terminal == O.TerminalUpstreamError then StreamResponseFailed
    else if o.streaming && o.account.terminal != O.TerminalCompleted then StreamUpstreamError
    else StreamComplete
  }

  /** The verdict when reading ends: `o` is the observer before it is flushed. */
  function Conclude(d: O.Decoder, o: O.Observer, stop: StopReason, gone: bool, eof: bool): (Outcome, StopReason)
    requires O.Valid(o)
  {
    var flushed := O.Finish(d, o);
    if stop == StopIdle || stop == StopFirstOutput || stop == StopOutputIdle then (StreamUpstreamError, stop)
    else if stop == StopCanceled || (gone && stop == StopNone) then (StreamClientDisconnected, StopCanceled)
    else if stop == StopTail then
      if O.HasPendingSseData(d, o) then (StreamUpstreamError, StopPartialTail) else (ObservedOutcome(flushed), stop)
    else if !eof then (StreamUpstreamError, stop)
    else
      var outcome := ObservedOutcome(flushed);
      (outcome, if outcome == StreamUpstreamError && o.streaming then StopMissingTerminal else stop)
  }

  /** The chunks that a list of turns delivers. */
  ghost function Chunks(turns: seq<Turn>): seq<seq<byte>> {
    seq(|turns|, i requires 0 <= i < |turns| => turns[i].bytes)
  }

  lemma ChunksSnoc(d: O.Decoder, o: O.Observer, script: seq<Turn>, i: nat)
    requires i < |script| && O.Valid(o)
    ensures Flatten(Chunks(script[..i + 1])) == Flatten(Chunks(script[..i])) + script[i].bytes
    ensures O.ObserveAll(d, o, Chunks(script[..i + 1])) ==
            O.Observe(d, O.ObserveAll(d, o, Chunks(script[..i])), script[i].bytes)
  {
    var all := Chunks(script[..i + 1]);
    assert all[..|all| - 1] == Chunks(script[..i]) && all[|all| - 1] == script[i].bytes;
  }

  predicate WriteFails(t: Turn) {
    t.bytes != [] && (t.deadline != NoError || t.write != NoError || t.written != |t.bytes| || t.flush != NoError)
  }

  datatype Relayed = Relayed(outcome: Outcome, reason: StopReason, usage: Option<TokenUsage>)

  /** The end of the relay: flush the observer and judge. */
  method ConcludeStream(observer: R.Observer, stop: StopReason, gone: bool, eof: bool)
    returns (outcome: Outcome, reason: StopReason)
    requires O.Valid(observer.View())
    modifies observer
    ensures (outcome, reason) == Conclude(observer.decoder, old(observer.View()), stop, gone, eof)
    ensures observer.View() == O.Finish(observer.decoder, old(observer.View()))
  {
    var partialTail := observer.streaming
      && (observer.dropping || !O.IsHeartbeat(observer.decoder, O.EventData(observer.buffer)));
    observer.Finish();
    reason := stop;
    if stop == StopIdle || stop == StopFirstOutput || stop == StopOutputIdle {
      return StreamUpstreamError, reason;
    }
    if stop == StopCanceled || (gone && stop == StopNone) {
      return StreamClientDisconnected, StopCanceled;
    }
    if observer.terminal == O.TerminalUpstreamError {
      outcome := StreamResponseFailed;
    } else if observer.streaming && observer.terminal != O.TerminalCompleted {
      outcome := StreamUpstreamError;
    } else {
      outcome := StreamComplete;
    }
    if stop == StopTail {
      if partialTail {
        return StreamUpstreamError, StopPartialTail;
      }
      return;
    }
    if !eof {
      return StreamUpstreamError, reason;
    }
    if outcome == StreamUpstreamError && observer.streaming {
      reason := StopMissingTerminal;
    }
  }

  /** One write to the client: deadline, write, flush. */
  method WriteChunk(turn: Turn) returns (accepted: seq<byte>, failure: WriteError)
    requires turn.bytes != [] && turn.written <= |turn.bytes|
    ensures failure != NoError <==> WriteFails(turn)
    ensures accepted == (if turn.deadline != NoError then [] else turn.bytes[..turn.written])
    ensures failure == NoError ==> accepted == turn.bytes
  {
    if turn.deadline != NoError {
      return [], turn.deadline;
    }
    accepted, failure := turn.bytes[..turn.written], turn.write;
    if failure == NoError && turn.written != |turn.bytes| {
      failure := WriteError(false);
    }
    if failure == NoError {
      failure := turn.flush;
    }
  }

  /** The bytes of one read: they are observed, and then written. */
  method RelayBytes(observer: R.Observer, turn: Turn) returns (accepted: seq<byte>, failure: WriteError)
    requires O.Valid(observer.View()) && turn.written <= |turn.bytes|
    modifies observer
    ensures observer.View() == O.Observe(observer.decoder, old(observer.View()), turn.bytes)
    ensures O.Valid(observer.View())
    ensures failure != NoError <==> WriteFails(turn)
    ensures failure == NoError ==> accepted == turn.bytes
    ensures failure != NoError ==> accepted == Delivered(turn)
  {
    if |turn.bytes| == 0 {
      return [], NoError;
    }
    observer.Observe(turn.bytes);
    accepted, failure := WriteChunk(turn);
  }

  /** How the loop of the relay ended. */
  datatype Turns = Turns(count: nat, end: LoopEnd, received: seq<byte>, sent: seq<byte>, bytesWritten: nat)

  datatype LoopEnd = StillRunning | WriteFailed(failure: WriteError) | ReadEnded(eof: bool)

  ghost predicate AllRelayed(script: seq<Turn>, n: nat)
    requires n <= |script|
  {
    forall i :: 0 <= i < n ==> script[i].read == More && !WriteFails(script[i])
  }

  /** The last turn is the first with a failed write or an ended read. */
  ghost predicate EndsAt(script: seq<Turn>, t: Turns) {
    match t.end
    case StillRunning => t.count == |script| && AllRelayed(script, t.count)
    case WriteFailed(failure) =>
      && 0 < t.count <= |script| && AllRelayed(script, t.count - 1)
      && WriteFails(script[t.count - 1]) && failure != NoError
    case ReadEnded(eof) =>
      && 0 < t.count <= |script| && AllRelayed(script, t.count - 1) && !WriteFails(script[t.count - 1])
      && script[t.count - 1].read != More && eof == (script[t.count - 1].read == Eof)
  }

  /** The bytes received are those of the turns; all of them were sent, or a write failed, and then the client has what
      came before and what the write still delivered. */
  ghost predicate Faithful(script: seq<Turn>, t: Turns)
    requires EndsAt(script, t) && WithinBytes(script)
  {
    && t.received == Flatten(Chunks(script[..t.count]))
    && t.sent <= t.received && t.bytesWritten == |t.sent|
    && (!t.end.WriteFailed? ==> t.sent == t.received)
    && (t.end.WriteFailed? ==> t.sent == Flatten(Chunks(script[..t.count - 1])) + Delivered(script[t.count - 1]))
  }

  ghost function Delivered(t: Turn): seq<byte>
    requires t.written <= |t.bytes|
  {
    if t.deadline != NoError then [] else t.bytes[..t.written]
  }

  lemma DeliveredIsPrefix(before: seq<byte>, t: Turn)
    requires t.written <= |t.bytes|
    ensures before + Delivered(t) <= before + t.bytes
  {
  }

  ghost predicate WithinBytes(script: seq<Turn>) {
    forall i :: 0 <= i < |script| ==> script[i].written <= |script[i].bytes|
  }

  /** The bytes of the turns before turn `i`. */
  ghost function BytesTo(script: seq<Turn>, i: nat): seq<byte>
    requires i <= |script|
  {
    Flatten(Chunks(script[..i]))
  }

  lemma EndsInWrite(script: seq<Turn>, i: nat, failure: WriteError, received: seq<byte>, sent: seq<byte>)
    requires WithinBytes(script) && i < |script| && AllRelayed(script, i) && WriteFails(script[i]) && failure != NoError
    requires received == BytesTo(script, i + 1) == BytesTo(script, i) + script[i].bytes
    requires sent == BytesTo(script, i) + Delivered(script[i])
    ensures var t := Turns(i + 1, WriteFailed(failure), received, sent, |sent|);
            EndsAt(script, t) && Faithful(script, t)
  {
    DeliveredIsPrefix(BytesTo(script, i), script[i]);
  }

  lemma EndsInRead(script: seq<Turn>, i: nat, received: seq<byte>)
    requires WithinBytes(script) && i < |script| && AllRelayed(script, i) && !WriteFails(script[i])
    requires script[i].read != More && received == BytesTo(script, i + 1)
    ensures var t := Turns(i + 1, ReadEnded(script[i].read == Eof), received, received, |received|);
            EndsAt(script, t) && Faithful(script, t)
  {
  }

  lemma RunsOut(script: seq<Turn>, received: seq<byte>)
    requires WithinBytes(script) && AllRelayed(script, |script|) && received == BytesTo(script, |script|)
    ensures var t := Turns(|script|, StillRunning, received, received, |received|);
            EndsAt(script, t) && Faithful(script, t)
  {
  }

  method RelayTurns(observer: R.Observer, script: seq<Turn>) returns (t: Turns)
    requires O.Valid(observer.View()) && WithinBytes(script)
    modifies observer
    ensures EndsAt(script, t) && Faithful(script, t)
    ensures O.Valid(observer.View())
    ensures observer.View() == O.ObserveAll(observer.decoder, old(observer.View()), Chunks(script[..t.count]))
  {
    ghost var start := observer.View();
    var received, sent: seq<byte> := [], [];
    var bytesWritten := 0;
    for i := 0 to |script|
      invariant O.Valid(observer.View())
      invariant observer.View() == O.ObserveAll(observer.decoder, start, Chunks(script[..i]))
      invariant received == BytesTo(script, i) && sent == received && bytesWritten == |sent|
      invariant AllRelayed(script, i)
    {
      var turn := script[i];
      ChunksSnoc(observer.decoder, start, script, i);
      var accepted, failure := RelayBytes(observer, turn);
      received, sent := received + turn.bytes, sent + accepted;
      bytesWritten := bytesWritten + |accepted|;
      if failure != NoError {
        EndsInWrite(script, i, failure, received, sent);
        return Turns(i + 1, WriteFailed(failure), received, sent, bytesWritten);
      }
      if turn.read != More {
        EndsInRead(script, i, received);
        return Turns(i + 1, ReadEnded(turn.read == Eof), received, sent, bytesWritten);
      }
    }
    RunsOut(script, received);
    return Turns(|script|, StillRunning, received, sent, bytesWritten);
  }

  /** The relay stops at the first failed write or ended read. The bytes sent are a prefix of the bytes received, and
      all of them unless a write failed; the verdict is that of the observer of the received bytes. A script that
      runs out leaves the relay running. */
  method StreamBody(d: O.Decoder, maximum: nat, mode: O.Mode, script: seq<Turn>, stop: StopReason, gone: bool)
    returns (t: Turns, r: Option<Relayed>)
    requires WithinBytes(script)
    ensures EndsAt(script, t) && Faithful(script, t)
    ensures r.None? <==> t.end.StillRunning?
    ensures t.end.WriteFailed? ==>
              r.value.outcome == StreamClientDisconnected && r.value.reason == WriteStopReason(t.end.failure)
    ensures var o := O.ObserveAll(d, O.NewObserver(maximum, mode), Chunks(script[..t.count]));
            && (r.Some? ==> r.value.usage == O.Finish(d, o).account.usage)
            && (t.end.ReadEnded? ==> (r.value.outcome, r.value.reason) == Conclude(d, o, stop, gone, t.end.eof))
  {
    var observer := new R.Observer(d, maximum, mode);
    t := RelayTurns(observer, script);
    match t.end {
      case StillRunning =>
        r := None;
      case WriteFailed(failure) =>
        observer.Finish();
        r := Some(Relayed(StreamClientDisconnected, WriteStopReason(failure), observer.usage));
      case ReadEnded(eof) =>
        var outcome, reason := ConcludeStream(observer, stop, gone, eof);
        r := Some(Relayed(outcome, reason, observer.usage));
    }
  }

  // ----- What the verdict says about the stream ----------------------------------------

  /** The events a finished stream is accounted for: a natural end completes the unfinished last event. */
  ghost function Accounted(events: seq<seq<byte>>, rest: seq<byte>): seq<seq<byte>> {
    if rest == [] then events else events + [rest]
  }

  /** What the observer has seen, as events and an unfinished rest. */
  lemma StreamingObserver(
    d: O.Decoder, maximum: nat, mode: O.Mode, chunks: seq<seq<byte>>, events: seq<seq<byte>>, rest: seq<byte>)
    requires IsSplit(Flatten(chunks), events, rest)
    requires O.ObserveAll(d, O.NewObserver(maximum, mode), chunks).streaming
    ensures O.ObserveAll(d, O.NewObserver(maximum, mode), chunks) ==
            T.StreamObserver(d, maximum, mode == O.Undeclared, Split(events, rest))
  {
    T.EveryModeRefinesSplit(d, maximum, mode, chunks);
    SplitUnique(Flatten(chunks), events, rest);
  }

  lemma FlushedAccount(
    d: O.Decoder, maximum: nat, mode: O.Mode, chunks: seq<seq<byte>>, events: seq<seq<byte>>, rest: seq<byte>)
    requires IsSplit(Flatten(chunks), events, rest)
    requires O.ObserveAll(d, O.NewObserver(maximum, mode), chunks).streaming
    ensures var o := O.ObserveAll(d, O.NewObserver(maximum, mode), chunks);
            O.Finish(d, o).account == T.AcceptAll(d, maximum, Accounted(events, rest))
  {
    StreamingObserver(d, maximum, mode, chunks, events, rest);
    T.AcceptAllSnoc(d, maximum, events, rest);
  }

  lemma FlushedTerminal(
    d: O.Decoder, maximum: nat, mode: O.Mode, chunks: seq<seq<byte>>, events: seq<seq<byte>>, rest: seq<byte>)
    requires IsSplit(Flatten(chunks), events, rest)
    requires O.ObserveAll(d, O.NewObserver(maximum, mode), chunks).streaming
    ensures var o := O.ObserveAll(d, O.NewObserver(maximum, mode), chunks);
            var all := Accounted(events, rest);
            O.Finish(d, o).account.terminal ==
            if T.Said(d, maximum, all, O.TerminalUpstreamError) then O.TerminalUpstreamError
            else if T.Said(d, maximum, all, O.TerminalCompleted) then O.TerminalCompleted
            else O.TerminalUnknown
  {
    FlushedAccount(d, maximum, mode, chunks, events, rest);
    T.TerminalIsJoin(d, maximum, Accounted(events, rest));
  }

  lemma CompleteMeansTerminal(d: O.Decoder, o: O.Observer, stop: StopReason, gone: bool, eof: bool)
    requires O.Valid(o) && o.streaming
    ensures Conclude(d, o, stop, gone, eof).0 == StreamComplete ==>
              O.Finish(d, o).account.terminal == O.TerminalCompleted
    ensures Conclude(d, o, StopNone, false, true).0 == StreamComplete <==>
            O.Finish(d, o).account.terminal == O.TerminalCompleted
  {
  }

  /** A stream, declared or detected, that ended by itself is complete exactly if some accounted event completes the
      response and none fails it; whatever else stopped the relay, it is never reported complete otherwise. */
  lemma CompleteIffCompletedAndNotFailed(
    d: O.Decoder, maximum: nat, mode: O.Mode, chunks: seq<seq<byte>>, events: seq<seq<byte>>, rest: seq<byte>,
    stop: StopReason, gone: bool, eof: bool)
    requires IsSplit(Flatten(chunks), events, rest)
    requires O.ObserveAll(d, O.NewObserver(maximum, mode), chunks).streaming
    ensures var o := O.ObserveAll(d, O.NewObserver(maximum, mode), chunks);
            var completed := T.Said(d, maximum, Accounted(events, rest), O.TerminalCompleted)
                             && !T.Said(d, maximum, Accounted(events, rest), O.TerminalUpstreamError);
            && (Conclude(d, o, StopNone, false, true).0 == StreamComplete <==> completed)
            && (Conclude(d, o, stop, gone, eof).0 == StreamComplete ==> completed)
  {
    FlushedTerminal(d, maximum, mode, chunks, events, rest);
    CompleteMeansTerminal(d, O.ObserveAll(d, O.NewObserver(maximum, mode), chunks), stop, gone, eof);
  }

  /** After a forced close of the tail of a stream, declared or detected, the remainder cannot change the status: the
      verdict rests on complete events alone, and a pending remainder is an error. */
  lemma TailVerdictRestsOnCompleteEvents(
    d: O.Decoder, maximum: nat, mode: O.Mode, chunks: seq<seq<byte>>, events: seq<seq<byte>>, rest: seq<byte>,
    gone: bool, eof: bool)
    requires IsSplit(Flatten(chunks), events, rest)
    requires O.ObserveAll(d, O.NewObserver(maximum, mode), chunks).streaming
    ensures var o := O.ObserveAll(d, O.NewObserver(maximum, mode), chunks);
            Conclude(d, o, StopTail, gone, eof) ==
            if O.HasPendingSseData(d, o) then (StreamUpstreamError, StopPartialTail)
            else if T.Said(d, maximum, events, O.TerminalUpstreamError) then (StreamResponseFailed, StopTail)
            else if T.Said(d, maximum, events, O.TerminalCompleted) then (StreamComplete, StopTail)
            else (StreamUpstreamError, StopTail)
  {
    var o := O.ObserveAll(d, O.NewObserver(maximum, mode), chunks);
    StreamingObserver(d, maximum, mode, chunks, events, rest);
    T.TerminalIsJoin(d, maximum, events);
    if !O.HasPendingSseData(d, o) { T.FlushWithoutPendingData(d, o); }
  }

  /** A body that is not a stream fails exactly if it was held to its end and decodes to a failed response; otherwise a
      natural end is a completion. */
  lemma BodyVerdict(d: O.Decoder, maximum: nat, mode: O.Mode, chunks: seq<seq<byte>>)
    requires !O.ObserveAll(d, O.NewObserver(maximum, mode), chunks).streaming
    ensures var o := O.ObserveAll(d, O.NewObserver(maximum, mode), chunks);
            var body := Flatten(chunks);
            Conclude(d, o, StopNone, false, true) ==
            (if !o.disabled && body != [] && O.AcceptJson(d, O.NO_ACCOUNT, body).terminal == O.TerminalUpstreamError
             then StreamResponseFailed else StreamComplete,
             StopNone)
  {
    T.EveryModeRefinesSplit(d, maximum, mode, chunks);
  }
}
