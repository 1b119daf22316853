/**
 The observer as the coordinator runs it: it scans each chunk once, copies whole runs of bytes and keeps
 two bits about the current line. It is proved to do what the byte-by-byte observer of ObserverState does.
 */
module ResponseObserver {
  import opened Domain
  import opened SseEvents
  import O = ObserverState
  import opened ObserverTheorems

  // ----- Runs of bytes -----------------------------------------------------------------

  /** The byte at position k of a run that starts inside line `l` ends an empty line. */
  ghost predicate Ends(l: O.Line, t: seq<byte>, k: nat)
    requires k < |t|
  {
    t[k] == LF && O.IsEmptyLine(LineAfter(l, t[..k]))
  }

  ghost predicate NoEnd(l: O.Line, t: seq<byte>, hi: nat) {
    forall k :: 0 <= k < hi && k < |t| ==> !Ends(l, t, k)
  }

  /** An observer after a run of bytes inside one event. */
  ghost function Grown(o: O.Observer, t: seq<byte>): O.Observer {
    var dropping := o.dropping || |o.buffer| + |t| > o.maximum;
    o.(line := LineAfter(o.line, t), dropping := dropping, buffer := if dropping then [] else o.buffer + t)
  }

  lemma NoEndPrefix(l: O.Line, t: seq<byte>, n: nat)
    requires n <= |t| && NoEnd(l, t, n)
    ensures NoEnd(l, t[..n], n)
  {
    forall k | 0 <= k < n ensures !Ends(l, t[..n], k) {
      assert t[..n][..k] == t[..k] && !Ends(l, t, k);
    }
  }

  lemma FeedSnoc(d: O.Decoder, o: O.Observer, t: seq<byte>, b: byte)
    requires O.Valid(o) && o.streaming
    ensures O.Feed(d, o, t + [b]) == O.StepByte(d, O.Feed(d, o, t), b)
  {
    assert (t + [b])[..|t|] == t;
  }

  lemma {:induction false} FeedRun(d: O.Decoder, o: O.Observer, t: seq<byte>)
    requires O.Valid(o) && o.streaming && NoEnd(o.line, t, |t|)
    ensures O.Feed(d, o, t) == Grown(o, t)
  {
    if t == [] {
      assert o.buffer + t == o.buffer;
    } else {
      var t', b := t[..|t| - 1], t[|t| - 1];
      assert t == t' + [b];
      NoEndPrefix(o.line, t, |t'|);
      FeedRun(d, o, t');
      FeedSnoc(d, o, t', b);
      assert !Ends(o.line, t, |t'|);
      assert o.buffer + t' + [b] == o.buffer + t;
    }
  }

  lemma FeedEvent(d: O.Decoder, o: O.Observer, t: seq<byte>)
    requires O.Valid(o) && o.streaming && t != [] && NoEnd(o.line, t, |t| - 1) && Ends(o.line, t, |t| - 1)
    ensures var g := Grown(o, t);
            O.Feed(d, o, t) ==
            g.(dropping := false, buffer := [],
               account := if g.dropping then o.account else O.AcceptEvent(d, o.account, g.buffer))
  {
    var t', b := t[..|t| - 1], t[|t| - 1];
    assert t == t' + [b];
    NoEndPrefix(o.line, t, |t'|);
    FeedRun(d, o, t');
    FeedSnoc(d, o, t', b);
    assert o.buffer + t' + [b] == o.buffer + t;
  }

  lemma RunEndsEvent(l: O.Line, whole: seq<byte>, run: seq<byte>)
    requires run != [] && run <= whole && NoEnd(l, whole, |run| - 1) && Ends(l, whole, |run| - 1)
    ensures NoEnd(l, run, |run| - 1) && Ends(l, run, |run| - 1)
  {
    assert run == whole[..|run|];
    assert forall k :: 0 <= k < |run| ==> run[..k] == whole[..k];
    forall k | 0 <= k < |run| - 1 ensures !Ends(l, run, k) { assert !Ends(l, whole, k); }
  }

  // ----- The object --------------------------------------------------------------------

  class Observer {
    const decoder: O.Decoder
    const maximum: nat
    var lineLength: nat
    var lineCR: bool
    var dropping: bool
    var streaming: bool
    var detectStreaming: bool
    var disabled: bool
    var buffer: seq<byte>
    var progress: O.Progress
    var terminal: O.Terminal
    var usage: Option<TokenUsage>

    ghost function View(): O.Observer
      reads this
    {
      O.Observer(maximum, O.Line(lineLength, lineCR), dropping, streaming, detectStreaming, disabled, buffer,
                 O.Account(progress, terminal, usage))
    }

    constructor (decoder: O.Decoder, maximum: nat, mode: O.Mode)
      ensures this.decoder == decoder && View() == O.NewObserver(maximum, mode)
    {
      this.decoder, this.maximum := decoder, maximum;
      lineLength, lineCR, dropping, disabled := 0, false, false, false;
      streaming, detectStreaming := mode == O.DeclaredStream, mode == O.Undeclared;
      buffer, progress, terminal, usage := [], O.NO_ACCOUNT.progress, O.TerminalUnknown, None;
    }

    /** The position after the first byte of the chunk that ends an empty line, or -1; the line state moves past
        the scanned bytes. */
    method EventBoundary(chunk: seq<byte>) returns (end: int)
      modifies this`lineLength, this`lineCR
      ensures var l := old(View()).line;
              if end < 0 then end == -1 && NoEnd(l, chunk, |chunk|) && View().line == LineAfter(l, chunk)
              else 0 < end <= |chunk| && NoEnd(l, chunk, end - 1) && Ends(l, chunk, end - 1)
                   && View().line == LineAfter(l, chunk[..end])
    {
      ghost var l := View().line;
      for i := 0 to |chunk|
        invariant NoEnd(l, chunk, i) && View().line == LineAfter(l, chunk[..i])
      {
        var b := chunk[i];
        assert chunk[..i + 1] == chunk[..i] + [b];
        LineAfterSnoc(l, chunk[..i], b);
        if b == LF {
          var empty := lineLength == 0 || (lineLength == 1 && lineCR);
          lineLength := 0;
          lineCR := false;
          if empty {
            return i + 1;
          }
        } else {
          if lineLength == 0 {
            lineCR := b == CR;
          }
          lineLength := if lineLength + 1 < 2 then lineLength + 1 else 2;
        }
      }
      assert chunk[..|chunk|] == chunk;
      return -1;
    }

    method AcceptEvent(event: seq<byte>)
      requires O.ValidAccount(View().account)
      modifies this`progress, this`terminal, this`usage
      ensures View().account == O.AcceptEvent(decoder, old(View()).account, event)
    {
      var data := O.EventData(event);
      var trimmed := decoder.trim(data);
      if trimmed == [] || trimmed == O.DONE {
        progress := progress.(heartbeats := O.Increment(progress.heartbeats));
        return;
      }
      progress := O.ObserveProgress(progress, decoder.classify(data));
      AcceptJson(data);
    }

    method AcceptJson(data: seq<byte>)
      modifies this`terminal, this`usage
      ensures View().account == O.AcceptJson(decoder, old(View()).account, data)
    {
      var envelope := decoder.envelope(data);
      if envelope.None? {
        return;
      }
      terminal := O.ObserveTerminal(terminal, envelope.value.kind, envelope.value.status);
      if envelope.value.usage.Some? {
        usage := envelope.value.usage;
      }
    }

    /** Buffers a run of bytes inside one event, or drops the event once it is over the budget. */
    method KeepRun(run: seq<byte>)
      requires O.Valid(View())
      modifies this`buffer, this`dropping
      ensures dropping == (old(dropping) || |old(buffer)| + |run| > maximum)
      ensures buffer == if dropping then [] else old(buffer) + run
    {
      if !dropping {
        if |run| > maximum - |buffer| {
          buffer := [];
          dropping := true;
        } else {
          buffer := buffer + run;
        }
      }
    }

    /** Accepts the buffered event unless it was dropped. */
    method CloseEvent()
      requires O.ValidAccount(View().account)
      modifies this
      ensures View() == old(View()).(
                dropping := false, buffer := [],
                account := if old(dropping) then old(View()).account
                           else O.AcceptEvent(decoder, old(View()).account, old(buffer)))
    {
      if !dropping {
        AcceptEvent(buffer);
      }
      buffer := [];
      dropping := false;
    }

    /** One pass of the scanning loop: the bytes up to the next event boundary, or all of them. */
    method ObserveRun(chunk: seq<byte>) returns (size: nat)
      requires O.Valid(View()) && streaming && |chunk| > 0
      modifies this
      ensures 0 < size <= |chunk| && View() == O.Feed(decoder, old(View()), chunk[..size])
    {
      ghost var before := View();
      var end := EventBoundary(chunk);
      size := if end >= 0 then end else |chunk|;
      var run := chunk[..size];
      assert end < 0 ==> run == chunk;
      KeepRun(run);
      assert View() == Grown(before, run);
      if end < 0 {
        FeedRun(decoder, before, run);
        return;
      }
      RunEndsEvent(before.line, chunk, run);
      FeedEvent(decoder, before, run);
      CloseEvent();
    }

    /** Scanning a chunk in runs does what feeding its bytes one at a time does. */
    method ObserveSse(chunk: seq<byte>)
      requires O.Valid(View()) && streaming
      modifies this
      ensures View() == O.Feed(decoder, old(View()), chunk)
    {
      ghost var start := View();
      ghost var done: seq<byte> := [];
      var rest := chunk;
      while |rest| > 0
        invariant done + rest == chunk
        invariant O.Valid(View()) && streaming && View() == O.Feed(decoder, start, done)
      {
        var size := ObserveRun(rest);
        FeedAppend(decoder, start, done, rest[..size]);
        done := done + rest[..size];
        rest := rest[size..];
      }
      assert done == chunk;
    }

    method Observe(chunk: seq<byte>)
      requires O.Valid(View())
      modifies this
      ensures View() == O.Observe(decoder, old(View()), chunk)
    {
      if disabled || |chunk| == 0 {
        return;
      }
      if streaming {
        ObserveSse(chunk);
        return;
      }
      if |chunk| > maximum - |buffer| {
        buffer := [];
        disabled := true;
        return;
      }
      buffer := buffer + chunk;
      if detectStreaming && O.LooksLikeSse(buffer) {
        streaming := true;
        var pending := buffer;
        buffer := [];
        ObserveSse(pending);
      }
    }

    method Finish()
      requires O.Valid(View())
      modifies this
      ensures View() == O.Finish(decoder, old(View()))
    {
      if !streaming && !disabled && |buffer| > 0 {
        AcceptJson(buffer);
      } else if streaming && !dropping && |buffer| > 0 {
        AcceptEvent(buffer);
      }
      buffer := [];
    }
  }
}
