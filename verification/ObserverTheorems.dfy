/** What the observer knows depends on the bytes alone, not on how they were cut into chunks. */
module ObserverTheorems {
  import opened Domain
  import opened SseEvents
  import opened ObserverState

  // ----- The line abstraction ----------------------------------------------------------

  ghost function LineAfter(l: Line, s: seq<byte>): Line {
    if s == [] then l else NextLine(LineAfter(l, s[..|s| - 1]), s[|s| - 1])
  }

  lemma LineAfterSnoc(l: Line, s: seq<byte>, b: byte)
    ensures LineAfter(l, s + [b]) == NextLine(LineAfter(l, s), b)
  {
    assert (s + [b])[..|s|] == s;
  }

  /** Two bits decide whether a line is empty: the scanner stops exactly at the blank lines. */
  lemma LineDecides(s: seq<byte>, b: byte)
    ensures Blank(s + [b], |s|) <==> b == LF && IsEmptyLine(LineAfter(NEW_LINE, s))
  {
    var t := s + [b];
    if |s| >= 1 { assert t[|s| - 1] == s[|s| - 1]; }
    if |s| >= 2 {
      assert t[|s| - 2] == s[|s| - 2];
      var p := s[..|s| - 1];
      assert LineAfter(NEW_LINE, p) == NextLine(LineAfter(NEW_LINE, p[..|p| - 1]), p[|p| - 1]);
      LineBounded(p[..|p| - 1]);
    }
    if |s| == 1 { assert s[..0] == []; }
  }

  lemma {:induction false} LineBounded(s: seq<byte>)
    ensures 0 <= LineAfter(NEW_LINE, s).length <= 2
  {
    if s != [] { LineBounded(s[..|s| - 1]); }
  }

  // ----- A declared event stream -------------------------------------------------------

  /** The account of a list of events: those over the budget do not exist for it. */
  ghost function AcceptAll(d: Decoder, maximum: nat, events: seq<seq<byte>>): (a: Account)
    ensures ValidAccount(a)
  {
    if events == [] then NO_ACCOUNT
    else
      var a := AcceptAll(d, maximum, events[..|events| - 1]);
      var e := events[|events| - 1];
      if |e| <= maximum then AcceptEvent(d, a, e) else a
  }

  /** The observer of a declared event stream, computed from the division of the whole stream. */
  ghost function StreamObserver(d: Decoder, maximum: nat, detect: bool, p: Split): Observer {
    Observer(maximum, LineAfter(NEW_LINE, p.rest), |p.rest| > maximum, true, detect, false,
             if |p.rest| > maximum then [] else p.rest, AcceptAll(d, maximum, p.events))
  }

  lemma AcceptAllSnoc(d: Decoder, maximum: nat, events: seq<seq<byte>>, e: seq<byte>)
    ensures AcceptAll(d, maximum, events + [e]) ==
            if |e| <= maximum then AcceptEvent(d, AcceptAll(d, maximum, events), e) else AcceptAll(d, maximum, events)
  {
    assert (events + [e])[..|events|] == events;
  }

  lemma StepRefines(d: Decoder, maximum: nat, detect: bool, s: seq<byte>, b: byte)
    ensures var o := StreamObserver(d, maximum, detect, SplitOf(s));
            Valid(o) && StepByte(d, o, b) == StreamObserver(d, maximum, detect, SplitOf(s + [b]))
  {
    SplitSnoc(s, b);
    StepSplit(d, maximum, detect, SplitOf(s), b);
  }

  lemma StepSplit(d: Decoder, maximum: nat, detect: bool, p: Split, b: byte)
    ensures var o := StreamObserver(d, maximum, detect, p);
            var rest := p.rest + [b];
            && Valid(o)
            && StepByte(d, o, b) ==
               StreamObserver(d, maximum, detect,
                              if Blank(rest, |rest| - 1) then Split(p.events + [rest], []) else Split(p.events, rest))
  {
    LineDecides(p.rest, b);
    LineAfterSnoc(NEW_LINE, p.rest, b);
    AcceptAllSnoc(d, maximum, p.events, p.rest + [b]);
  }

  ghost function NewStream(maximum: nat, detect: bool): (o: Observer)
    ensures Valid(o)
  {
    Observer(maximum, NEW_LINE, false, true, detect, false, [], NO_ACCOUNT)
  }

  lemma {:induction false} FeedRefines(d: Decoder, maximum: nat, detect: bool, s: seq<byte>)
    ensures Feed(d, NewStream(maximum, detect), s) == StreamObserver(d, maximum, detect, SplitOf(s))
  {
    if s != [] {
      var s', b := s[..|s| - 1], s[|s| - 1];
      FeedRefines(d, maximum, detect, s');
      StepRefines(d, maximum, detect, s', b);
      assert s' + [b] == s;
    }
  }

  lemma {:induction false} FeedAppend(d: Decoder, o: Observer, s: seq<byte>, t: seq<byte>)
    requires Valid(o) && o.streaming
    ensures Feed(d, o, s + t) == Feed(d, Feed(d, o, s), t)
    decreases |t|
  {
    if t == [] {
      assert s + t == s;
    } else {
      FeedAppend(d, o, s, t[..|t| - 1]);
      assert (s + t)[..|s + t| - 1] == s + t[..|t| - 1];
    }
  }

  /** A stream never stops streaming and never becomes disabled. */
  lemma {:induction false} FeedKeepsMode(d: Decoder, o: Observer, s: seq<byte>)
    requires Valid(o) && o.streaming
    ensures var r := Feed(d, o, s);
            r.maximum == o.maximum && r.detectStreaming == o.detectStreaming && r.disabled == o.disabled
  {
    if s != [] { FeedKeepsMode(d, o, s[..|s| - 1]); }
  }

  lemma {:induction false} ChunksAreFed(d: Decoder, o: Observer, chunks: seq<seq<byte>>)
    requires Valid(o) && o.streaming && !o.disabled
    ensures ObserveAll(d, o, chunks) == Feed(d, o, Flatten(chunks))
  {
    if chunks != [] {
      var before, last := chunks[..|chunks| - 1], chunks[|chunks| - 1];
      ChunksAreFed(d, o, before);
      FeedKeepsMode(d, o, Flatten(before));
      FeedAppend(d, o, Flatten(before), last);
    }
  }

  /** The main theorem: however a declared event stream is cut, the observer has accepted exactly the
      blank-line-delimited events that fit the budget, in order, and holds the unfinished rest. */
  lemma StreamRefinesSplit(d: Decoder, maximum: nat, chunks: seq<seq<byte>>, events: seq<seq<byte>>, rest: seq<byte>)
    requires IsSplit(Flatten(chunks), events, rest)
    ensures var o := ObserveAll(d, NewObserver(maximum, DeclaredStream), chunks);
            && o.account == AcceptAll(d, maximum, events)
            && o.dropping == (|rest| > maximum)
            && o.buffer == (if |rest| > maximum then [] else rest)
            && o == StreamObserver(d, maximum, false, Split(events, rest))
  {
    var s := Flatten(chunks);
    ChunksAreFed(d, NewStream(maximum, false), chunks);
    FeedRefines(d, maximum, false, s);
    SplitUnique(s, events, rest);
  }

  lemma {:induction false} OversizedEventSkipped(
      d: Decoder, maximum: nat, before: seq<seq<byte>>, e: seq<byte>, after: seq<seq<byte>>)
    requires |e| > maximum
    ensures AcceptAll(d, maximum, before + [e] + after) == AcceptAll(d, maximum, before + after)
    decreases |after|
  {
    if after == [] {
      assert before + [e] + after == before + [e] && before + after == before;
      AcceptAllSnoc(d, maximum, before, e);
    } else {
      var after', last := after[..|after| - 1], after[|after| - 1];
      OversizedEventSkipped(d, maximum, before, e, after');
      assert before + [e] + after == (before + [e] + after') + [last];
      assert before + after == (before + after') + [last];
      AcceptAllSnoc(d, maximum, before + [e] + after', last);
      AcceptAllSnoc(d, maximum, before + after', last);
    }
  }

  lemma SplitStands(events: seq<seq<byte>>, rest: seq<byte>)
    requires (forall k :: 0 <= k < |events| ==> IsEvent(events[k])) && NoBlank(rest, 0, |rest|)
    ensures IsSplit(Flatten(events) + rest, events, rest)
  {
  }

  /** An event over the budget affects nothing: however the stream with it and the stream without it are cut, the two
      observers are equal. */
  lemma OversizedEventVanishes(
    d: Decoder, maximum: nat, before: seq<seq<byte>>, e: seq<byte>, after: seq<seq<byte>>, rest: seq<byte>,
    with: seq<seq<byte>>, without: seq<seq<byte>>)
    requires |e| > maximum && IsEvent(e) && NoBlank(rest, 0, |rest|)
    requires forall k :: 0 <= k < |before + after| ==> IsEvent((before + after)[k])
    requires Flatten(with) == Flatten(before + [e] + after) + rest && Flatten(without) == Flatten(before + after) + rest
    ensures ObserveAll(d, NewObserver(maximum, DeclaredStream), with) ==
            ObserveAll(d, NewObserver(maximum, DeclaredStream), without)
  {
    var all := before + [e] + after;
    forall k | 0 <= k < |all| ensures IsEvent(all[k]) {
      if k < |before| { assert (before + after)[k] == all[k]; }
      else if k > |before| { assert (before + after)[k - 1] == all[k]; }
    }
    SplitStands(all, rest);
    SplitStands(before + after, rest);
    StreamRefinesSplit(d, maximum, with, all, rest);
    StreamRefinesSplit(d, maximum, without, before + after, rest);
    OversizedEventSkipped(d, maximum, before, e, after);
  }

  // ----- An undeclared or other content type -------------------------------------------

  ghost function Holding(maximum: nat, mode: Mode, s: seq<byte>): Observer {
    NewObserver(maximum, mode).(buffer := s)
  }

  ghost function Disabled(maximum: nat, mode: Mode): Observer {
    NewObserver(maximum, mode).(disabled := true)
  }

  lemma {:induction false} TrimLeftAppend(s: seq<byte>, t: seq<byte>)
    requires TrimLeft(s) != []
    ensures TrimLeft(s + t) == TrimLeft(s) + t
  {
    assert s != [] && (s + t)[0] == s[0] && (s + t)[1..] == s[1..] + t;
    if s[0] == SPACE || s[0] == TAB || s[0] == CR || s[0] == LF {
      assert TrimLeft(s) == TrimLeft(s[1..]);
      TrimLeftAppend(s[1..], t);
    }
  }

  /** A stream that was recognised stays recognised when more bytes arrive. */
  lemma RecognisedForGood(s: seq<byte>, t: seq<byte>)
    requires LooksLikeSse(s)
    ensures LooksLikeSse(s + t)
  {
    TrimLeftAppend(s, t);
  }

  /** A body of another declared type: observation is disabled exactly when the body exceeds the budget. */
  lemma {:induction false} OtherBodyDisabledIffTooLong(d: Decoder, maximum: nat, chunks: seq<seq<byte>>)
    ensures ObserveAll(d, NewObserver(maximum, DeclaredOther), chunks) ==
            if |Flatten(chunks)| > maximum then Disabled(maximum, DeclaredOther)
            else Holding(maximum, DeclaredOther, Flatten(chunks))
  {
    if chunks != [] {
      OtherBodyDisabledIffTooLong(d, maximum, chunks[..|chunks| - 1]);
    }
  }

  /** The observer after the bytes so far, whatever was declared: it streams, and is the observer of the whole stream;
      or it gave up; or it still holds the body. */
  ghost function ObserverOf(
      d: Decoder, maximum: nat, mode: Mode, s: seq<byte>, streaming: bool, disabled: bool): Observer
  {
    if streaming then StreamObserver(d, maximum, mode == Undeclared, SplitOf(s))
    else if disabled then Disabled(maximum, mode)
    else Holding(maximum, mode, s)
  }

  lemma FedFurther(d: Decoder, maximum: nat, detect: bool, s: seq<byte>, chunk: seq<byte>)
    ensures var o := StreamObserver(d, maximum, detect, SplitOf(s));
            Valid(o) && Feed(d, o, chunk) == StreamObserver(d, maximum, detect, SplitOf(s + chunk))
  {
    FeedRefines(d, maximum, detect, s);
    FeedAppend(d, NewStream(maximum, detect), s, chunk);
    FeedRefines(d, maximum, detect, s + chunk);
  }

  /** For every content type and every chunking, over budget or not: once the observer streams, its state is that of the
      whole stream from its first byte. */
  lemma {:induction false} EveryModeRefinesSplit(d: Decoder, maximum: nat, mode: Mode, chunks: seq<seq<byte>>)
    ensures var o := ObserveAll(d, NewObserver(maximum, mode), chunks);
            && o == ObserverOf(d, maximum, mode, Flatten(chunks), o.streaming, o.disabled)
            && !(o.streaming && o.disabled)
            && (mode == DeclaredStream ==> o.streaming) && (o.streaming ==> mode != DeclaredOther)
  {
    if chunks == [] {
      FeedRefines(d, maximum, mode == Undeclared, []);
    } else {
      var before, last := chunks[..|chunks| - 1], chunks[|chunks| - 1];
      EveryModeRefinesSplit(d, maximum, mode, before);
      var o := ObserveAll(d, NewObserver(maximum, mode), before);
      if last == [] {
        assert Flatten(chunks) == Flatten(before);
      } else if o.streaming {
        FedFurther(d, maximum, mode == Undeclared, Flatten(before), last);
      } else {
        FeedRefines(d, maximum, mode == Undeclared, Flatten(before) + last);
      }
    }
  }

  /** Within the budget, detection reaches the same decision and state for every chunking: the one of a
      declared stream if the whole body looks like one, and the held body otherwise. */
  lemma {:induction false} DetectionWithinBudget(d: Decoder, maximum: nat, chunks: seq<seq<byte>>)
    requires |Flatten(chunks)| <= maximum
    ensures var s := Flatten(chunks);
            ObserveAll(d, NewObserver(maximum, Undeclared), chunks) ==
            if LooksLikeSse(s) then StreamObserver(d, maximum, true, SplitOf(s)) else Holding(maximum, Undeclared, s)
  {
    if chunks != [] {
      var before, last := chunks[..|chunks| - 1], chunks[|chunks| - 1];
      var p, s := Flatten(before), Flatten(chunks);
      DetectionWithinBudget(d, maximum, before);
      FeedRefines(d, maximum, true, p);
      FeedRefines(d, maximum, true, s);
      if last == [] {
        assert s == p;
      } else if LooksLikeSse(p) {
        RecognisedForGood(p, last);
        FeedAppend(d, NewStream(maximum, true), p, last);
      }
    }
  }

  /** A body whose budgeted prefix is not recognised is held until it is too long, then disabled. */
  lemma {:induction false} UnrecognisedIsDisabled(d: Decoder, maximum: nat, chunks: seq<seq<byte>>, s: seq<byte>)
    requires |s| > maximum && !LooksLikeSse(s[..maximum]) && Flatten(chunks) <= s
    ensures ObserveAll(d, NewObserver(maximum, Undeclared), chunks) ==
            if |Flatten(chunks)| > maximum then Disabled(maximum, Undeclared)
            else Holding(maximum, Undeclared, Flatten(chunks))
  {
    if chunks != [] {
      var p := Flatten(chunks);
      var before := Flatten(chunks[..|chunks| - 1]);
      assert before <= p;
      UnrecognisedIsDisabled(d, maximum, chunks[..|chunks| - 1], s);
      if |p| <= maximum && LooksLikeSse(p) {
        assert s[..maximum] == p + s[|p|..maximum];
        RecognisedForGood(p, s[|p|..maximum]);
        assert false;
      }
    }
  }

  ghost predicate SameForEveryChunking(d: Decoder, maximum: nat, s: seq<byte>) {
    forall c1, c2 :: Flatten(c1) == s && Flatten(c2) == s ==>
      ObserveAll(d, NewObserver(maximum, Undeclared), c1) == ObserveAll(d, NewObserver(maximum, Undeclared), c2)
  }

  /** Exactly when detection does not depend on the chunking: the body fits the budget, or the part that fits is
      not recognised as a stream. */
  lemma DetectionChunkInvariance(d: Decoder, maximum: nat, s: seq<byte>)
    ensures SameForEveryChunking(d, maximum, s) <==> |s| <= maximum || !LooksLikeSse(s[..maximum])
  {
    if |s| <= maximum || !LooksLikeSse(s[..maximum]) {
      forall c1, c2 | Flatten(c1) == s && Flatten(c2) == s
        ensures ObserveAll(d, NewObserver(maximum, Undeclared), c1) ==
                ObserveAll(d, NewObserver(maximum, Undeclared), c2)
      {
        if |s| <= maximum {
          DetectionWithinBudget(d, maximum, c1);
          DetectionWithinBudget(d, maximum, c2);
        } else {
          UnrecognisedIsDisabled(d, maximum, c1, s);
          UnrecognisedIsDisabled(d, maximum, c2, s);
        }
      }
    } else {
      TwoChunkings(d, maximum, s);
    }
  }

  lemma OneChunk(d: Decoder, o: Observer, c: seq<byte>)
    requires Valid(o)
    ensures Flatten([c]) == c && ObserveAll(d, o, [c]) == Observe(d, o, c)
  {
    var none: seq<seq<byte>> := [];
    assert [c][..0] == none;
  }

  lemma TwoChunks(d: Decoder, o: Observer, c1: seq<byte>, c2: seq<byte>)
    requires Valid(o)
    ensures Flatten([c1, c2]) == c1 + c2 && ObserveAll(d, o, [c1, c2]) == Observe(d, ObserveAll(d, o, [c1]), c2)
  {
    OneChunk(d, o, c1);
    assert [c1, c2][..1] == [c1];
  }

  lemma OneChunkDisables(d: Decoder, maximum: nat, s: seq<byte>)
    requires |s| > maximum
    ensures Flatten([s]) == s && ObserveAll(d, NewObserver(maximum, Undeclared), [s]).disabled
  {
    OneChunk(d, NewObserver(maximum, Undeclared), s);
  }

  lemma TwoChunksStream(d: Decoder, maximum: nat, head: seq<byte>, tail: seq<byte>)
    requires |head| <= maximum && LooksLikeSse(head)
    ensures Flatten([head, tail]) == head + tail
    ensures !ObserveAll(d, NewObserver(maximum, Undeclared), [head, tail]).disabled
  {
    var o := NewObserver(maximum, Undeclared);
    OneChunk(d, o, head);
    TwoChunks(d, o, head, tail);
    DetectionWithinBudget(d, maximum, [head]);
    FeedKeepsMode(d, ObserveAll(d, o, [head]), tail);
  }

  lemma TwoChunkings(d: Decoder, maximum: nat, s: seq<byte>)
    requires |s| > maximum && LooksLikeSse(s[..maximum])
    ensures !SameForEveryChunking(d, maximum, s)
  {
    OneChunkDisables(d, maximum, s);
    TwoChunksStream(d, maximum, s[..maximum], s[maximum..]);
    assert s[..maximum] + s[maximum..] == s;
  }

  // ----- The account -------------------------------------------------------------------

  /** What one event says about the end of the response. */
  ghost function Verdict(d: Decoder, e: seq<byte>): Terminal {
    var data := EventData(e);
    if IsHeartbeat(d, data) || d.envelope(data).None? then TerminalUnknown
    else ObserveTerminal(TerminalUnknown, d.envelope(data).value.kind, d.envelope(data).value.status)
  }

  ghost predicate Said(d: Decoder, maximum: nat, events: seq<seq<byte>>, v: Terminal) {
    exists k :: 0 <= k < |events| && |events[k]| <= maximum && Verdict(d, events[k]) == v
  }

  lemma SaidSnoc(d: Decoder, maximum: nat, events: seq<seq<byte>>, e: seq<byte>, v: Terminal)
    ensures Said(d, maximum, events + [e], v) <==>
            Said(d, maximum, events, v) || (|e| <= maximum && Verdict(d, e) == v)
  {
    var all := events + [e];
    assert all[|events|] == e;
    if Said(d, maximum, events, v) {
      var k :| 0 <= k < |events| && |events[k]| <= maximum && Verdict(d, events[k]) == v;
      assert all[k] == events[k];
    }
    if Said(d, maximum, all, v) {
      var k :| 0 <= k < |all| && |all[k]| <= maximum && Verdict(d, all[k]) == v;
      if k < |events| { assert events[k] == all[k]; }
    }
  }

  /** The terminal status is the join of what the accepted events say, whatever their order: an upstream error
      if any event fails, else completed if any event completes, else unknown. */
  lemma {:induction false} TerminalIsJoin(d: Decoder, maximum: nat, events: seq<seq<byte>>)
    ensures AcceptAll(d, maximum, events).terminal ==
            if Said(d, maximum, events, TerminalUpstreamError) then TerminalUpstreamError
            else if Said(d, maximum, events, TerminalCompleted) then TerminalCompleted
            else TerminalUnknown
  {
    if events != [] {
      var before, e := events[..|events| - 1], events[|events| - 1];
      assert events == before + [e];
      TerminalIsJoin(d, maximum, before);
      SaidSnoc(d, maximum, before, e, TerminalUpstreamError);
      SaidSnoc(d, maximum, before, e, TerminalCompleted);
      AcceptedTerminal(d, AcceptAll(d, maximum, before), e);
    }
  }

  lemma AcceptedTerminal(d: Decoder, a: Account, e: seq<byte>)
    requires ValidAccount(a)
    ensures AcceptEvent(d, a, e).terminal ==
            if a.terminal == TerminalUpstreamError || Verdict(d, e) == TerminalUnknown then a.terminal
            else Verdict(d, e)
  {
  }

  /** The event carries a payload of a class in `classes`. */
  ghost predicate Carries(d: Decoder, e: seq<byte>, classes: set<SseClass>) {
    !IsHeartbeat(d, EventData(e)) && d.classify(EventData(e)) in classes
  }

  /** How many accepted events carry a payload of a class in `classes`. */
  ghost function Tally(d: Decoder, maximum: nat, events: seq<seq<byte>>, classes: set<SseClass>): nat {
    if events == [] then 0
    else
      var e := events[|events| - 1];
      Tally(d, maximum, events[..|events| - 1], classes) + (if |e| <= maximum && Carries(d, e, classes) then 1 else 0)
  }

  ghost function Saturated(n: nat): nat {
    if n < MAX_COUNT then n else MAX_COUNT
  }

  ghost function AllClasses(): set<SseClass> {
    {0, 1, 2, 3, 4, 5, 6, 7, 8, 9}
  }

  ghost function OutputClasses(): set<SseClass> {
    {1, 2, 3, 4, 5}
  }

  lemma TallySnoc(d: Decoder, maximum: nat, events: seq<seq<byte>>, e: seq<byte>, classes: set<SseClass>)
    ensures Tally(d, maximum, events + [e], classes) ==
            Tally(d, maximum, events, classes) + (if |e| <= maximum && Carries(d, e, classes) then 1 else 0)
  {
    assert (events + [e])[..|events|] == events;
  }

  lemma AcceptedCounters(d: Decoder, a: Account, e: seq<byte>, c: SseClass)
    requires ValidAccount(a)
    ensures var p, q := a.progress, AcceptEvent(d, a, e).progress;
            && q.events == (if Carries(d, e, AllClasses()) then Increment(p.events) else p.events)
            && q.outputs == (if Carries(d, e, OutputClasses()) then Increment(p.outputs) else p.outputs)
            && q.classes[c] == (if Carries(d, e, {c}) then Increment(p.classes[c]) else p.classes[c])
  {
  }

  /** Every counter is the saturated tally of the accepted events it stands for. */
  lemma {:induction false} CountersAreTallies(d: Decoder, maximum: nat, events: seq<seq<byte>>, c: SseClass)
    ensures var p := AcceptAll(d, maximum, events).progress;
            && p.events == Saturated(Tally(d, maximum, events, AllClasses()))
            && p.outputs == Saturated(Tally(d, maximum, events, OutputClasses()))
            && p.classes[c] == Saturated(Tally(d, maximum, events, {c}))
  {
    if events != [] {
      var before, e := events[..|events| - 1], events[|events| - 1];
      assert before + [e] == events;
      CountersAreTallies(d, maximum, before, c);
      AcceptAllSnoc(d, maximum, before, e);
      AcceptedCounters(d, AcceptAll(d, maximum, before), e, c);
      TallySnoc(d, maximum, before, e, AllClasses());
      TallySnoc(d, maximum, before, e, OutputClasses());
      TallySnoc(d, maximum, before, e, {c});
    }
  }

  ghost function Total(counts: seq<nat>): nat {
    if counts == [] then 0 else Total(counts[..|counts| - 1]) + counts[|counts| - 1]
  }

  lemma {:induction false} TotalUpdate(counts: seq<nat>, i: nat, n: nat)
    requires i < |counts|
    ensures Total(counts[i := n]) == Total(counts) - counts[i] + n
  {
    var updated := counts[i := n];
    if i == |counts| - 1 {
      assert updated[..i] == counts[..i];
    } else {
      TotalUpdate(counts[..|counts| - 1], i, n);
      assert updated[..|counts| - 1] == counts[..|counts| - 1][i := n];
    }
  }

  /** Below saturation the event counter is the sum of the class counters, and outputs never exceed events. */
  lemma {:induction false} CountersAgree(d: Decoder, maximum: nat, events: seq<seq<byte>>)
    ensures var p := AcceptAll(d, maximum, events).progress;
            && p.outputs <= p.events
            && (|events| < MAX_COUNT ==>
                  p.events <= |events| && Total(p.classes) == p.events
                  && forall i :: 0 <= i < |p.classes| ==> p.classes[i] <= |events|)
  {
    if events == [] {
      TotalZero(NO_ACCOUNT.progress.classes);
    } else {
      var before, e := events[..|events| - 1], events[|events| - 1];
      CountersAgree(d, maximum, before);
      var p := AcceptAll(d, maximum, before).progress;
      var data := EventData(e);
      var c := d.classify(data);
      TotalUpdate(p.classes, c, Increment(p.classes[c]));
    }
  }

  lemma {:induction false} TotalZero(counts: seq<nat>)
    requires forall i :: 0 <= i < |counts| ==> counts[i] == 0
    ensures Total(counts) == 0
  {
    if counts != [] { TotalZero(counts[..|counts| - 1]); }
  }

  // ----- Finishing ---------------------------------------------------------------------

  /** Flushing an unfinished event that holds no pending data changes neither the status, nor the usage, nor the
      event and output counters. */
  lemma FlushWithoutPendingData(d: Decoder, o: Observer)
    requires Valid(o) && o.streaming && !HasPendingSseData(d, o)
    ensures var r := Finish(d, o);
            && r.account.terminal == o.account.terminal && r.account.usage == o.account.usage
            && r.account.progress.events == o.account.progress.events
            && r.account.progress.outputs == o.account.progress.outputs
            && r.account.progress.classes == o.account.progress.classes
  {
  }
}
