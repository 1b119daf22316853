/**
 The relay loop and its watchdog together. For each read the handler first lets the observer see the bytes and then,
 in a section of its own, reports to the guard what changed; the runner of the guard may act in between.
 */
module SupervisedStream {
  import opened Domain
  import opened SseEvents
  import O = ObserverState
  import T = ObserverTheorems
  import G = StreamGuard

  datatype Handler = Reading | Observed

  /** `reported` is the number of chunks that the guard knows of, and `seen` the progress reported for them. */
  datatype State = State(
    g: G.State, o: O.Observer, chunks: seq<seq<byte>>, reported: nat, seen: O.Progress, handler: Handler)

  datatype Action =
    | Guards(guard: G.Action)
    | Receives(chunk: seq<byte>)
    | ReportsProgress

  ghost predicate Init(maximum: nat, mode: O.Mode, st: State) {
    && G.Init(st.g) && st.o == O.NewObserver(maximum, mode) && st.chunks == [] && st.reported == 0
    && st.seen == st.o.account.progress && st.handler == Reading
  }

  /** The report after a chunk: progress, output, terminal. */
  function ReportOf(o: O.Observer, seen: O.Progress): G.Action
    requires O.ValidAccount(o.account)
  {
    var p := o.account.progress;
    G.Reports(!o.streaming || p.events != seen.events, p.outputs != seen.outputs, p.classes[O.SSE_TERMINAL] > 0)
  }

  function Step(t: G.Timeouts, d: O.Decoder, st: State, a: Action): Option<State>
    requires O.Valid(st.o)
  {
    match a
    case Guards(guard) =>
      if guard.Reports? then None
      else
        var g := G.Step(t, st.g, guard);
        if g.None? then None else Some(st.(g := g.value))
    case Receives(chunk) =>
      if st.handler != Reading then None
      else Some(st.(o := O.Observe(d, st.o, chunk), chunks := st.chunks + [chunk], handler := Observed))
    case ReportsProgress =>
      if st.handler != Observed then None
      else
        var g := G.Step(t, st.g, ReportOf(st.o, st.seen));
        if g.None? then None
        else Some(st.(g := g.value, reported := |st.chunks|, seen := st.o.account.progress, handler := Reading))
  }

  ghost predicate Next(t: G.Timeouts, d: O.Decoder, st: State, st': State) {
    O.Valid(st.o) && exists a :: Step(t, d, st, a) == Some(st')
  }

  ghost predicate StepAt(t: G.Timeouts, d: O.Decoder, tr: seq<State>, i: nat)
    requires 0 < i < |tr|
  {
    Next(t, d, tr[i - 1], tr[i])
  }

  ghost predicate IsRun(t: G.Timeouts, d: O.Decoder, maximum: nat, mode: O.Mode, tr: seq<State>) {
    && |tr| > 0 && Init(maximum, mode, tr[0])
    && forall i :: 0 < i < |tr| ==> StepAt(t, d, tr, i)
  }

  // ----- What every run keeps ----------------------------------------------------------

  ghost function ProgressOf(d: O.Decoder, maximum: nat, mode: O.Mode, chunks: seq<seq<byte>>): O.Progress {
    O.ObserveAll(d, O.NewObserver(maximum, mode), chunks).account.progress
  }

  /** The observer is that of the chunks, and the guard knows the progress of the reported ones. */
  ghost predicate Follows(d: O.Decoder, maximum: nat, mode: O.Mode, st: State) {
    && st.o == O.ObserveAll(d, O.NewObserver(maximum, mode), st.chunks)
    && |st.chunks| == st.reported + (if st.handler == Reading then 0 else 1)
    && st.seen == ProgressOf(d, maximum, mode, st.chunks[..st.reported])
  }

  /** As long as nothing stopped the stream, the guard has the first terminal and the first output reported. */
  ghost predicate Told(st: State) {
    && |st.seen.classes| == O.SSE_CLASS_COUNT
    && (st.g.guard.reason == G.StopNone ==>
          && (st.seen.classes[O.SSE_TERMINAL] > 0 ==> st.g.guard.firstTerminal.Some?)
          && (st.seen.outputs > 0 ==> st.g.guard.hasOutput))
  }

  lemma ReceiveFollows(d: O.Decoder, maximum: nat, mode: O.Mode, st: State, chunk: seq<byte>)
    requires Follows(d, maximum, mode, st) && O.Valid(st.o) && st.handler == Reading
    ensures Follows(d, maximum, mode,
                    st.(o := O.Observe(d, st.o, chunk), chunks := st.chunks + [chunk], handler := Observed))
  {
    var chunks := st.chunks + [chunk];
    assert chunks[..|chunks| - 1] == st.chunks && chunks[..st.reported] == st.chunks[..st.reported];
  }

  lemma ReportFollows(d: O.Decoder, maximum: nat, mode: O.Mode, st: State, g: G.State)
    requires Follows(d, maximum, mode, st)
    ensures Follows(d, maximum, mode,
                    st.(g := g, reported := |st.chunks|, seen := st.o.account.progress, handler := Reading))
  {
    assert st.chunks[..|st.chunks|] == st.chunks;
  }

  /** Reports never take back a terminal or an output; a new one is recorded unless the stream was stopped. */
  lemma ReportTells(t: G.Timeouts, st: State)
    requires Told(st) && O.Valid(st.o)
    ensures Told(st.(g := G.Step(t, st.g, ReportOf(st.o, st.seen)).value, reported := |st.chunks|,
                     seen := st.o.account.progress, handler := Reading))
  {
  }

  lemma GuardTells(t: G.Timeouts, st: State, a: G.Action, g: G.State)
    requires Told(st) && !a.Reports? && G.Step(t, st.g, a) == Some(g)
    requires st.g.guard.reason != G.StopNone ==> g.guard.reason != G.StopNone
    ensures Told(st.(g := g))
  {
  }

  lemma StoppedStays(t: G.Timeouts, g: G.State, a: G.Action, g': G.State)
    requires G.Inv(t, g) && G.Step(t, g, a) == Some(g') && g.guard.reason != G.StopNone
    ensures g'.guard.reason == g.guard.reason
  {
  }

  ghost predicate Inv(t: G.Timeouts, d: O.Decoder, maximum: nat, mode: O.Mode, st: State) {
    G.Inv(t, st.g) && Follows(d, maximum, mode, st) && Told(st)
  }

  lemma InitInv(t: G.Timeouts, d: O.Decoder, maximum: nat, mode: O.Mode, st: State)
    requires Init(maximum, mode, st)
    ensures Inv(t, d, maximum, mode, st)
  {
    G.RunInv(t, [st.g], 0);
    assert st.chunks[..0] == [];
  }

  lemma StepKeeps(t: G.Timeouts, d: O.Decoder, maximum: nat, mode: O.Mode, st: State, a: Action, st': State)
    requires Inv(t, d, maximum, mode, st) && O.Valid(st.o) && Step(t, d, st, a) == Some(st')
    ensures Inv(t, d, maximum, mode, st')
  {
    match a {
      case Guards(guard) =>
        G.StepKeeps(t, st.g, guard, st'.g);
        if st.g.guard.reason != G.StopNone { StoppedStays(t, st.g, guard, st'.g); }
        GuardTells(t, st, guard, st'.g);
      case Receives(chunk) =>
        ReceiveFollows(d, maximum, mode, st, chunk);
      case ReportsProgress =>
        G.StepKeeps(t, st.g, ReportOf(st.o, st.seen), st'.g);
        ReportFollows(d, maximum, mode, st, st'.g);
        ReportTells(t, st);
    }
  }

  lemma {:induction false} RunInv(t: G.Timeouts, d: O.Decoder, maximum: nat, mode: O.Mode, tr: seq<State>, i: nat)
    requires IsRun(t, d, maximum, mode, tr) && i < |tr|
    ensures Inv(t, d, maximum, mode, tr[i])
  {
    if i == 0 {
      InitInv(t, d, maximum, mode, tr[0]);
    } else {
      RunInv(t, d, maximum, mode, tr, i - 1);
      assert StepAt(t, d, tr, i);
      var a :| Step(t, d, tr[i - 1], a) == Some(tr[i]);
      StepKeeps(t, d, maximum, mode, tr[i - 1], a, tr[i]);
    }
  }

  // ----- Guarantees --------------------------------------------------------------------

  ghost predicate SilenceStop(r: G.StopReason) {
    r == G.StopIdle || r == G.StopFirstOutput || r == G.StopOutputIdle
  }

  /** The step at which the guard gives up waiting. */
  ghost predicate StopsAt(tr: seq<State>, i: nat) {
    0 < i < |tr| && tr[i - 1].g.guard.reason == G.StopNone && SilenceStop(tr[i].g.guard.reason)
  }

  /** Only the runner sets such a reason, and only while it knows of no terminal. */
  lemma GuardFallsSilent(t: G.Timeouts, g: G.State, a: G.Action, g': G.State)
    requires G.Step(t, g, a) == Some(g') && g.guard.reason == G.StopNone && SilenceStop(g'.guard.reason)
    ensures !a.Reports? && g.guard.firstTerminal.None?
    ensures g'.guard.reason == G.StopFirstOutput ==> !g.guard.hasOutput
  {
  }

  lemma StepFallsSilent(t: G.Timeouts, d: O.Decoder, st: State, a: Action, st': State)
    requires O.Valid(st.o) && Told(st) && Step(t, d, st, a) == Some(st')
    requires st.g.guard.reason == G.StopNone && SilenceStop(st'.g.guard.reason)
    ensures st'.seen == st.seen && st.seen.classes[O.SSE_TERMINAL] == 0
    ensures st'.g.guard.reason == G.StopFirstOutput ==> st.seen.outputs == 0
  {
    GuardFallsSilent(t, st.g, if a.Guards? then a.guard else ReportOf(st.o, st.seen), st'.g);
  }

  lemma ToldInRun(t: G.Timeouts, d: O.Decoder, maximum: nat, mode: O.Mode, tr: seq<State>, i: nat)
    requires IsRun(t, d, maximum, mode, tr) && i < |tr|
    ensures O.Valid(tr[i].o) && Told(tr[i])
  {
    RunInv(t, d, maximum, mode, tr, i);
  }

  lemma NextFallsSilent(t: G.Timeouts, d: O.Decoder, st: State, st': State)
    requires O.Valid(st.o) && Told(st) && Next(t, d, st, st')
    requires st.g.guard.reason == G.StopNone && SilenceStop(st'.g.guard.reason)
    ensures st'.seen == st.seen && st.seen.classes[O.SSE_TERMINAL] == 0
    ensures st'.g.guard.reason == G.StopFirstOutput ==> st.seen.outputs == 0
  {
    var a :| Step(t, d, st, a) == Some(st');
    StepFallsSilent(t, d, st, a, st');
  }

  lemma SilenceIsUntold(t: G.Timeouts, d: O.Decoder, maximum: nat, mode: O.Mode, tr: seq<State>, i: nat)
    requires IsRun(t, d, maximum, mode, tr) && StopsAt(tr, i)
    ensures |tr[i].seen.classes| == O.SSE_CLASS_COUNT && tr[i].seen.classes[O.SSE_TERMINAL] == 0
    ensures tr[i].g.guard.reason == G.StopFirstOutput ==> tr[i].seen.outputs == 0
  {
    ToldInRun(t, d, maximum, mode, tr, i - 1);
    assert StepAt(t, d, tr, i);
    NextFallsSilent(t, d, tr[i - 1], tr[i]);
  }

  lemma {:induction false} NoneTallied(
      d: O.Decoder, maximum: nat, events: seq<seq<byte>>, classes: set<O.SseClass>, k: nat)
    requires T.Tally(d, maximum, events, classes) == 0 && k < |events| && |events[k]| <= maximum
    ensures !T.Carries(d, events[k], classes)
  {
    if k < |events| - 1 { NoneTallied(d, maximum, events[..|events| - 1], classes, k); }
  }

  /** Counters at zero: no event of the stream carries a payload of that class. */
  lemma UncountedEvents(d: O.Decoder, maximum: nat, mode: O.Mode, chunks: seq<seq<byte>>, k: nat)
    requires O.ObserveAll(d, O.NewObserver(maximum, mode), chunks).streaming
    requires k < |SplitOf(Flatten(chunks)).events| && |SplitOf(Flatten(chunks)).events[k]| <= maximum
    ensures var p := ProgressOf(d, maximum, mode, chunks);
            var e := SplitOf(Flatten(chunks)).events[k];
            && |p.classes| == O.SSE_CLASS_COUNT
            && (p.classes[O.SSE_TERMINAL] == 0 ==> !T.Carries(d, e, {O.SSE_TERMINAL}))
            && (p.outputs == 0 ==> !T.Carries(d, e, T.OutputClasses()))
  {
    var events := SplitOf(Flatten(chunks)).events;
    var p := ProgressOf(d, maximum, mode, chunks);
    T.EveryModeRefinesSplit(d, maximum, mode, chunks);
    T.CountersAreTallies(d, maximum, events, O.SSE_TERMINAL);
    if p.classes[O.SSE_TERMINAL] == 0 { NoneTallied(d, maximum, events, {O.SSE_TERMINAL}, k); }
    if p.outputs == 0 { NoneTallied(d, maximum, events, T.OutputClasses(), k); }
  }

  /** When the guard gives up waiting on a stream, no event that it was told of is terminal; if it gives up on the first
      output, none is an output either. Only the chunk that is being handled at that moment may hold one. */
  lemma SilenceMeansNoTerminal(
    t: G.Timeouts, d: O.Decoder, maximum: nat, mode: O.Mode, tr: seq<State>, i: nat, chunks: seq<seq<byte>>, k: nat)
    requires IsRun(t, d, maximum, mode, tr) && StopsAt(tr, i)
    requires tr[i].reported <= |tr[i].chunks| && chunks == tr[i].chunks[..tr[i].reported]
    requires O.ObserveAll(d, O.NewObserver(maximum, mode), chunks).streaming
    requires k < |SplitOf(Flatten(chunks)).events| && |SplitOf(Flatten(chunks)).events[k]| <= maximum
    ensures |tr[i].chunks| - |chunks| <= 1
    ensures !T.Carries(d, SplitOf(Flatten(chunks)).events[k], {O.SSE_TERMINAL})
    ensures tr[i].g.guard.reason == G.StopFirstOutput ==>
              !T.Carries(d, SplitOf(Flatten(chunks)).events[k], T.OutputClasses())
  {
    SilenceIsUntold(t, d, maximum, mode, tr, i);
    RunInv(t, d, maximum, mode, tr, i);
    UncountedEvents(d, maximum, mode, chunks, k);
  }
}
