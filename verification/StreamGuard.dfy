/**
 The watchdog of a streamed response: a runner that looks at the clock under the mutex, and the handler
 that reports progress to it. Time only moves forward; timers may fire and wake-ups may arrive at any moment.
 */
module StreamGuard {
  import opened Domain

  datatype Timeouts = Timeouts(idle: int, outputIdle: int, terminalTail: int)

  datatype StopReason =
    | StopNone
    | StopIdle
    | StopFirstOutput
    | StopOutputIdle
    | StopTail
    | StopCanceled
    | StopPartialTail
    | StopWriteTimeout
    | StopMissingTerminal

  datatype Guard = Guard(
    lastEvent: int,
    lastOutput: int,
    watchOutput: bool,
    hasOutput: bool,
    firstTerminal: Option<int>,
    reason: StopReason)

  function NewGuard(now: int): Guard {
    Guard(now, now, false, false, None, StopNone)
  }

  // ----- Sections ----------------------------------------------------------------------

  function Reported(g: Guard, now: int, progress: bool, output: bool, terminal: bool): Guard {
    if (!progress && !output && !terminal) || g.reason != StopNone then g
    else g.(
      lastEvent := if progress then now else g.lastEvent,
      lastOutput := if output then now else g.lastOutput,
      hasOutput := g.hasOutput || output,
      firstTerminal := if terminal && g.firstTerminal.None? then Some(now) else g.firstTerminal)
  }

  /** The deadline in force, and the reason recorded when it passes. */
  function Deadline(t: Timeouts, g: Guard): (int, StopReason) {
    var event := g.lastEvent + t.idle;
    var output := g.lastOutput + t.outputIdle;
    if g.firstTerminal.Some? then (g.firstTerminal.value + t.terminalTail, StopTail)
    else if g.watchOutput && output < event then (output, if g.hasOutput then StopOutputIdle else StopFirstOutput)
    else (event, StopIdle)
  }

  function Checked(t: Timeouts, g: Guard, now: int): Guard {
    var (deadline, reason) := Deadline(t, g);
    if now >= deadline then g.(reason := reason) else g
  }

  // ----- Runs --------------------------------------------------------------------------

  datatype Runner = Checking | Waiting | Cancelling | Exited

  /** One report of the handler that the guard took in. */
  datatype Report = Report(at: int, progress: bool, output: bool, terminal: bool)

  datatype State = State(
    now: int, start: int, guard: Guard, runner: Runner, stopped: bool, cancelled: bool, reports: seq<Report>)

  datatype Action =
    | Tick(delta: nat)
    | Reports(progress: bool, output: bool, terminal: bool)
    | EnableOutputDeadline
    | Stop
    | Cancel
    | Checks
    | Wakes
    | SeesStop
    | SeesCancel
    | RecordsCancel

  ghost predicate Init(st: State) {
    st == State(st.start, st.start, NewGuard(st.start), Checking, false, false, [])
  }

  function Step(t: Timeouts, st: State, a: Action): Option<State> {
    match a
    case Tick(delta) => Some(st.(now := st.now + delta))
    case Reports(progress, output, terminal) =>
      Some(st.(guard := Reported(st.guard, st.now, progress, output, terminal),
               reports := if st.guard.reason == StopNone
                          then st.reports + [Report(st.now, progress, output, terminal)] else st.reports))
    case EnableOutputDeadline => Some(st.(guard := st.guard.(watchOutput := true)))
    case Stop => Some(st.(stopped := true))
    case Cancel => Some(st.(cancelled := true))
    case Checks =>
      if st.runner != Checking then None
      else
        var guard := Checked(t, st.guard, st.now);
        Some(st.(guard := guard, runner := if guard.reason != StopNone then Exited else Waiting))
    case Wakes => if st.runner == Waiting then Some(st.(runner := Checking)) else None
    case SeesStop => if st.runner == Waiting && st.stopped then Some(st.(runner := Exited)) else None
    case SeesCancel => if st.runner == Waiting && st.cancelled then Some(st.(runner := Cancelling)) else None
    case RecordsCancel =>
      if st.runner == Cancelling then Some(st.(guard := st.guard.(reason := StopCanceled), runner := Exited)) else None
  }

  ghost predicate Next(t: Timeouts, st: State, st': State) {
    exists a :: Step(t, st, a) == Some(st')
  }

  ghost predicate StepAt(t: Timeouts, tr: seq<State>, i: nat)
    requires 0 < i < |tr|
  {
    Next(t, tr[i - 1], tr[i])
  }

  ghost predicate IsRun(t: Timeouts, tr: seq<State>) {
    && |tr| > 0 && Init(tr[0])
    && forall i :: 0 < i < |tr| ==> StepAt(t, tr, i)
  }

  // ----- What every run keeps ----------------------------------------------------------

  /** The clock readings of the guard are those of the reports it took in. */
  ghost predicate Recorded(st: State) {
    && st.start <= st.guard.lastEvent <= st.now && st.start <= st.guard.lastOutput <= st.now
    && (forall k :: 0 <= k < |st.reports| ==> ReportSeen(st, st.reports[k]))
    && (st.guard.hasOutput ==> exists k :: 0 <= k < |st.reports| && st.reports[k].output)
    && (st.guard.firstTerminal.Some? ==>
          exists k :: 0 <= k < |st.reports| && st.reports[k].terminal
              && st.reports[k].at == st.guard.firstTerminal.value)
  }

  ghost predicate ReportSeen(st: State, r: Report) {
    && r.at <= st.now
    && (r.progress ==> r.at <= st.guard.lastEvent)
    && (r.output ==> st.guard.hasOutput && r.at <= st.guard.lastOutput)
    && (r.terminal ==> st.guard.firstTerminal.Some? && st.guard.firstTerminal.value <= r.at)
  }

  /** What a recorded reason means. */
  ghost predicate Justified(t: Timeouts, st: State) {
    var g := st.guard;
    match g.reason
    case StopNone => true
    case StopIdle => g.firstTerminal.None? && st.now >= g.lastEvent + t.idle
    case StopFirstOutput => g.firstTerminal.None? && !g.hasOutput && st.now >= g.lastOutput + t.outputIdle
    case StopOutputIdle => g.firstTerminal.None? && g.hasOutput && st.now >= g.lastOutput + t.outputIdle
    case StopTail => g.firstTerminal.Some? && st.now >= g.firstTerminal.value + t.terminalTail
    case StopCanceled => st.cancelled
    case _ => false
  }

  ghost predicate Inv(t: Timeouts, st: State) {
    && Recorded(st) && Justified(t, st)
    && (st.guard.reason != StopNone ==> st.runner == Exited)
    && (st.runner == Cancelling ==> st.cancelled)
  }

  lemma ReportKeeps(t: Timeouts, st: State, progress: bool, output: bool, terminal: bool)
    requires Inv(t, st)
    ensures Inv(t, Step(t, st, Reports(progress, output, terminal)).value)
  {
    var st' := Step(t, st, Reports(progress, output, terminal)).value;
    forall k | 0 <= k < |st'.reports| ensures ReportSeen(st', st'.reports[k]) {
      if k < |st.reports| {
        assert ReportSeen(st, st.reports[k]);
        assert st'.reports[k] == st.reports[k];
      }
    }
    if st.guard.reason == StopNone {
      var last := st'.reports[|st.reports|];
      assert last == Report(st.now, progress, output, terminal);
      assert forall k :: 0 <= k < |st.reports| ==> st'.reports[k] == st.reports[k];
    }
  }

  lemma StepKeeps(t: Timeouts, st: State, a: Action, st': State)
    requires Inv(t, st) && Step(t, st, a) == Some(st')
    ensures Inv(t, st')
  {
    if a.Reports? {
      ReportKeeps(t, st, a.progress, a.output, a.terminal);
    } else {
      assert st'.reports == st.reports;
      forall k | 0 <= k < |st'.reports| ensures ReportSeen(st', st'.reports[k]) {
        assert ReportSeen(st, st.reports[k]);
      }
    }
  }

  lemma {:induction false} RunInv(t: Timeouts, tr: seq<State>, i: nat)
    requires IsRun(t, tr) && i < |tr|
    ensures Inv(t, tr[i])
  {
    if i > 0 {
      RunInv(t, tr, i - 1);
      assert StepAt(t, tr, i);
      var a :| Step(t, tr[i - 1], a) == Some(tr[i]);
      StepKeeps(t, tr[i - 1], a, tr[i]);
    }
  }

  /** The stop reason is set at most once; once the runner has exited, the reason that stop() returns is final. */
  lemma {:induction false} ReasonIsFinal(t: Timeouts, tr: seq<State>, i: nat, j: nat)
    requires IsRun(t, tr) && i <= j < |tr|
    ensures tr[i].runner == Exited ==> tr[j].runner == Exited && tr[j].guard.reason == tr[i].guard.reason
    ensures tr[i].guard.reason != StopNone ==> tr[j].guard.reason == tr[i].guard.reason
  {
    RunInv(t, tr, i);
    if i < j {
      ReasonIsFinal(t, tr, i, j - 1);
      assert StepAt(t, tr, j);
      var a :| Step(t, tr[j - 1], a) == Some(tr[j]);
    }
  }

  /** An idle or output reason means that no terminal was ever reported, and that the silence really lasted. */
  lemma TimeoutsAreJustified(t: Timeouts, tr: seq<State>, r: Report)
    requires IsRun(t, tr) && r in tr[|tr| - 1].reports
    ensures var st := tr[|tr| - 1];
            && (st.guard.reason in {StopIdle, StopFirstOutput, StopOutputIdle} ==> !r.terminal)
            && (st.guard.reason == StopFirstOutput ==> !r.output)
            && (st.guard.reason == StopIdle && r.progress ==> r.at + t.idle <= st.now)
            && (st.guard.reason == StopOutputIdle && r.output ==> r.at + t.outputIdle <= st.now)
            && (r.terminal ==> st.guard.firstTerminal.Some? && st.guard.firstTerminal.value <= r.at)
  {
    RunInv(t, tr, |tr| - 1);
    var k :| 0 <= k < |tr[|tr| - 1].reports| && tr[|tr| - 1].reports[k] == r;
    assert ReportSeen(tr[|tr| - 1], r);
  }

  /** Every stop waited its time: an idle or output timeout since the start and since the last report that counts, a
      tail timeout since the first terminal report, and a cancelled stop follows a cancellation. */
  lemma StopsWaited(t: Timeouts, tr: seq<State>)
    requires IsRun(t, tr)
    ensures var st := tr[|tr| - 1];
            && (st.guard.reason == StopIdle ==> st.start + t.idle <= st.now)
            && (st.guard.reason == StopFirstOutput || st.guard.reason == StopOutputIdle ==>
                  st.start + t.outputIdle <= st.now)
            && (st.guard.reason == StopOutputIdle ==> exists r :: r in st.reports && r.output)
            && (st.guard.reason == StopTail ==>
                  exists r :: r in st.reports && r.terminal && r.at + t.terminalTail <= st.now
                              && forall q :: q in st.reports && q.terminal ==> r.at <= q.at)
            && (st.guard.reason == StopCanceled ==> st.cancelled)
  {
    RunInv(t, tr, |tr| - 1);
    var st := tr[|tr| - 1];
    if st.guard.reason == StopTail {
      var k :| 0 <= k < |st.reports| && st.reports[k].terminal && st.reports[k].at == st.guard.firstTerminal.value;
      assert st.reports[k] in st.reports;
      forall q | q in st.reports && q.terminal ensures st.reports[k].at <= q.at {
        var j :| 0 <= j < |st.reports| && st.reports[j] == q;
        assert ReportSeen(st, st.reports[j]);
      }
    }
    if st.guard.reason == StopOutputIdle {
      var k :| 0 <= k < |st.reports| && st.reports[k].output;
      assert st.reports[k] in st.reports;
    }
  }

  /** The tail deadline is fixed by the first terminal report; nothing that follows extends it. */
  lemma {:induction false} TailDeadlineIsFixed(t: Timeouts, tr: seq<State>, i: nat, j: nat)
    requires IsRun(t, tr) && i <= j < |tr| && tr[i].guard.firstTerminal.Some?
    ensures tr[j].guard.firstTerminal == tr[i].guard.firstTerminal
    ensures Deadline(t, tr[j].guard) == (tr[i].guard.firstTerminal.value + t.terminalTail, StopTail)
  {
    if i < j {
      TailDeadlineIsFixed(t, tr, i, j - 1);
      assert StepAt(t, tr, j);
      var a :| Step(t, tr[j - 1], a) == Some(tr[j]);
    }
  }

  /** A check never lets a passed deadline go by. */
  lemma CheckFiresExactlyAtDeadline(t: Timeouts, tr: seq<State>, i: nat)
    requires IsRun(t, tr) && 0 < i < |tr| && tr[i - 1].runner == Checking && tr[i].runner != Checking
    ensures tr[i].runner == Exited <==> tr[i - 1].now >= Deadline(t, tr[i - 1].guard).0
    ensures tr[i].runner == Exited ==> tr[i].guard.reason == Deadline(t, tr[i - 1].guard).1
  {
    RunInv(t, tr, i - 1);
    assert StepAt(t, tr, i);
    var a :| Step(t, tr[i - 1], a) == Some(tr[i]);
  }

  // ----- The object --------------------------------------------------------------------

  class HttpStreamGuard {
    const timeouts: Timeouts
    var lastEvent: int
    var lastOutput: int
    var watchOutput: bool
    var hasOutput: bool
    var firstTerminal: Option<int>
    var reason: StopReason

    ghost function View(): Guard
      reads this
    {
      Guard(lastEvent, lastOutput, watchOutput, hasOutput, firstTerminal, reason)
    }

    constructor (timeouts: Timeouts, now: int)
      ensures this.timeouts == timeouts && View() == NewGuard(now)
    {
      this.timeouts := timeouts;
      lastEvent, lastOutput, watchOutput, hasOutput := now, now, false, false;
      firstTerminal, reason := None, StopNone;
    }

    method Observe(now: int, progress: bool, output: bool, terminal: bool)
      modifies this
      ensures View() == Reported(old(View()), now, progress, output, terminal)
    {
      if !progress && !output && !terminal {
        return;
      }
      if reason == StopNone {
        if progress {
          lastEvent := now;
        }
        if output {
          lastOutput := now;
          hasOutput := true;
        }
        if terminal && firstTerminal.None? {
          firstTerminal := Some(now);
        }
      }
    }

    /** The locked part of one pass of the runner. */
    method Check(now: int) returns (fired: bool)
      requires reason == StopNone
      modifies this`reason
      ensures View() == Checked(timeouts, old(View()), now)
      ensures fired == (reason != StopNone)
    {
      var deadline, candidate := lastEvent + timeouts.idle, StopIdle;
      var outputDeadline := lastOutput + timeouts.outputIdle;
      if watchOutput && outputDeadline < deadline {
        deadline, candidate := outputDeadline, StopFirstOutput;
        if hasOutput {
          candidate := StopOutputIdle;
        }
      }
      if firstTerminal.Some? {
        deadline, candidate := firstTerminal.value + timeouts.terminalTail, StopTail;
      }
      if deadline - now <= 0 {
        reason := candidate;
        return true;
      }
      return false;
    }
  }
}
