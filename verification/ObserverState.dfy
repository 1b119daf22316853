/**
 What the response observer accumulates, byte by byte. JSON decoding, white-space trimming and the
 classification of a data payload are parameters: everything below holds for any such functions.
 */
module ObserverState {
  import opened Domain
  import opened SseEvents

  // ----- Payloads ----------------------------------------------------------------------

  type SseClass = c: int | 0 <= c < 10

  const SSE_CLASS_COUNT: nat := 10
  const SSE_TEXT: SseClass := 1
  const SSE_ITEM: SseClass := 5
  const SSE_TERMINAL: SseClass := 6

  predicate IsOutput(c: SseClass) {
    SSE_TEXT <= c <= SSE_ITEM
  }

  /** The members of a JSON payload that accounting reads. */
  datatype Envelope = Envelope(kind: string, status: string, usage: Option<TokenUsage>)

  datatype Decoder = Decoder(
    trim: seq<byte> -> seq<byte>,
    classify: seq<byte> -> SseClass,
    envelope: seq<byte> -> Option<Envelope>)

  const DATA: seq<byte> := [100, 97, 116, 97, 58]          // data:
  const EVENT: seq<byte> := [101, 118, 101, 110, 116, 58]  // event:
  const COMMENT: seq<byte> := [58]                         // :
  const DONE: seq<byte> := [91, 68, 79, 78, 69, 93]        // [DONE]
  const SPACE: byte := 32
  const TAB: byte := 9

  function FirstLF(s: seq<byte>): (i: nat)
    ensures i <= |s| && (i < |s| ==> s[i] == LF) && LF !in s[..i]
  {
    if s == [] || s[0] == LF then 0 else 1 + FirstLF(s[1..])
  }

  /** The values of the data fields of an event, line by line. */
  function DataParts(event: seq<byte>): seq<seq<byte>>
    decreases |event|
  {
    var i := FirstLF(event);
    var line := if i > 0 && event[i - 1] == CR then event[..i - 1] else event[..i];
    var parts :=
      if DATA <= line then
        var value := line[|DATA|..];
        [if value != [] && value[0] == SPACE then value[1..] else value]
      else [];
    if i < |event| then parts + DataParts(event[i + 1..]) else parts
  }

  function Join(parts: seq<seq<byte>>): seq<byte> {
    if parts == [] then [] else if |parts| == 1 then parts[0] else parts[0] + [LF] + Join(parts[1..])
  }

  function EventData(event: seq<byte>): seq<byte> {
    Join(DataParts(event))
  }

  /** Data that carries no payload: nothing but space, or the end marker. */
  predicate IsHeartbeat(d: Decoder, data: seq<byte>) {
    var trimmed := d.trim(data);
    trimmed == [] || trimmed == DONE
  }

  function TrimLeft(s: seq<byte>): seq<byte> {
    if s != [] && (s[0] == SPACE || s[0] == TAB || s[0] == CR || s[0] == LF) then TrimLeft(s[1..]) else s
  }

  predicate LooksLikeSse(s: seq<byte>) {
    var trimmed := TrimLeft(s);
    EVENT <= trimmed || DATA <= trimmed || COMMENT <= trimmed
  }

  // ----- Accounting --------------------------------------------------------------------

  datatype Terminal = TerminalUnknown | TerminalCompleted | TerminalUpstreamError

  const MAX_COUNT: nat := 0xFFFF_FFFF_FFFF_FFFF

  datatype Progress = Progress(events: nat, outputs: nat, heartbeats: nat, classes: seq<nat>)

  datatype Account = Account(progress: Progress, terminal: Terminal, usage: Option<TokenUsage>)

  const NO_ACCOUNT := Account(Progress(0, 0, 0, [0, 0, 0, 0, 0, 0, 0, 0, 0, 0]), TerminalUnknown, None)

  /** A counter that stops at the largest 64-bit value. */
  function Increment(n: nat): nat {
    if n != MAX_COUNT then n + 1 else n
  }

  function ObserveProgress(p: Progress, c: SseClass): Progress
    requires |p.classes| == SSE_CLASS_COUNT
  {
    Progress(
      Increment(p.events),
      if IsOutput(c) then Increment(p.outputs) else p.outputs,
      p.heartbeats,
      p.classes[c := Increment(p.classes[c])])
  }

  function ObserveTerminal(terminal: Terminal, kind: string, status: string): Terminal {
    if terminal == TerminalUpstreamError then terminal
    else if kind == "response.completed" then TerminalCompleted
    else if kind == "response.failed" || kind == "response.incomplete" || kind == "error" then TerminalUpstreamError
    else if status == "completed" then TerminalCompleted
    else if status == "failed" || status == "incomplete" then TerminalUpstreamError
    else terminal
  }

  function AcceptJson(d: Decoder, a: Account, data: seq<byte>): Account {
    match d.envelope(data)
    case None => a
    case Some(e) =>
      a.(terminal := ObserveTerminal(a.terminal, e.kind, e.status),
         usage := if e.usage.Some? then e.usage else a.usage)
  }

  predicate ValidAccount(a: Account) {
    |a.progress.classes| == SSE_CLASS_COUNT
  }

  function AcceptEvent(d: Decoder, a: Account, event: seq<byte>): (r: Account)
    requires ValidAccount(a)
    ensures ValidAccount(r)
  {
    var data := EventData(event);
    if IsHeartbeat(d, data) then
      a.(progress := a.progress.(heartbeats := Increment(a.progress.heartbeats)))
    else
      AcceptJson(d, a.(progress := ObserveProgress(a.progress, d.classify(data))), data)
  }

  // ----- The scanner, one byte at a time -----------------------------------------------

  /** The current line, as far as the scanner remembers it: its length up to two, and whether its first
      byte is CR. */
  datatype Line = Line(length: nat, cr: bool)

  const NEW_LINE := Line(0, false)

  predicate IsEmptyLine(l: Line) {
    l.length == 0 || (l.length == 1 && l.cr)
  }

  function NextLine(l: Line, b: byte): Line {
    if b == LF then NEW_LINE
    else Line(if l.length + 1 < 2 then l.length + 1 else 2, if l.length == 0 then b == CR else l.cr)
  }

  datatype Observer = Observer(
    maximum: nat,
    line: Line,
    dropping: bool,
    streaming: bool,
    detectStreaming: bool,
    disabled: bool,
    buffer: seq<byte>,
    account: Account)

  datatype Mode = DeclaredStream | DeclaredOther | Undeclared

  function NewObserver(maximum: nat, mode: Mode): Observer {
    Observer(maximum, NEW_LINE, false, mode == DeclaredStream, mode == Undeclared, false, [], NO_ACCOUNT)
  }

  ghost predicate Valid(o: Observer) {
    && |o.buffer| <= o.maximum
    && (o.dropping ==> o.streaming && o.buffer == [])
    && ValidAccount(o.account)
  }

  function StepByte(d: Decoder, o: Observer, b: byte): (r: Observer)
    requires Valid(o) && o.streaming
    ensures Valid(r) && r.streaming
  {
    var ended := b == LF && IsEmptyLine(o.line);
    var dropping := o.dropping || |o.buffer| + 1 > o.maximum;
    var buffer := if dropping then [] else o.buffer + [b];
    var next := o.(line := NextLine(o.line, b));
    if ended then
      next.(dropping := false, buffer := [],
            account := if dropping then o.account else AcceptEvent(d, o.account, buffer))
    else
      next.(dropping := dropping, buffer := buffer)
  }

  function Feed(d: Decoder, o: Observer, s: seq<byte>): (r: Observer)
    requires Valid(o) && o.streaming
    ensures Valid(r) && r.streaming
  {
    if s == [] then o else StepByte(d, Feed(d, o, s[..|s| - 1]), s[|s| - 1])
  }

  // ----- Observe, finish and the queries -----------------------------------------------

  function Observe(d: Decoder, o: Observer, chunk: seq<byte>): (r: Observer)
    requires Valid(o)
    ensures Valid(r)
  {
    if o.disabled || chunk == [] then o
    else if o.streaming then Feed(d, o, chunk)
    else if |chunk| > o.maximum - |o.buffer| then o.(buffer := [], disabled := true)
    else
      var buffer := o.buffer + chunk;
      if o.detectStreaming && LooksLikeSse(buffer) then Feed(d, o.(streaming := true, buffer := []), buffer)
      else o.(buffer := buffer)
  }

  function ObserveAll(d: Decoder, o: Observer, chunks: seq<seq<byte>>): (r: Observer)
    requires Valid(o)
    ensures Valid(r)
  {
    if chunks == [] then o else Observe(d, ObserveAll(d, o, chunks[..|chunks| - 1]), chunks[|chunks| - 1])
  }

  function Finish(d: Decoder, o: Observer): (r: Observer)
    requires Valid(o)
    ensures Valid(r)
  {
    var account :=
      if !o.streaming && !o.disabled && o.buffer != [] then AcceptJson(d, o.account, o.buffer)
      else if o.streaming && !o.dropping && o.buffer != [] then AcceptEvent(d, o.account, o.buffer)
      else o.account;
    o.(account := account, buffer := [])
  }

  predicate HasPendingSseData(d: Decoder, o: Observer) {
    o.streaming && (o.dropping || !IsHeartbeat(d, EventData(o.buffer)))
  }
}
