/**
 Admission of WebSocket connections per API key, and the drain at shutdown, over every interleaving of connection
 handlers. A handler acquires a slot, may register a session, unregisters it, and releases the slot in the role in which
 it acquired it.
 */
module ConnectionCapacity {
  import opened Domain

  // ----- The manager -------------------------------------------------------------------

  type SessionId = nat

  datatype Manager = Manager(
    limit: int,
    perKey: map<string, int>,
    guardian: map<string, int>,
    sessions: set<SessionId>,
    closing: bool,
    drained: bool)

  function NewManager(limit: int): Manager {
    Manager(limit, map[], map[], {}, false, false)
  }

  /** A missing key reads as zero. */
  function Count(counters: map<string, int>, key: string): int {
    if key in counters then counters[key] else 0
  }

  predicate Admits(m: Manager, key: string, guardian: bool) {
    !m.closing && Count(m.perKey, key) < m.limit && (guardian ==> Count(m.guardian, key) < m.limit - 1)
  }

  function Raise(counters: map<string, int>, key: string): map<string, int> {
    counters[key := Count(counters, key) + 1]
  }

  /** A counter that would reach zero is removed. */
  function Lower(counters: map<string, int>, key: string): map<string, int> {
    if Count(counters, key) <= 1 then counters - {key} else counters[key := Count(counters, key) - 1]
  }

  function AcquireRole(m: Manager, key: string, guardian: bool): Manager {
    if !Admits(m, key, guardian) then m
    else m.(perKey := Raise(m.perKey, key), guardian := if guardian then Raise(m.guardian, key) else m.guardian)
  }

  function ReleaseRole(m: Manager, key: string, guardian: bool): Manager {
    m.(perKey := Lower(m.perKey, key), guardian := if guardian then Lower(m.guardian, key) else m.guardian)
  }

  function Register(m: Manager, s: SessionId): Manager {
    if m.closing then m else m.(sessions := m.sessions + {s})
  }

  function Unregister(m: Manager, s: SessionId): Manager {
    var rest := m.sessions - {s};
    m.(sessions := rest, drained := m.drained || (m.closing && rest == {}))
  }

  function Shutdown(m: Manager): Manager {
    m.(closing := true, drained := m.drained || m.sessions == {})
  }

  // ----- Runs --------------------------------------------------------------------------

  /** A handler that holds a slot. */
  datatype Holder = Holder(key: string, guardian: bool, registered: bool)

  datatype State = State(m: Manager, live: map<SessionId, Holder>)

  datatype Action =
    | Acquires(h: SessionId, key: string, guardian: bool)
    | Registers(h: SessionId)
    | Unregisters(h: SessionId)
    | Releases(h: SessionId)
    | ShutsDown

  /** A refused handler holds nothing; a session is unregistered before its slot is released. */
  ghost function Step(st: State, a: Action): Option<State> {
    match a
    case Acquires(h, key, guardian) =>
      if h in st.live then None
      else if !Admits(st.m, key, guardian) then Some(st)
      else Some(State(AcquireRole(st.m, key, guardian), st.live[h := Holder(key, guardian, false)]))
    case Registers(h) =>
      if h !in st.live || st.live[h].registered then None
      else if st.m.closing then Some(st)
      else Some(State(Register(st.m, h), st.live[h := st.live[h].(registered := true)]))
    case Unregisters(h) =>
      if h !in st.live || !st.live[h].registered then None
      else Some(State(Unregister(st.m, h), st.live[h := st.live[h].(registered := false)]))
    case Releases(h) =>
      if h !in st.live || st.live[h].registered then None
      else Some(State(ReleaseRole(st.m, st.live[h].key, st.live[h].guardian), st.live - {h}))
    case ShutsDown => Some(st.(m := Shutdown(st.m)))
  }

  ghost predicate Next(st: State, st': State) {
    exists a :: Step(st, a) == Some(st')
  }

  ghost predicate StepAt(tr: seq<State>, i: nat)
    requires 0 < i < |tr|
  {
    Next(tr[i - 1], tr[i])
  }

  ghost predicate IsRun(tr: seq<State>, limit: int) {
    && |tr| > 0 && tr[0] == State(NewManager(limit), map[])
    && forall i :: 0 < i < |tr| ==> StepAt(tr, i)
  }

  // ----- Counters and live holders -----------------------------------------------------

  ghost function Holders(live: map<SessionId, Holder>, key: string): set<SessionId> {
    set h | h in live && live[h].key == key
  }

  ghost function Guardians(live: map<SessionId, Holder>, key: string): set<SessionId> {
    set h | h in live && live[h].key == key && live[h].guardian
  }

  ghost predicate Tracks(counters: map<string, int>, key: string, holders: set<SessionId>) {
    Count(counters, key) == |holders| && (key in counters <==> holders != {})
  }

  ghost predicate KeyOk(m: Manager, live: map<SessionId, Holder>, key: string) {
    && Tracks(m.perKey, key, Holders(live, key)) && Tracks(m.guardian, key, Guardians(live, key))
    && (Holders(live, key) != {} ==> |Holders(live, key)| <= m.limit)
    && (Guardians(live, key) != {} ==> |Guardians(live, key)| <= m.limit - 1)
  }

  ghost predicate DrainOk(m: Manager, live: map<SessionId, Holder>) {
    && (forall h :: h in m.sessions <==> h in live && live[h].registered)
    && (m.drained <==> m.closing && m.sessions == {})
  }

  ghost predicate Inv(st: State, limit: int) {
    && st.m.limit == limit && DrainOk(st.m, st.live)
    && forall key :: KeyOk(st.m, st.live, key)
  }

  lemma Raised(counters: map<string, int>, key: string, at: string, holders: set<SessionId>, h: SessionId)
    requires Tracks(counters, at, holders) && h !in holders
    ensures at == key ==> Tracks(Raise(counters, key), at, holders + {h})
    ensures at != key ==> Tracks(Raise(counters, key), at, holders)
  {
  }

  lemma Lowered(counters: map<string, int>, key: string, at: string, holders: set<SessionId>, h: SessionId)
    requires Tracks(counters, at, holders) && (at == key ==> h in holders)
    ensures at == key ==> Tracks(Lower(counters, key), at, holders - {h})
    ensures at != key ==> Tracks(Lower(counters, key), at, holders)
  {
    if at == key {
      assert |holders - {h}| == |holders| - 1;
    }
  }

  lemma HoldersAfterAcquire(live: map<SessionId, Holder>, h: SessionId, key: string, guardian: bool, at: string)
    requires h !in live
    ensures var live' := live[h := Holder(key, guardian, false)];
            && Holders(live', at) == (if at == key then Holders(live, at) + {h} else Holders(live, at))
            && Guardians(live', at) ==
               (if at == key && guardian then Guardians(live, at) + {h} else Guardians(live, at))
  {
  }

  lemma HoldersAfterRelease(live: map<SessionId, Holder>, h: SessionId, at: string)
    requires h in live
    ensures var key := live[h].key;
            && Holders(live - {h}, at) == (if at == key then Holders(live, at) - {h} else Holders(live, at))
            && Guardians(live - {h}, at) ==
               if at == key && live[h].guardian then Guardians(live, at) - {h} else Guardians(live, at)
  {
  }

  lemma AcquireKeeps(m: Manager, live: map<SessionId, Holder>, h: SessionId, key: string, guardian: bool, at: string)
    requires h !in live && Admits(m, key, guardian) && KeyOk(m, live, at)
    ensures KeyOk(AcquireRole(m, key, guardian), live[h := Holder(key, guardian, false)], at)
  {
    HoldersAfterAcquire(live, h, key, guardian, at);
    Raised(m.perKey, key, at, Holders(live, at), h);
    if guardian { Raised(m.guardian, key, at, Guardians(live, at), h); }
  }

  lemma ReleaseKeeps(m: Manager, live: map<SessionId, Holder>, h: SessionId, at: string)
    requires h in live && KeyOk(m, live, at)
    ensures KeyOk(ReleaseRole(m, live[h].key, live[h].guardian), live - {h}, at)
  {
    HoldersAfterRelease(live, h, at);
    Lowered(m.perKey, live[h].key, at, Holders(live, at), h);
    if live[h].guardian { Lowered(m.guardian, live[h].key, at, Guardians(live, at), h); }
    ShrinkingKeepsBound(Holders(live, at), h);
    ShrinkingKeepsBound(Guardians(live, at), h);
  }

  lemma ShrinkingKeepsBound(holders: set<SessionId>, h: SessionId)
    ensures |holders - {h}| <= |holders|
  {
  }

  lemma MarkKeeps(m: Manager, m': Manager, live: map<SessionId, Holder>, h: SessionId, registered: bool, at: string)
    requires h in live && KeyOk(m, live, at)
    requires m'.limit == m.limit && m'.perKey == m.perKey && m'.guardian == m.guardian
    ensures KeyOk(m', live[h := live[h].(registered := registered)], at)
  {
    var live' := live[h := live[h].(registered := registered)];
    assert Holders(live', at) == Holders(live, at);
    assert Guardians(live', at) == Guardians(live, at);
  }

  lemma StepKeepsKeys(st: State, a: Action, st': State, key: string)
    requires Step(st, a) == Some(st') && KeyOk(st.m, st.live, key)
    ensures KeyOk(st'.m, st'.live, key)
  {
    match a {
      case Acquires(h, k, guardian) =>
        if Admits(st.m, k, guardian) { AcquireKeeps(st.m, st.live, h, k, guardian, key); }
      case Registers(h) => if !st.m.closing { MarkKeeps(st.m, st'.m, st.live, h, true, key); }
      case Unregisters(h) => MarkKeeps(st.m, st'.m, st.live, h, false, key);
      case Releases(h) => ReleaseKeeps(st.m, st.live, h, key);
      case ShutsDown =>
    }
  }

  lemma StepKeepsDrain(st: State, a: Action, st': State)
    requires Step(st, a) == Some(st') && DrainOk(st.m, st.live)
    ensures DrainOk(st'.m, st'.live) && st'.m.limit == st.m.limit
    ensures (st.m.closing ==> st'.m.closing && st'.m.sessions <= st.m.sessions) && (st.m.drained ==> st'.m.drained)
  {
  }

  lemma {:induction false} RunInv(tr: seq<State>, limit: int, i: nat)
    requires IsRun(tr, limit) && i < |tr|
    ensures Inv(tr[i], limit)
  {
    if i == 0 {
      forall key ensures KeyOk(tr[0].m, tr[0].live, key) {
        assert Holders(map[], key) == {} && Guardians(map[], key) == {};
      }
    } else {
      RunInv(tr, limit, i - 1);
      assert StepAt(tr, i);
      var a :| Step(tr[i - 1], a) == Some(tr[i]);
      StepKeepsDrain(tr[i - 1], a, tr[i]);
      forall key ensures KeyOk(tr[i].m, tr[i].live, key) { StepKeepsKeys(tr[i - 1], a, tr[i], key); }
    }
  }

  // ----- Guarantees --------------------------------------------------------------------

  /** The counters are the numbers of live holders, no key has more than the limit, and no key has an entry without a
      holder. */
  lemma CountersAreHolders(tr: seq<State>, limit: int, i: nat, key: string)
    requires IsRun(tr, limit) && i < |tr|
    ensures Count(tr[i].m.perKey, key) == |Holders(tr[i].live, key)|
    ensures Count(tr[i].m.guardian, key) == |Guardians(tr[i].live, key)|
    ensures key in tr[i].m.perKey <==> Holders(tr[i].live, key) != {}
    ensures limit >= 0 ==> |Holders(tr[i].live, key)| <= limit
  {
    RunInv(tr, limit, i);
    assert KeyOk(tr[i].m, tr[i].live, key);
  }

  /** Guardian connections alone never fill a key: before shutdown an ordinary acquire is refused exactly if the key has
      as many holders as the limit, and then one of them is not a guardian. */
  lemma GuardiansLeaveRoom(tr: seq<State>, limit: int, i: nat, key: string)
    requires IsRun(tr, limit) && i < |tr| && !tr[i].m.closing && limit >= 1
    ensures Admits(tr[i].m, key, false) <==> |Holders(tr[i].live, key)| < limit
    ensures !Admits(tr[i].m, key, false) ==>
              exists h :: h in tr[i].live && tr[i].live[h].key == key && !tr[i].live[h].guardian
  {
    RunInv(tr, limit, i);
    var live := tr[i].live;
    assert KeyOk(tr[i].m, live, key);
    if forall h :: h in live && live[h].key == key ==> live[h].guardian {
      assert Holders(live, key) == Guardians(live, key);
    }
  }

  lemma {:induction false} ClosingIsForGood(tr: seq<State>, limit: int, i: nat, j: nat)
    requires IsRun(tr, limit) && i <= j < |tr| && tr[i].m.closing
    ensures tr[j].m.closing && tr[j].m.sessions <= tr[i].m.sessions && (tr[i].m.drained ==> tr[j].m.drained)
  {
    if i < j {
      ClosingIsForGood(tr, limit, i, j - 1);
      RunInv(tr, limit, j - 1);
      assert StepAt(tr, j);
      var a :| Step(tr[j - 1], a) == Some(tr[j]);
      StepKeepsDrain(tr[j - 1], a, tr[j]);
    }
  }

  /** The drain is signalled exactly when the manager is closing and no session is registered; from then on it stays
      signalled and no session is registered again. */
  lemma DrainIsExact(tr: seq<State>, limit: int, i: nat, j: nat)
    requires IsRun(tr, limit) && i <= j < |tr|
    ensures tr[i].m.drained <==> tr[i].m.closing && forall h :: h in tr[i].live ==> !tr[i].live[h].registered
    ensures tr[i].m.drained ==> tr[j].m.drained && tr[j].m.sessions == {}
  {
    RunInv(tr, limit, i);
    if tr[i].m.drained { ClosingIsForGood(tr, limit, i, j); }
    assert forall h :: h in tr[i].m.sessions <==> h in tr[i].live && tr[i].live[h].registered;
  }
}
