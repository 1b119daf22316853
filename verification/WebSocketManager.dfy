/** The manager of the WebSocket connections, whose methods run under its mutex. */
module WebSocketManager {
  import C = ConnectionCapacity

  class Manager {
    const limit: int
    var perKey: map<string, int>
    var guardian: map<string, int>
    var sessions: set<C.SessionId>
    var closing: bool
    var drained: bool
    /** How often the drain channel was closed: a second close would panic. */
    ghost var closes: nat

    ghost function View(): C.Manager
      reads this
    {
      C.Manager(limit, perKey, guardian, sessions, closing, drained)
    }

    ghost predicate Valid()
      reads this
    {
      closes == if drained then 1 else 0
    }

    constructor (limit: int)
      ensures Valid() && View() == C.NewManager(limit)
    {
      this.limit := limit;
      perKey, guardian, sessions, closing, drained, closes := map[], map[], {}, false, false, 0;
    }

    method AcquireRole(key: string, asGuardian: bool) returns (admitted: bool)
      modifies this`perKey, this`guardian
      ensures admitted <==> C.Admits(old(View()), key, asGuardian)
      ensures View() == C.AcquireRole(old(View()), key, asGuardian)
    {
      if closing || C.Count(perKey, key) >= limit || (asGuardian && C.Count(guardian, key) >= limit - 1) {
        return false;
      }
      perKey := perKey[key := C.Count(perKey, key) + 1];
      if asGuardian {
        guardian := guardian[key := C.Count(guardian, key) + 1];
      }
      return true;
    }

    method ReleaseRole(key: string, asGuardian: bool)
      modifies this`perKey, this`guardian
      ensures View() == C.ReleaseRole(old(View()), key, asGuardian)
    {
      if asGuardian {
        if C.Count(guardian, key) <= 1 {
          guardian := guardian - {key};
        } else {
          guardian := guardian[key := C.Count(guardian, key) - 1];
        }
      }
      var remaining := C.Count(perKey, key) - 1;
      if remaining <= 0 {
        perKey := perKey - {key};
        return;
      }
      perKey := perKey[key := remaining];
    }

    /** The channel is closed at most once. */
    method CloseDrained()
      requires Valid()
      modifies this`drained, this`closes
      ensures Valid() && drained
    {
      if !drained {
        drained, closes := true, closes + 1;
      }
    }

    method Register(session: C.SessionId) returns (accepted: bool)
      modifies this`sessions
      ensures accepted <==> !closing
      ensures View() == C.Register(old(View()), session)
    {
      if closing {
        return false;
      }
      sessions := sessions + {session};
      return true;
    }

    method Unregister(session: C.SessionId)
      requires Valid()
      modifies this`sessions, this`drained, this`closes
      ensures Valid() && View() == C.Unregister(old(View()), session)
    {
      sessions := sessions - {session};
      if closing && |sessions| == 0 {
        CloseDrained();
      }
    }

    /** Lists the sessions to stop: each registered session once. */
    method Shutdown() returns (stopped: seq<C.SessionId>)
      requires Valid()
      modifies this`closing, this`drained, this`closes
      ensures Valid() && View() == C.Shutdown(old(View()))
      ensures multiset(stopped) == multiset(sessions)
    {
      closing := true;
      stopped := [];
      var rest := sessions;
      while rest != {}
        invariant rest <= sessions && multiset(stopped) == multiset(sessions - rest)
      {
        var session :| session in rest;
        assert sessions - (rest - {session}) == (sessions - rest) + {session};
        stopped, rest := stopped + [session], rest - {session};
      }
      assert sessions - rest == sessions;
      if |stopped| == 0 {
        assert multiset(sessions) == multiset{};
        assert forall s :: s in sessions ==> s in multiset(sessions);
        CloseDrained();
      } else {
        assert stopped[0] in multiset(stopped);
      }
    }
  }
}
