/** Reachability in a graph given by its first nodes and a successor function, and the worklist that explores it. */
module Reachability {

  /** A chain of successors from a first node. */
  ghost predicate IsChain<T>(start: seq<T>, succ: T -> seq<T>, chain: seq<T>) {
    && chain != [] && chain[0] in start
    && forall i :: 0 <= i < |chain| - 1 ==> Follows(succ, chain, i)
  }

  ghost predicate Follows<T>(succ: T -> seq<T>, chain: seq<T>, i: nat)
    requires i < |chain| - 1
  {
    chain[i + 1] in succ(chain[i])
  }

  ghost predicate Reachable<T(!new)>(start: seq<T>, succ: T -> seq<T>, r: T) {
    exists chain :: IsChain(start, succ, chain) && chain[|chain| - 1] == r
  }

  lemma ReachableStart<T(!new)>(start: seq<T>, succ: T -> seq<T>, r: T)
    requires r in start
    ensures Reachable(start, succ, r)
  {
    assert IsChain(start, succ, [r]);
  }

  lemma ReachableNext<T(!new)>(start: seq<T>, succ: T -> seq<T>, r: T, q: T)
    requires Reachable(start, succ, r) && q in succ(r)
    ensures Reachable(start, succ, q)
  {
    var chain :| IsChain(start, succ, chain) && chain[|chain| - 1] == r;
    var longer := chain + [q];
    forall i | 0 <= i < |longer| - 1 ensures Follows(succ, longer, i) {
      if i < |chain| - 1 { assert Follows(succ, chain, i); }
    }
    assert IsChain(start, succ, longer);
  }

  /** Nothing found has a successor that is neither found nor pending. */
  ghost predicate Closed<T(!new)>(start: seq<T>, succ: T -> seq<T>, found: set<T>, pending: seq<T>) {
    && (forall r :: r in start ==> r in found || r in pending)
    && (forall r, q :: r in found && q in succ(r) ==> q in found || q in pending)
  }

  lemma {:induction false} ClosedHoldsChain<T(!new)>(
      start: seq<T>, succ: T -> seq<T>, found: set<T>, chain: seq<T>, i: nat)
    requires Closed(start, succ, found, []) && IsChain(start, succ, chain) && i < |chain|
    ensures chain[i] in found
  {
    if i > 0 {
      ClosedHoldsChain(start, succ, found, chain, i - 1);
      assert Follows(succ, chain, i - 1);
    }
  }

  /** Graphs that agree on what is reachable reach the same nodes. */
  lemma SameGraph<T(!new)>(start: seq<T>, succ: T -> seq<T>, succ': T -> seq<T>, chain: seq<T>)
    requires IsChain(start, succ, chain)
    requires forall r :: Reachable(start, succ, r) ==> succ'(r) == succ(r)
    ensures IsChain(start, succ', chain)
  {
    forall i | 0 <= i < |chain| - 1 ensures Follows(succ', chain, i) {
      assert Follows(succ, chain, i);
      ChainReaches(start, succ, chain, i);
    }
  }

  lemma ChainReaches<T(!new)>(start: seq<T>, succ: T -> seq<T>, chain: seq<T>, i: nat)
    requires IsChain(start, succ, chain) && i < |chain|
    ensures Reachable(start, succ, chain[i])
  {
    var prefix := chain[..i + 1];
    forall k | 0 <= k < |prefix| - 1 ensures Follows(succ, prefix, k) { assert Follows(succ, chain, k); }
    assert IsChain(start, succ, prefix);
  }

  /** A chain of a graph with fewer successors is a chain of the whole graph. */
  lemma SubGraph<T(!new)>(start: seq<T>, succ: T -> seq<T>, succ': T -> seq<T>, chain: seq<T>)
    requires IsChain(start, succ, chain)
    requires forall r, q :: q in succ(r) ==> q in succ'(r)
    ensures IsChain(start, succ', chain)
  {
    forall i | 0 <= i < |chain| - 1 ensures Follows(succ', chain, i) { assert Follows(succ, chain, i); }
  }

  lemma SameChain<T(!new)>(start: seq<T>, succ: T -> seq<T>, start': seq<T>, succ': T -> seq<T>, chain: seq<T>)
    requires IsChain(start, succ, chain)
    requires (forall r :: r in start ==> r in start') && (forall r, q :: q in succ(r) ==> q in succ'(r))
    ensures IsChain(start', succ', chain)
  {
    forall i | 0 <= i < |chain| - 1 ensures Follows(succ', chain, i) { assert Follows(succ, chain, i); }
  }

  /** Only membership counts, not the order of first nodes and successors. */
  lemma SameMembers<T(!new)>(start: seq<T>, succ: T -> seq<T>, start': seq<T>, succ': T -> seq<T>, r: T)
    requires (forall q :: q in start <==> q in start') && (forall q, p :: p in succ(q) <==> p in succ'(q))
    ensures Reachable(start, succ, r) <==> Reachable(start', succ', r)
  {
    if Reachable(start, succ, r) {
      var chain :| IsChain(start, succ, chain) && chain[|chain| - 1] == r;
      SameChain(start, succ, start', succ', chain);
    }
    if Reachable(start', succ', r) {
      var chain :| IsChain(start', succ', chain) && chain[|chain| - 1] == r;
      SameChain(start', succ', start, succ, chain);
    }
  }

  /** If a graph keeps the successors of everything reachable and adds none, it reaches the same nodes. */
  lemma ReachesSame<T(!new)>(start: seq<T>, succ: T -> seq<T>, succ': T -> seq<T>, r: T)
    requires forall q :: Reachable(start, succ, q) ==> succ'(q) == succ(q)
    requires forall q, p :: p in succ'(q) ==> p in succ(q)
    ensures Reachable(start, succ', r) <==> Reachable(start, succ, r)
  {
    if Reachable(start, succ, r) {
      var chain :| IsChain(start, succ, chain) && chain[|chain| - 1] == r;
      SameGraph(start, succ, succ', chain);
    }
    if Reachable(start, succ', r) {
      var chain :| IsChain(start, succ', chain) && chain[|chain| - 1] == r;
      SubGraph(start, succ', succ, chain);
    }
  }

  lemma ReachableInUniverse<T(!new)>(start: seq<T>, succ: T -> seq<T>, universe: set<T>, r: T)
    requires InUniverse(start, succ, universe) && Reachable(start, succ, r)
    ensures r in universe
  {
    var chain :| IsChain(start, succ, chain) && chain[|chain| - 1] == r;
    if |chain| > 1 { assert Follows(succ, chain, |chain| - 2); }
  }

  lemma SplitLast<T>(s: seq<T>)
    requires s != []
    ensures s == s[..|s| - 1] + [s[|s| - 1]]
  {
  }

  lemma SetShrinks<T>(universe: set<T>, found: set<T>, r: T)
    requires r in universe && r !in found
    ensures |universe - (found + {r})| < |universe - found|
  {
    assert universe - found == (universe - (found + {r})) + {r};
  }

  ghost predicate InUniverse<T(!new)>(start: seq<T>, succ: T -> seq<T>, universe: set<T>) {
    && (forall r :: r in start ==> r in universe)
    && forall r, q :: q in succ(r) ==> q in universe
  }

  /** What is found or pending is reachable and lies in the universe. */
  ghost predicate Sound<T(!new)>(start: seq<T>, succ: T -> seq<T>, universe: set<T>, found: set<T>, pending: seq<T>) {
    forall r :: r in found || r in pending ==> r in universe && Reachable(start, succ, r)
  }

  lemma Popped<T(!new)>(start: seq<T>, succ: T -> seq<T>, universe: set<T>, found: set<T>, pending: seq<T>, r: T)
    requires InUniverse(start, succ, universe)
    requires Sound(start, succ, universe, found, pending + [r]) && Closed(start, succ, found, pending + [r])
    ensures r in universe
    ensures r in found ==> Sound(start, succ, universe, found, pending) && Closed(start, succ, found, pending)
    ensures Sound(start, succ, universe, found + {r}, pending + succ(r))
    ensures Closed(start, succ, found + {r}, pending + succ(r))
  {
    assert forall q :: q in pending + [r] <==> q in pending || q == r;
    forall q | q in succ(r) ensures Reachable(start, succ, q) { ReachableNext(start, succ, r, q); }
  }

  lemma FoundAll<T(!new)>(start: seq<T>, succ: T -> seq<T>, universe: set<T>, found: set<T>)
    requires Sound(start, succ, universe, found, []) && Closed(start, succ, found, [])
    ensures forall r :: r in found <==> Reachable(start, succ, r)
  {
    forall r | Reachable(start, succ, r) ensures r in found {
      var chain :| IsChain(start, succ, chain) && chain[|chain| - 1] == r;
      ClosedHoldsChain(start, succ, found, chain, |chain| - 1);
    }
  }

  lemma Started<T(!new)>(start: seq<T>, succ: T -> seq<T>, universe: set<T>)
    requires InUniverse(start, succ, universe)
    ensures Sound(start, succ, universe, {}, start) && Closed(start, succ, {}, start)
  {
    forall r | r in start ensures Reachable(start, succ, r) { ReachableStart(start, succ, r); }
  }

  /** The worklist finds exactly the reachable nodes, in any finite graph. It terminates because each pass either
      finds a new node or shortens the list. */
  method Explore<T(==,!new)>(start: seq<T>, succ: T -> seq<T>, ghost universe: set<T>) returns (found: set<T>)
    requires InUniverse(start, succ, universe)
    ensures forall r :: r in found <==> Reachable(start, succ, r)
  {
    found := {};
    var pending := start;
    Started(start, succ, universe);
    while |pending| > 0
      invariant Sound(start, succ, universe, found, pending) && Closed(start, succ, found, pending)
      decreases |universe - found|, |pending|
    {
      var r := pending[|pending| - 1];
      SplitLast(pending);
      pending := pending[..|pending| - 1];
      Popped(start, succ, universe, found, pending, r);
      if r !in found {
        SetShrinks(universe, found, r);
        found := found + {r};
        pending := pending + succ(r);
      }
    }
    assert pending == [];
    FoundAll(start, succ, universe, found);
  }
}
