/**
 * `computeCallgraphForSymbol`: walks the callees of a symbol, then its
 * callers, recursively, writing one edge per call into a `GraphBuilder`.
 * Each walk threads a set of visited locations so that recursive and
 * mutually recursive functions are walked once.
 */
module CallgraphForSymbol {
  import opened Wrappers
  import opened Seqs
  import opened Oracle
  import opened Graph
  import opened Walks

  /**
   * `_recursivelyComputeOutgoingCallsForSymbol` (`Forward`) and
   * `_recursivelyComputeIncomingCallsForSymbol` (`Backward`) from `loc`.
   * `visited` is the shared `visited` set before the call and `visited'` the
   * same set after it. `universe` is any finite set of locations holding
   * `loc` and closed under the calls the walk follows; it bounds the walk.
   *
   * The walk adds only edges and nodes of the locations it marked visited,
   * each of which `prepare` resolved; nothing at all when cancellation was
   * requested on entry or `prepare` found nothing. When no poll of the token
   * saw cancellation, every newly visited location has all its edges, and
   * every call it follows led to a visited location or to one with nothing
   * to prepare.
   */
  method Walk(
    gb: GraphBuilder, s: Server, dir: Direction, filter: Option<string>, token: CancellationToken,
    loc: Location, visited: set<Location>, ghost universe: set<Location>)
    returns (visited': set<Location>)
    requires gb.Valid()
    requires loc in universe && visited <= universe && loc !in visited
    requires Closed(s, dir, filter, universe)
    modifies gb, token
    ensures gb.Valid()
    ensures visited' <= universe
    ensures token.polls > old(token.polls)
    ensures Grew(s, dir, filter, visited, old(gb.EdgeKeys()), old(gb.NodeKeys()), visited', gb.EdgeKeys(), gb.NodeKeys())
    ensures old(token.polls) >= token.cancelFrom || !Prepared(s, loc) ==>
      visited' == visited && gb.EdgeKeys() == old(gb.EdgeKeys()) && gb.NodeKeys() == old(gb.NodeKeys())
    ensures old(token.polls) < token.cancelFrom && Prepared(s, loc) ==> loc in visited'
    ensures token.NeverCancelled() ==> Complete(s, dir, filter, visited' - visited, gb.EdgeKeys(), visited')
    decreases |universe - visited|, 0
  {
    visited' := visited;
    GrewNothing(s, dir, filter, visited, gb.EdgeKeys(), gb.NodeKeys());
    var cancelled := token.IsCancellationRequested();
    if cancelled {
      return;
    }
    var items := s.prepare(loc);
    if !items.Value? || |items.value| == 0 {
      return;
    }
    GrewByVisit(s, dir, filter, visited, gb.EdgeKeys(), gb.NodeKeys(), loc);
    visited' := visited' + {loc};
    var nbs := Neighbours(s, dir, loc);
    var i := 0;
    while i < |nbs|
      invariant 0 <= i <= |nbs|
      invariant gb.Valid()
      invariant loc in visited' && visited' <= universe
      invariant token.polls > old(token.polls)
      invariant Grew(s, dir, filter, visited, old(gb.EdgeKeys()), old(gb.NodeKeys()), visited', gb.EdgeKeys(), gb.NodeKeys())
      invariant token.NeverCancelled() ==>
        Complete(s, dir, filter, visited' - visited - {loc}, gb.EdgeKeys(), visited') &&
        DoneUpTo(s, dir, filter, loc, i, gb.EdgeKeys(), visited')
    {
      ghost var v1, e1 := visited', gb.EdgeKeys();
      ProperSubsetSmaller(universe - visited', universe - visited);
      var stop;
      visited', stop := Follow(gb, s, dir, filter, token, loc, i, visited', visited, old(gb.EdgeKeys()), old(gb.NodeKeys()), universe);
      if stop {
        return;
      }
      if token.NeverCancelled() {
        LoopStep(s, dir, filter, visited, loc, i, v1, e1, visited', gb.EdgeKeys());
      }
      i := i + 1;
    }
    if token.NeverCancelled() {
      LoopDone(s, dir, filter, visited, loc, visited', gb.EdgeKeys());
    }
  }

  /**
   * One turn of a walk's loop over the neighbours of `loc`: stop when
   * cancellation is requested, skip a neighbour the filter rejects, else add
   * the edge between the item at `loc` and the neighbour and walk on from
   * the neighbour unless it was visited already. `v0`, `e0` and `n0` are the
   * visited locations, edge keys and node keys when the walk from `loc` began.
   */
  method Follow(
    gb: GraphBuilder, s: Server, dir: Direction, filter: Option<string>, token: CancellationToken,
    loc: Location, i: nat, visited: set<Location>,
    ghost v0: set<Location>, ghost e0: set<string>, ghost n0: set<string>, ghost universe: set<Location>)
    returns (visited': set<Location>, stop: bool)
    requires gb.Valid()
    requires Prepared(s, loc) && i < |Neighbours(s, dir, loc)|
    requires loc in visited - v0 && visited <= universe
    requires Closed(s, dir, filter, universe)
    requires Grew(s, dir, filter, v0, e0, n0, visited, gb.EdgeKeys(), gb.NodeKeys())
    modifies gb, token
    ensures gb.Valid()
    ensures visited <= visited' <= universe
    ensures token.polls > old(token.polls)
    ensures stop ==> !token.NeverCancelled()
    ensures old(token.polls) >= token.cancelFrom ==>
      stop && gb.EdgeKeys() == old(gb.EdgeKeys()) && gb.NodeKeys() == old(gb.NodeKeys())
    ensures Grew(s, dir, filter, v0, e0, n0, visited', gb.EdgeKeys(), gb.NodeKeys())
    ensures old(gb.EdgeKeys()) <= gb.EdgeKeys()
    ensures token.NeverCancelled() ==>
      Complete(s, dir, filter, visited' - visited, gb.EdgeKeys(), visited') &&
      var nb := Neighbours(s, dir, loc)[i];
      Passes(nb, filter) ==>
        EdgeKeyOf(dir, NodeAt(s, loc), nb) in gb.EdgeKeys() &&
        (ItemLocation(nb) in visited' || !Prepared(s, ItemLocation(nb)))
    decreases |universe - visited|, 1
  {
    visited', stop := visited, false;
    var cancelled := token.IsCancellationRequested();
    if cancelled {
      return visited, true;
    }
    var node := s.prepare(loc).value[0];
    var nb := Neighbours(s, dir, loc)[i];
    if !Passes(nb, filter) {
      return;
    }
    GrewByEdge(s, dir, filter, v0, e0, n0, visited, gb.EdgeKeys(), gb.NodeKeys(), loc, nb);
    // The caller's position is the start of its whole range, every other one the start of its name.
    AddWalkEdge(gb, dir, node, node.selectionStart, nb, if dir.Forward? then nb.selectionStart else nb.rangeStart);
    var next := ItemLocation(nb);
    if next !in visited {
      ghost var e1, n1 := gb.EdgeKeys(), gb.NodeKeys();
      visited' := Walk(gb, s, dir, filter, token, next, visited, universe);
      GrewTrans(s, dir, filter, v0, e0, n0, visited, e1, n1, visited', gb.EdgeKeys(), gb.NodeKeys());
    }
  }

  /**
   * `computeCallgraphForSymbol`: the callee walk from `loc`, then the caller
   * walk from `loc`, each starting from an empty visited set. `callees` and
   * `callers` are the locations each walk visited.
   */
  method ComputeCallgraphForSymbol(
    gb: GraphBuilder, s: Server, filter: Option<string>, token: CancellationToken,
    loc: Location, ghost universe: set<Location>)
    returns (ghost callees: set<Location>, ghost callers: set<Location>)
    requires gb.Valid()
    requires loc in universe
    requires Closed(s, Forward, filter, universe) && Closed(s, Backward, filter, universe)
    modifies gb, token
    ensures gb.Valid()
    ensures callees <= universe && callers <= universe
    ensures old(gb.EdgeKeys()) <= gb.EdgeKeys()
    ensures gb.EdgeKeys() <= old(gb.EdgeKeys()) +
      EdgesFrom(s, Forward, filter, callees) + EdgesFrom(s, Backward, filter, callers)
    ensures token.NeverCancelled() ==>
      (Prepared(s, loc) ==> loc in callees && loc in callers) &&
      Complete(s, Forward, filter, callees, gb.EdgeKeys(), callees) &&
      Complete(s, Backward, filter, callers, gb.EdgeKeys(), callers)
  {
    ghost var e0 := gb.EdgeKeys();
    var outVisited := Walk(gb, s, Forward, filter, token, loc, {}, universe);
    ghost var e1 := gb.EdgeKeys();
    var inVisited := Walk(gb, s, Backward, filter, token, loc, {}, universe);
    callees, callers := outVisited, inVisited;
    assert callees - {} == callees && callers - {} == callers;
    if token.NeverCancelled() {
      CompleteGrows(s, Forward, filter, callees, e1, callees, gb.EdgeKeys(), callees);
    }
  }
}
