/**
 * `computeTypeHierarchyFromSymbol`: walks the supertypes of a symbol, then
 * its subtypes, recursively, writing one edge per subtype relation into a
 * `GraphBuilder`. Unlike the call walks there is no visited set: a type
 * reached twice is walked twice, and only cancellation stops a walk around
 * a cycle.
 */
module TypeHierarchyForSymbol {
  import opened Wrappers
  import opened Seqs
  import opened Oracle
  import opened Graph
  import opened Walks

  /**
   * `_recursivelyComputeSupertypesForSymbol` (`Forward`) and
   * `_recursivelyComputeSubtypesForSymbol` (`Backward`) from `loc`.
   * `reached` is the set of locations the walk prepared and went on from.
   *
   * The walk adds only the edges and nodes of those locations; nothing when
   * cancellation was requested on entry or `prepare` found nothing. When no
   * poll saw cancellation, every reached location has all its edges, and every
   * neighbour it follows was reached too or has nothing to prepare.
   */
  method Walk(
    gb: GraphBuilder, s: Server, dir: Direction, filter: Option<string>, token: CancellationToken,
    loc: Location)
    returns (ghost reached: set<Location>)
    requires gb.Valid()
    modifies gb, token
    ensures gb.Valid()
    ensures token.polls > old(token.polls)
    ensures Grew(s, dir, filter, {}, old(gb.EdgeKeys()), old(gb.NodeKeys()), reached, gb.EdgeKeys(), gb.NodeKeys())
    ensures old(token.polls) >= token.cancelFrom || !Prepared(s, loc) ==>
      reached == {} && gb.EdgeKeys() == old(gb.EdgeKeys()) && gb.NodeKeys() == old(gb.NodeKeys())
    ensures old(token.polls) < token.cancelFrom && Prepared(s, loc) ==> loc in reached
    ensures token.NeverCancelled() ==> Complete(s, dir, filter, reached, gb.EdgeKeys(), reached)
    ensures OwnNeighbour(s, dir, filter, loc) ==> !token.NeverCancelled()
    decreases token.PollsLeft()
  {
    reached := {};
    GrewNothing(s, dir, filter, {}, gb.EdgeKeys(), gb.NodeKeys());
    var cancelled := token.IsCancellationRequested();
    if cancelled {
      return;
    }
    var items := s.prepare(loc);
    if !items.Value? || |items.value| == 0 {
      return;
    }
    GrewByVisit(s, dir, filter, {}, gb.EdgeKeys(), gb.NodeKeys(), loc);
    reached := {loc};
    var nbs := Neighbours(s, dir, loc);
    var i := 0;
    while i < |nbs|
      invariant 0 <= i <= |nbs|
      invariant gb.Valid()
      invariant loc in reached
      invariant token.polls > old(token.polls)
      invariant Grew(s, dir, filter, {}, old(gb.EdgeKeys()), old(gb.NodeKeys()), reached, gb.EdgeKeys(), gb.NodeKeys())
      invariant token.NeverCancelled() ==>
        Complete(s, dir, filter, reached - {} - {loc}, gb.EdgeKeys(), reached) &&
        DoneUpTo(s, dir, filter, loc, i, gb.EdgeKeys(), reached)
      invariant (exists j :: 0 <= j < i && Passes(nbs[j], filter) && ItemLocation(nbs[j]) == loc) ==>
        !token.NeverCancelled()
    {
      ghost var r1, e1 := reached, gb.EdgeKeys();
      ghost var selfSeen := exists j :: 0 <= j < i && Passes(nbs[j], filter) && ItemLocation(nbs[j]) == loc;
      var stop;
      reached, stop := Follow(gb, s, dir, filter, token, loc, i, reached, old(gb.EdgeKeys()), old(gb.NodeKeys()));
      if stop {
        return;
      }
      SelfSeenStep(nbs, filter, loc, i, selfSeen || (Passes(nbs[i], filter) && ItemLocation(nbs[i]) == loc));
      if token.NeverCancelled() {
        LoopStep(s, dir, filter, {}, loc, i, r1, e1, reached, gb.EdgeKeys());
      }
      i := i + 1;
    }
    if token.NeverCancelled() {
      LoopDone(s, dir, filter, {}, loc, reached, gb.EdgeKeys());
    }
  }

  /** A neighbour at `loc` among the first `i + 1` is one among the first `i` or the `i`-th. */
  lemma SelfSeenStep(nbs: seq<Item>, filter: Option<string>, loc: Location, i: nat, seen: bool)
    requires i < |nbs|
    requires seen == ((exists j :: 0 <= j < i && Passes(nbs[j], filter) && ItemLocation(nbs[j]) == loc) ||
      (Passes(nbs[i], filter) && ItemLocation(nbs[i]) == loc))
    ensures seen == exists j :: 0 <= j < i + 1 && Passes(nbs[j], filter) && ItemLocation(nbs[j]) == loc
  {
    if exists j :: 0 <= j < i + 1 && Passes(nbs[j], filter) && ItemLocation(nbs[j]) == loc {
      var j :| 0 <= j < i + 1 && Passes(nbs[j], filter) && ItemLocation(nbs[j]) == loc;
      if j < i {
        assert exists j :: 0 <= j < i && Passes(nbs[j], filter) && ItemLocation(nbs[j]) == loc;
      }
    }
  }

  /**
   * One turn of a walk's loop over the neighbours of `loc`: stop when
   * cancellation is requested, skip a neighbour the filter rejects, else add
   * the edge between the type at `loc` and the neighbour and walk on from the
   * neighbour. `e0` and `n0` are the edge and node keys when the whole walk
   * began.
   */
  method Follow(
    gb: GraphBuilder, s: Server, dir: Direction, filter: Option<string>, token: CancellationToken,
    loc: Location, i: nat, ghost reached: set<Location>, ghost e0: set<string>, ghost n0: set<string>)
    returns (ghost reached': set<Location>, stop: bool)
    requires gb.Valid()
    requires Prepared(s, loc) && i < |Neighbours(s, dir, loc)|
    requires loc in reached
    requires Grew(s, dir, filter, {}, e0, n0, reached, gb.EdgeKeys(), gb.NodeKeys())
    modifies gb, token
    ensures gb.Valid()
    ensures reached <= reached'
    ensures token.polls > old(token.polls)
    ensures stop ==> !token.NeverCancelled()
    ensures old(token.polls) >= token.cancelFrom ==>
      stop && gb.EdgeKeys() == old(gb.EdgeKeys()) && gb.NodeKeys() == old(gb.NodeKeys())
    ensures Grew(s, dir, filter, {}, e0, n0, reached', gb.EdgeKeys(), gb.NodeKeys())
    ensures old(gb.EdgeKeys()) <= gb.EdgeKeys()
    ensures token.NeverCancelled() ==>
      Complete(s, dir, filter, reached' - reached, gb.EdgeKeys(), reached') &&
      var nb := Neighbours(s, dir, loc)[i];
      Passes(nb, filter) ==>
        EdgeKeyOf(dir, NodeAt(s, loc), nb) in gb.EdgeKeys() &&
        (ItemLocation(nb) in reached' || !Prepared(s, ItemLocation(nb)))
    ensures var nb := Neighbours(s, dir, loc)[i];
      Passes(nb, filter) && ItemLocation(nb) == loc ==> !token.NeverCancelled()
    decreases token.PollsLeft()
  {
    reached', stop := reached, false;
    var cancelled := token.IsCancellationRequested();
    if cancelled {
      return reached, true;
    }
    var node := s.prepare(loc).value[0];
    var nb := Neighbours(s, dir, loc)[i];
    if !Passes(nb, filter) {
      return;
    }
    GrewByEdge(s, dir, filter, {}, e0, n0, reached, gb.EdgeKeys(), gb.NodeKeys(), loc, nb);
    AddWalkEdge(gb, dir, node, node.selectionStart, nb, nb.selectionStart);
    ghost var e1, n1 := gb.EdgeKeys(), gb.NodeKeys();
    ghost var more := Walk(gb, s, dir, filter, token, ItemLocation(nb));
    reached' := reached + more;
    GrewUnion(s, dir, filter, e0, n0, reached, e1, n1, more, gb.EdgeKeys(), gb.NodeKeys());
    if token.NeverCancelled() {
      CompleteGrows(s, dir, filter, more, gb.EdgeKeys(), more, gb.EdgeKeys(), reached');
      assert reached' - reached <= more;
    }
  }

  /**
   * The type walk with the visited set the call walks thread, as the
   * recursion needs once a type can be its own supertype: a location is
   * walked at most once, so the walk ends on any finite hierarchy closed
   * under the relation (`universe`) whatever the token does, and a type
   * whose neighbours all lie at walked locations costs one poll for itself
   * and one per neighbour, so a type that is its own supertype no longer
   * keeps the walk going until cancellation. Positions are recorded as in
   * `Walk`.
   */
  method WalkVisited(
    gb: GraphBuilder, s: Server, dir: Direction, filter: Option<string>, token: CancellationToken,
    loc: Location, visited: set<Location>, ghost universe: set<Location>)
    returns (visited': set<Location>)
    requires gb.Valid()
    requires loc in universe && visited <= universe && loc !in visited
    requires Closed(s, dir, filter, universe)
    modifies gb, token
    ensures gb.Valid()
    ensures visited' <= universe
    ensures token.polls > old(token.polls)
    ensures Grew(s, dir, filter, visited, old(gb.EdgeKeys()), old(gb.NodeKeys()), visited', gb.EdgeKeys(), gb.NodeKeys())
    ensures old(token.polls) >= token.cancelFrom || !Prepared(s, loc) ==>
      visited' == visited && gb.EdgeKeys() == old(gb.EdgeKeys()) && gb.NodeKeys() == old(gb.NodeKeys())
    ensures old(token.polls) < token.cancelFrom && Prepared(s, loc) ==> loc in visited'
    ensures token.NeverCancelled() ==> Complete(s, dir, filter, visited' - visited, gb.EdgeKeys(), visited')
    ensures (forall it :: it in Neighbours(s, dir, loc) ==> ItemLocation(it) in visited + {loc}) ==>
      token.polls <= old(token.polls) + 1 + |Neighbours(s, dir, loc)|
    decreases |universe - visited|, 0
  {
    visited' := visited;
    GrewNothing(s, dir, filter, visited, gb.EdgeKeys(), gb.NodeKeys());
    var cancelled := token.IsCancellationRequested();
    if cancelled {
      return;
    }
    var items := s.prepare(loc);
    if !items.Value? || |items.value| == 0 {
      return;
    }
    GrewByVisit(s, dir, filter, visited, gb.EdgeKeys(), gb.NodeKeys(), loc);
    visited' := visited' + {loc};
    var nbs := Neighbours(s, dir, loc);
    ghost var back := forall it :: it in nbs ==> ItemLocation(it) in visited + {loc};
    var i := 0;
    while i < |nbs|
      invariant 0 <= i <= |nbs|
      invariant gb.Valid()
      invariant loc in visited' && visited + {loc} <= visited' <= universe
      invariant token.polls > old(token.polls)
      invariant back ==> token.polls <= old(token.polls) + 1 + i
      invariant Grew(s, dir, filter, visited, old(gb.EdgeKeys()), old(gb.NodeKeys()), visited', gb.EdgeKeys(), gb.NodeKeys())
      invariant token.NeverCancelled() ==>
        Complete(s, dir, filter, visited' - visited - {loc}, gb.EdgeKeys(), visited') &&
        DoneUpTo(s, dir, filter, loc, i, gb.EdgeKeys(), visited')
    {
      ghost var v1, e1 := visited', gb.EdgeKeys();
      assert back ==> ItemLocation(nbs[i]) in visited';
      ProperSubsetSmaller(universe - visited', universe - visited);
      var stop;
      visited', stop := FollowVisited(gb, s, dir, filter, token, loc, i, visited', visited, old(gb.EdgeKeys()), old(gb.NodeKeys()), universe);
      if stop {
        return;
      }
      if token.NeverCancelled() {
        LoopStep(s, dir, filter, visited, loc, i, v1, e1, visited', gb.EdgeKeys());
      }
      i := i + 1;
    }
    if token.NeverCancelled() {
      LoopDone(s, dir, filter, visited, loc, visited', gb.EdgeKeys());
    }
  }

  /**
   * One turn of the loop of `WalkVisited`: as `Follow`, except that a
   * neighbour at a visited location gets its edge but is not walked again,
   * so it costs one poll.
   */
  method FollowVisited(
    gb: GraphBuilder, s: Server, dir: Direction, filter: Option<string>, token: CancellationToken,
    loc: Location, i: nat, visited: set<Location>,
    ghost v0: set<Location>, ghost e0: set<string>, ghost n0: set<string>, ghost universe: set<Location>)
    returns (visited': set<Location>, stop: bool)
    requires gb.Valid()
    requires Prepared(s, loc) && i < |Neighbours(s, dir, loc)|
    requires loc in visited - v0 && visited <= universe
    requires Closed(s, dir, filter, universe)
    requires Grew(s, dir, filter, v0, e0, n0, visited, gb.EdgeKeys(), gb.NodeKeys())
    modifies gb, token
    ensures gb.Valid()
    ensures visited <= visited' <= universe
    ensures token.polls > old(token.polls)
    ensures ItemLocation(Neighbours(s, dir, loc)[i]) in visited ==> token.polls == old(token.polls) + 1
    ensures stop ==> !token.NeverCancelled()
    ensures old(token.polls) >= token.cancelFrom ==>
      stop && gb.EdgeKeys() == old(gb.EdgeKeys()) && gb.NodeKeys() == old(gb.NodeKeys())
    ensures Grew(s, dir, filter, v0, e0, n0, visited', gb.EdgeKeys(), gb.NodeKeys())
    ensures old(gb.EdgeKeys()) <= gb.EdgeKeys()
    ensures token.NeverCancelled() ==>
      Complete(s, dir, filter, visited' - visited, gb.EdgeKeys(), visited') &&
      var nb := Neighbours(s, dir, loc)[i];
      Passes(nb, filter) ==>
        EdgeKeyOf(dir, NodeAt(s, loc), nb) in gb.EdgeKeys() &&
        (ItemLocation(nb) in visited' || !Prepared(s, ItemLocation(nb)))
    decreases |universe - visited|, 1
  {
    visited', stop := visited, false;
    var cancelled := token.IsCancellationRequested();
    if cancelled {
      return visited, true;
    }
    var node := s.prepare(loc).value[0];
    var nb := Neighbours(s, dir, loc)[i];
    if !Passes(nb, filter) {
      return;
    }
    GrewByEdge(s, dir, filter, v0, e0, n0, visited, gb.EdgeKeys(), gb.NodeKeys(), loc, nb);
    AddWalkEdge(gb, dir, node, node.selectionStart, nb, nb.selectionStart);
    var next := ItemLocation(nb);
    if next !in visited {
      ghost var e1, n1 := gb.EdgeKeys(), gb.NodeKeys();
      visited' := WalkVisited(gb, s, dir, filter, token, next, visited, universe);
      GrewTrans(s, dir, filter, v0, e0, n0, visited, e1, n1, visited', gb.EdgeKeys(), gb.NodeKeys());
    }
  }

  /**
   * A type that is its own supertype, and nothing else's: `prepare` finds
   * it at `l`, and its supertype query lists the type itself.
   */
  function SelfSupertype(l: Location): Server {
    var it := Item("T", l.file, l.pos, l.pos);
    Server(_ => Value([it]), _ => Value([it]), _ => Value([]))
  }

  /** On that hierarchy the type at `l` is its own only supertype. */
  lemma SelfSupertypeIsOwnNeighbour(l: Location)
    ensures Neighbours(SelfSupertype(l), Forward, l) == [Item("T", l.file, l.pos, l.pos)]
    ensures OwnNeighbour(SelfSupertype(l), Forward, None, l)
    ensures Closed(SelfSupertype(l), Forward, None, {l})
  {
    var s := SelfSupertype(l);
    assert ItemLocation(Neighbours(s, Forward, l)[0]) == l;
  }

  /**
   * The supertype walk from a type that is its own supertype, with a token
   * that requests cancellation from its `budget`-th poll on: as written it
   * returns only once a poll has seen cancellation, whatever the budget;
   * with a visited set, a budget of two polls suffices for it to return
   * with no poll having seen cancellation.
   */
  method SelfSupertypeWalks(l: Location, budget: nat) returns (asWrittenUncancelled: bool, visitedUncancelled: bool)
    ensures !asWrittenUncancelled
    ensures budget >= 2 ==> visitedUncancelled
  {
    var s := SelfSupertype(l);
    SelfSupertypeIsOwnNeighbour(l);
    var gb := new GraphBuilder();
    var token := new CancellationToken(budget);
    ghost var reached := Walk(gb, s, Forward, None, token, l);
    asWrittenUncancelled := token.polls <= token.cancelFrom;
    var gb' := new GraphBuilder();
    var token' := new CancellationToken(budget);
    var visited := WalkVisited(gb', s, Forward, None, token', l, {}, {l});
    visitedUncancelled := token'.polls <= token'.cancelFrom;
  }

  /**
   * `computeTypeHierarchyFromSymbol`: the supertype walk from `loc`, then the
   * subtype walk from `loc`. `supertypes` and `subtypes` are the locations
   * each walk reached.
   */
  method ComputeTypeHierarchyForSymbol(
    gb: GraphBuilder, s: Server, filter: Option<string>, token: CancellationToken, loc: Location)
    returns (ghost supertypes: set<Location>, ghost subtypes: set<Location>)
    requires gb.Valid()
    modifies gb, token
    ensures gb.Valid()
    ensures old(gb.EdgeKeys()) <= gb.EdgeKeys()
    ensures gb.EdgeKeys() <= old(gb.EdgeKeys()) +
      EdgesFrom(s, Forward, filter, supertypes) + EdgesFrom(s, Backward, filter, subtypes)
    ensures token.NeverCancelled() ==>
      (Prepared(s, loc) ==> loc in supertypes && loc in subtypes) &&
      Complete(s, Forward, filter, supertypes, gb.EdgeKeys(), supertypes) &&
      Complete(s, Backward, filter, subtypes, gb.EdgeKeys(), subtypes)
  {
    ghost var e1 := gb.EdgeKeys();
    supertypes := Walk(gb, s, Forward, filter, token, loc);
    ghost var e2 := gb.EdgeKeys();
    subtypes := Walk(gb, s, Backward, filter, token, loc);
    assert supertypes - {} == supertypes && subtypes - {} == subtypes;
    if token.NeverCancelled() {
      CompleteGrows(s, Forward, filter, supertypes, e2, supertypes, gb.EdgeKeys(), supertypes);
    }
  }
}
