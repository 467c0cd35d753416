/**
 * What the two recursive walks (over call hierarchies and over type
 * hierarchies) share: the language server they query, the edges and nodes
 * one location contributes, and what it means for a set of locations to
 * have been walked completely.
 */
module Walks {
  import opened Wrappers
  import opened Oracle
  import opened Graph

  /**
   * `Forward` walks add an edge from the current item to each neighbour
   * (outgoing calls, supertypes); `Backward` walks add one from each
   * neighbour to the current item (incoming calls, subtypes).
   */
  datatype Direction = Forward | Backward

  /**
   * The language-server queries of one hierarchy: `prepare` finds the items
   * at a location, `forward` and `backward` list the neighbours of the item
   * there. Each query may answer, answer `undefined`, or throw.
   */
  datatype Server = Server(
    prepare: Location -> Answer<seq<Item>>,
    forward: Location -> Answer<seq<Item>>,
    backward: Location -> Answer<seq<Item>>)

  /** `prepare` found at least one item at `l`, so the walk goes on from there. */
  predicate Prepared(s: Server, l: Location) {
    s.prepare(l).Value? && |s.prepare(l).value| > 0
  }

  /** The item the walk uses at `l`: the first one `prepare` found. */
  function NodeAt(s: Server, l: Location): Item
    requires Prepared(s, l)
  {
    s.prepare(l).value[0]
  }

  /** The neighbour query of a walk. */
  function Query(s: Server, dir: Direction, l: Location): Answer<seq<Item>> {
    if dir.Forward? then s.forward(l) else s.backward(l)
  }

  /** The neighbours the loop runs over: none when the query threw, none when it answered `undefined`. */
  function Neighbours(s: Server, dir: Direction, l: Location): seq<Item> {
    var a := Query(s, dir, l);
    if a.Threw? then [] else ListOr(a)
  }

  /** `filterByPathFn(item.uri, filterByPath)` */
  predicate Passes(it: Item, filter: Option<string>) {
    FilterByPath(it.file, filter)
  }

  /**
   * The location is prepared and one of the neighbours its query lists,
   * kept by the filter, lies at the location itself: a hierarchy in which
   * a type is its own supertype (or subtype).
   */
  predicate OwnNeighbour(s: Server, dir: Direction, filter: Option<string>, l: Location) {
    var nbs := Neighbours(s, dir, l);
    Prepared(s, l) && exists j :: 0 <= j < |nbs| && Passes(nbs[j], filter) && ItemLocation(nbs[j]) == l
  }

  /** The key of the node an item becomes: `fsPath|name`. */
  function ItemKey(it: Item): string {
    NodeKey(it.file, it.name)
  }

  /** The key of the edge between the current item and a neighbour, in the walk's direction. */
  function EdgeKeyOf(dir: Direction, node: Item, nb: Item): string {
    if dir.Forward? then EdgeKey(ItemKey(node), ItemKey(nb)) else EdgeKey(ItemKey(nb), ItemKey(node))
  }

  /** `builder.addEdge` between two symbol nodes, recorded at the positions `srcAt` and `dstAt`. */
  method AddSymbolEdge(gb: GraphBuilder, src: Item, srcAt: Pos, dst: Item, dstAt: Pos)
    requires gb.Valid()
    modifies gb
    ensures gb.Valid()
    ensures gb.EdgeKeys() == old(gb.EdgeKeys()) + {EdgeKey(ItemKey(src), ItemKey(dst))}
    ensures gb.NodeKeys() == old(gb.NodeKeys()) + {ItemKey(src), ItemKey(dst)}
  {
    var edge := gb.AddEdge(
      SymbolNode, src.file, src.name, srcAt.line, srcAt.character,
      SymbolNode, dst.file, dst.name, dstAt.line, dstAt.character);
  }

  /**
   * The edge between the current item `node` and a neighbour `nb`: from
   * `node` to `nb` walking forward, from `nb` to `node` walking backward.
   */
  method AddWalkEdge(gb: GraphBuilder, dir: Direction, node: Item, nodeAt: Pos, nb: Item, nbAt: Pos)
    requires gb.Valid()
    modifies gb
    ensures gb.Valid()
    ensures gb.EdgeKeys() == old(gb.EdgeKeys()) + {EdgeKeyOf(dir, node, nb)}
    ensures gb.NodeKeys() == old(gb.NodeKeys()) + {ItemKey(node), ItemKey(nb)}
  {
    if dir.Forward? {
      AddSymbolEdge(gb, node, nodeAt, nb, nbAt);
    } else {
      AddSymbolEdge(gb, nb, nbAt, node, nodeAt);
    }
  }

  /** The edges walking the locations `ls` adds: one per neighbour that passes the filter. */
  ghost function EdgesFrom(s: Server, dir: Direction, filter: Option<string>, ls: set<Location>): set<string> {
    set l, it | l in ls && Prepared(s, l) && it in Neighbours(s, dir, l) && Passes(it, filter) ::
      EdgeKeyOf(dir, NodeAt(s, l), it)
  }

  /** The nodes walking the locations `ls` may add: their items and the neighbours that pass the filter. */
  ghost function NodesFrom(s: Server, dir: Direction, filter: Option<string>, ls: set<Location>): set<string> {
    (set l | l in ls && Prepared(s, l) :: ItemKey(NodeAt(s, l))) +
    (set l, it | l in ls && Prepared(s, l) && it in Neighbours(s, dir, l) && Passes(it, filter) :: ItemKey(it))
  }

  /**
   * The walk only ever moves to the neighbours it follows: every neighbour
   * passing the filter of a location in `universe` is itself in `universe`.
   */
  ghost predicate Closed(s: Server, dir: Direction, filter: Option<string>, universe: set<Location>) {
    forall l, it :: l in universe && it in Neighbours(s, dir, l) && Passes(it, filter) ==> ItemLocation(it) in universe
  }

  /**
   * What a walk did so far, from the state (`v0`, `e0`, `n0`) to the state
   * (`v`, `e`, `n`) of walked locations, edge keys and node keys: it walked
   * only locations that could be prepared, and it added only the edges and
   * nodes those locations contribute.
   */
  ghost predicate Grew(
    s: Server, dir: Direction, filter: Option<string>,
    v0: set<Location>, e0: set<string>, n0: set<string>,
    v: set<Location>, e: set<string>, n: set<string>)
  {
    v0 <= v && (forall l :: l in v - v0 ==> Prepared(s, l)) &&
    e0 <= e <= e0 + EdgesFrom(s, dir, filter, v - v0) &&
    n0 <= n <= n0 + NodesFrom(s, dir, filter, v - v0)
  }

  /**
   * Each location of `ls` has the edge to every neighbour that passes the
   * filter in `e`, and each such neighbour was walked or has nothing to
   * prepare.
   */
  ghost predicate Complete(
    s: Server, dir: Direction, filter: Option<string>, ls: set<Location>, e: set<string>, walked: set<Location>)
  {
    forall l, it :: l in ls && Prepared(s, l) && it in Neighbours(s, dir, l) && Passes(it, filter) ==>
      EdgeKeyOf(dir, NodeAt(s, l), it) in e && (ItemLocation(it) in walked || !Prepared(s, ItemLocation(it)))
  }

  /** Nothing walked, nothing added. */
  lemma GrewNothing(
    s: Server, dir: Direction, filter: Option<string>, v: set<Location>, e: set<string>, n: set<string>)
    ensures Grew(s, dir, filter, v, e, n, v, e, n)
  {
  }

  /** Two stretches of a walk make one. */
  lemma GrewTrans(
    s: Server, dir: Direction, filter: Option<string>,
    v0: set<Location>, e0: set<string>, n0: set<string>,
    v1: set<Location>, e1: set<string>, n1: set<string>,
    v2: set<Location>, e2: set<string>, n2: set<string>)
    requires Grew(s, dir, filter, v0, e0, n0, v1, e1, n1)
    requires Grew(s, dir, filter, v1, e1, n1, v2, e2, n2)
    ensures Grew(s, dir, filter, v0, e0, n0, v2, e2, n2)
  {
    FromMono(s, dir, filter, v1 - v0, v2 - v0);
    FromMono(s, dir, filter, v2 - v1, v2 - v0);
  }

  /**
   * Two walks without a visited set, one after the other, make one walk that
   * reached what either reached.
   */
  lemma GrewUnion(
    s: Server, dir: Direction, filter: Option<string>, e0: set<string>, n0: set<string>,
    a: set<Location>, e1: set<string>, n1: set<string>,
    b: set<Location>, e2: set<string>, n2: set<string>)
    requires Grew(s, dir, filter, {}, e0, n0, a, e1, n1)
    requires Grew(s, dir, filter, {}, e1, n1, b, e2, n2)
    ensures Grew(s, dir, filter, {}, e0, n0, a + b, e2, n2)
  {
    assert a - {} == a && b - {} == b && a + b - {} == a + b;
    FromMono(s, dir, filter, a, a + b);
    FromMono(s, dir, filter, b, a + b);
  }

  /** Adding the edge from a walked location to one of its neighbours that passes the filter stays within the walk. */
  lemma GrewByEdge(
    s: Server, dir: Direction, filter: Option<string>,
    v0: set<Location>, e0: set<string>, n0: set<string>,
    v: set<Location>, e: set<string>, n: set<string>,
    l: Location, nb: Item)
    requires Grew(s, dir, filter, v0, e0, n0, v, e, n)
    requires l in v - v0 && nb in Neighbours(s, dir, l) && Passes(nb, filter)
    ensures Prepared(s, l)
    ensures Grew(s, dir, filter, v0, e0, n0, v, e + {EdgeKeyOf(dir, NodeAt(s, l), nb)},
      n + {ItemKey(NodeAt(s, l)), ItemKey(nb)})
  {
    assert EdgeKeyOf(dir, NodeAt(s, l), nb) in EdgesFrom(s, dir, filter, v - v0);
    assert ItemKey(nb) in NodesFrom(s, dir, filter, v - v0);
    assert ItemKey(NodeAt(s, l)) in NodesFrom(s, dir, filter, v - v0);
  }

  /** Marking a prepared location walked, before it adds anything, stays within the walk. */
  lemma GrewByVisit(
    s: Server, dir: Direction, filter: Option<string>,
    v0: set<Location>, e0: set<string>, n0: set<string>, l: Location)
    requires Prepared(s, l) && l !in v0
    ensures Grew(s, dir, filter, v0, e0, n0, v0 + {l}, e0, n0)
  {
  }

  /** Walking more locations can only add edges and nodes. */
  lemma FromMono(s: Server, dir: Direction, filter: Option<string>, a: set<Location>, b: set<Location>)
    requires a <= b
    ensures EdgesFrom(s, dir, filter, a) <= EdgesFrom(s, dir, filter, b)
    ensures NodesFrom(s, dir, filter, a) <= NodesFrom(s, dir, filter, b)
  {
  }

  /** Completeness survives further edges and further walked locations. */
  lemma CompleteGrows(
    s: Server, dir: Direction, filter: Option<string>, ls: set<Location>,
    e: set<string>, walked: set<Location>, e2: set<string>, walked2: set<Location>)
    requires Complete(s, dir, filter, ls, e, walked)
    requires e <= e2 && walked <= walked2
    ensures Complete(s, dir, filter, ls, e2, walked2)
  {
  }

  /** Completeness of two sets of locations is completeness of their union. */
  lemma CompleteUnion(
    s: Server, dir: Direction, filter: Option<string>, a: set<Location>, b: set<Location>,
    e: set<string>, walked: set<Location>)
    requires Complete(s, dir, filter, a, e, walked) && Complete(s, dir, filter, b, e, walked)
    ensures Complete(s, dir, filter, a + b, e, walked)
  {
  }

  /**
   * The neighbours of `l` before index `i` that pass the filter all have
   * their edge in `e` and were walked (or cannot be prepared).
   */
  ghost predicate DoneUpTo(
    s: Server, dir: Direction, filter: Option<string>, l: Location, i: nat, e: set<string>, walked: set<Location>)
    requires Prepared(s, l) && i <= |Neighbours(s, dir, l)|
  {
    var nbs := Neighbours(s, dir, l);
    forall j :: 0 <= j < i && Passes(nbs[j], filter) ==>
      EdgeKeyOf(dir, NodeAt(s, l), nbs[j]) in e &&
      (ItemLocation(nbs[j]) in walked || !Prepared(s, ItemLocation(nbs[j])))
  }

  /** One more neighbour done. */
  lemma DoneStep(
    s: Server, dir: Direction, filter: Option<string>, l: Location, i: nat,
    e: set<string>, walked: set<Location>, e2: set<string>, walked2: set<Location>)
    requires Prepared(s, l) && i < |Neighbours(s, dir, l)|
    requires DoneUpTo(s, dir, filter, l, i, e, walked) && e <= e2 && walked <= walked2
    requires var nb := Neighbours(s, dir, l)[i];
      Passes(nb, filter) ==>
        EdgeKeyOf(dir, NodeAt(s, l), nb) in e2 && (ItemLocation(nb) in walked2 || !Prepared(s, ItemLocation(nb)))
    ensures DoneUpTo(s, dir, filter, l, i + 1, e2, walked2)
  {
  }

  /** A location done up to the end of its neighbour list is complete. */
  lemma DoneIsComplete(
    s: Server, dir: Direction, filter: Option<string>, l: Location, e: set<string>, walked: set<Location>)
    requires Prepared(s, l) && DoneUpTo(s, dir, filter, l, |Neighbours(s, dir, l)|, e, walked)
    ensures Complete(s, dir, filter, {l}, e, walked)
  {
    var nbs := Neighbours(s, dir, l);
    forall it | it in nbs && Passes(it, filter)
      ensures EdgeKeyOf(dir, NodeAt(s, l), it) in e && (ItemLocation(it) in walked || !Prepared(s, ItemLocation(it)))
    {
      var j :| 0 <= j < |nbs| && nbs[j] == it;
    }
  }

  /**
   * One more neighbour of `l` handled: the locations walked for it are
   * complete, and so are the neighbours before it.
   */
  lemma LoopStep(
    s: Server, dir: Direction, filter: Option<string>, v0: set<Location>, l: Location, i: nat,
    v1: set<Location>, e1: set<string>, v2: set<Location>, e2: set<string>)
    requires Prepared(s, l) && i < |Neighbours(s, dir, l)|
    requires v1 <= v2 && e1 <= e2
    requires Complete(s, dir, filter, v1 - v0 - {l}, e1, v1) && DoneUpTo(s, dir, filter, l, i, e1, v1)
    requires Complete(s, dir, filter, v2 - v1, e2, v2)
    requires var nb := Neighbours(s, dir, l)[i];
      Passes(nb, filter) ==>
        EdgeKeyOf(dir, NodeAt(s, l), nb) in e2 && (ItemLocation(nb) in v2 || !Prepared(s, ItemLocation(nb)))
    ensures Complete(s, dir, filter, v2 - v0 - {l}, e2, v2) && DoneUpTo(s, dir, filter, l, i + 1, e2, v2)
  {
    CompleteGrows(s, dir, filter, v1 - v0 - {l}, e1, v1, e2, v2);
    CompleteUnion(s, dir, filter, v1 - v0 - {l}, v2 - v1, e2, v2);
    assert v2 - v0 - {l} <= (v1 - v0 - {l}) + (v2 - v1);
    DoneStep(s, dir, filter, l, i, e1, v1, e2, v2);
  }

  /** A location whose neighbours are all handled completes the walk from it. */
  lemma LoopDone(
    s: Server, dir: Direction, filter: Option<string>, v0: set<Location>, l: Location,
    v: set<Location>, e: set<string>)
    requires Prepared(s, l) && l in v
    requires Complete(s, dir, filter, v - v0 - {l}, e, v)
    requires DoneUpTo(s, dir, filter, l, |Neighbours(s, dir, l)|, e, v)
    ensures Complete(s, dir, filter, v - v0, e, v)
    ensures v0 == {} ==> Complete(s, dir, filter, v, e, v)
  {
    DoneIsComplete(s, dir, filter, l, e, v);
    CompleteUnion(s, dir, filter, v - v0 - {l}, {l}, e, v);
    assert v - v0 <= (v - v0 - {l}) + {l};
    assert v0 == {} ==> v - v0 == v;
  }

  /** A location with nothing to prepare adds neither edges nor nodes. */
  lemma UnpreparedAddsNothing(s: Server, dir: Direction, filter: Option<string>, l: Location)
    requires !Prepared(s, l)
    ensures EdgesFrom(s, dir, filter, {l}) == {} && NodesFrom(s, dir, filter, {l}) == {}
  {
  }
}
