/**
 * What `computeCallgraphForFile` and `computeTypeHierarchyForFile` share:
 * a first loop that makes every symbol of the file a node, then a second
 * loop that queries each symbol's related items (the functions it calls,
 * the types it extends) and adds one edge per item that passes the path
 * filter. Neither goes further than the symbols of the file.
 */
module FileBuilders {
  import opened Wrappers
  import opened Oracle
  import opened Graph
  import opened Walks
  import opened OrderedMaps

  /** `getSymbols` answered with at least one symbol. */
  predicate Listed(symbols: Answer<seq<SymbolInfo>>) {
    symbols.Value? && |symbols.value| > 0
  }

  /**
   * The items the edge loop runs over for one symbol: the query's answer,
   * or none when the query answered `undefined` or threw (both skip the
   * symbol).
   */
  function Targets(query: Pos -> Answer<seq<Item>>, sym: SymbolInfo): seq<Item> {
    var a := query(sym.position);
    if a.Value? then a.value else []
  }

  /** The key of the node a symbol of `file` becomes. */
  function SymbolKey(file: string, sym: SymbolInfo): string {
    NodeKey(file, sym.name)
  }

  /** Apart from its id, `n` is the visible symbol node `addNode` makes for a symbol of `file`, at the symbol's position. */
  predicate IsSymbolNode(n: Node, file: string, sym: SymbolInfo) {
    n.(id := 0) == Node(0, SymbolKey(file, sym), SymbolNode, sym.name, file, sym.position.line, sym.position.character, false)
  }

  /** The edge from a symbol of `file` to an item is added only when both the file and the item's file pass the filter. */
  predicate EdgeKept(file: string, t: Item, filter: Option<string>) {
    FilterByPath(file, filter) && FilterByPath(t.file, filter)
  }

  /** Every node of `n0` is still stored in `n1`, unchanged. */
  ghost predicate KeepsNodes(n0: OMap<string, Node>, n1: OMap<string, Node>) {
    forall k :: k in n0.entries ==> k in n1.entries && n1.entries[k] == n0.entries[k]
  }

  /** The symbols a `getSymbols` answer lists: none when it answered `undefined` or threw. */
  function SymbolsOf(symbols: Answer<seq<SymbolInfo>>): seq<SymbolInfo> {
    if symbols.Value? then symbols.value else []
  }

  /** The node keys of the symbols `syms` of `file`. */
  ghost function SymbolKeys(file: string, syms: seq<SymbolInfo>): set<string> {
    set sym | sym in syms :: SymbolKey(file, sym)
  }

  /** The edges from one symbol to the items `ts`. */
  ghost function EdgesOf(file: string, sym: SymbolInfo, ts: seq<Item>, filter: Option<string>): set<string> {
    set t | t in ts && EdgeKept(file, t, filter) :: EdgeKey(SymbolKey(file, sym), ItemKey(t))
  }

  /** The nodes the edges from one symbol to the items `ts` lead to. */
  ghost function TargetsOf(file: string, ts: seq<Item>, filter: Option<string>): set<string> {
    set t | t in ts && EdgeKept(file, t, filter) :: ItemKey(t)
  }

  /** Every edge the edge loop adds for the symbols `syms`. */
  ghost function AllEdges(
    file: string, syms: seq<SymbolInfo>, query: Pos -> Answer<seq<Item>>, filter: Option<string>): set<string>
  {
    set sym, t | sym in syms && t in Targets(query, sym) && EdgeKept(file, t, filter) ::
      EdgeKey(SymbolKey(file, sym), ItemKey(t))
  }

  /** Every node those edges lead to. */
  ghost function AllTargets(
    file: string, syms: seq<SymbolInfo>, query: Pos -> Answer<seq<Item>>, filter: Option<string>): set<string>
  {
    set sym, t | sym in syms && t in Targets(query, sym) && EdgeKept(file, t, filter) :: ItemKey(t)
  }

  lemma SymbolKeysStep(file: string, syms: seq<SymbolInfo>, i: nat)
    requires i < |syms|
    ensures SymbolKeys(file, syms[..i + 1]) == SymbolKeys(file, syms[..i]) + {SymbolKey(file, syms[i])}
  {
    assert syms[..i + 1] == syms[..i] + [syms[i]];
  }

  lemma TargetStep(file: string, sym: SymbolInfo, ts: seq<Item>, j: nat, filter: Option<string>)
    requires j < |ts|
    ensures EdgesOf(file, sym, ts[..j + 1], filter) ==
      EdgesOf(file, sym, ts[..j], filter) +
      (if EdgeKept(file, ts[j], filter) then {EdgeKey(SymbolKey(file, sym), ItemKey(ts[j]))} else {})
    ensures TargetsOf(file, ts[..j + 1], filter) ==
      TargetsOf(file, ts[..j], filter) + (if EdgeKept(file, ts[j], filter) then {ItemKey(ts[j])} else {})
  {
    assert ts[..j + 1] == ts[..j] + [ts[j]];
  }

  lemma AllStep(file: string, syms: seq<SymbolInfo>, i: nat, query: Pos -> Answer<seq<Item>>, filter: Option<string>)
    requires i < |syms|
    ensures AllEdges(file, syms[..i + 1], query, filter) ==
      AllEdges(file, syms[..i], query, filter) + EdgesOf(file, syms[i], Targets(query, syms[i]), filter)
    ensures AllTargets(file, syms[..i + 1], query, filter) ==
      AllTargets(file, syms[..i], query, filter) + TargetsOf(file, Targets(query, syms[i]), filter)
  {
    assert syms[..i + 1] == syms[..i] + [syms[i]];
  }

  /** The first of the symbols `syms` whose node key is `k`: the one whose node the node loop stores. */
  function FirstSymbol(file: string, syms: seq<SymbolInfo>, k: string): (r: Option<SymbolInfo>)
    ensures r.Some? ==> r.value in syms && SymbolKey(file, r.value) == k
    decreases |syms|
  {
    if syms == [] then None
    else
      var f := FirstSymbol(file, syms[..|syms| - 1], k);
      if f.Some? then f
      else if SymbolKey(file, syms[|syms| - 1]) == k then Some(syms[|syms| - 1])
      else None
  }

  /**
   * The node table `nodes` is the table `n0` with the symbols `syms[..i]`
   * added: the nodes of `n0` as they were, and every other node the one made
   * from the first symbol with its key.
   */
  ghost predicate SymbolNodesUpTo(
    n0: OMap<string, Node>, nodes: OMap<string, Node>, file: string, syms: seq<SymbolInfo>, i: nat)
    requires i <= |syms|
  {
    nodes.entries.Keys == n0.entries.Keys + SymbolKeys(file, syms[..i]) &&
    (forall k :: k in n0.entries ==> nodes.entries[k] == n0.entries[k]) &&
    forall k :: k in nodes.entries && k !in n0.entries ==>
      FirstSymbol(file, syms[..i], k).Some? && IsSymbolNode(nodes.entries[k], file, FirstSymbol(file, syms[..i], k).value)
  }

  /**
   * Every node of a symbol key that `n0` did not hold is the node made from
   * the first symbol with that key, at that symbol's position.
   */
  ghost predicate SymbolNodesFirst(n0: OMap<string, Node>, nodes: OMap<string, Node>, file: string, syms: seq<SymbolInfo>) {
    forall k :: k in SymbolKeys(file, syms) && k !in n0.entries ==>
      k in nodes.entries && FirstSymbol(file, syms, k).Some? &&
      IsSymbolNode(nodes.entries[k], file, FirstSymbol(file, syms, k).value)
  }

  /**
   * Nodes before edges: once the node loop has run to the end, adding edges
   * that leave every stored node as it is cannot move a symbol's node to
   * the position of an edge's target.
   */
  lemma SymbolNodesStayFirst(
    n0: OMap<string, Node>, n1: OMap<string, Node>, n2: OMap<string, Node>, file: string, syms: seq<SymbolInfo>)
    requires SymbolNodesUpTo(n0, n1, file, syms, |syms|)
    requires KeepsNodes(n1, n2)
    ensures SymbolNodesFirst(n0, n2, file, syms)
  {
    assert syms[..|syms|] == syms;
  }

  /** One more symbol: the first one with a key stays first, and a key seen for the first time gets the new symbol. */
  lemma FirstSymbolStep(file: string, syms: seq<SymbolInfo>, i: nat, k: string)
    requires i < |syms|
    ensures FirstSymbol(file, syms[..i + 1], k) ==
      if FirstSymbol(file, syms[..i], k).Some? then FirstSymbol(file, syms[..i], k)
      else if SymbolKey(file, syms[i]) == k then Some(syms[i])
      else None
  {
    assert syms[..i + 1][..i] == syms[..i];
  }

  /** After inserting the node of the next symbol, every new node is still the one made from the first symbol with its key. */
  lemma NewNodesFromFirstSymbols(
    n0: OMap<string, Node>, nodes: OMap<string, Node>, nextId: nat, file: string, syms: seq<SymbolInfo>, i: nat)
    requires nodes.Valid() && i < |syms|
    requires SymbolNodesUpTo(n0, nodes, file, syms, i)
    ensures var r := InsertNode(nodes, nextId, SymbolNode, file, syms[i].name, syms[i].position.line, syms[i].position.character).0;
      forall k :: k in r.entries && k !in n0.entries ==>
        FirstSymbol(file, syms[..i + 1], k).Some? && IsSymbolNode(r.entries[k], file, FirstSymbol(file, syms[..i + 1], k).value)
  {
    var sym := syms[i];
    var r := InsertNode(nodes, nextId, SymbolNode, file, sym.name, sym.position.line, sym.position.character).0;
    forall k | k in r.entries && k !in n0.entries
      ensures FirstSymbol(file, syms[..i + 1], k).Some?
      ensures IsSymbolNode(r.entries[k], file, FirstSymbol(file, syms[..i + 1], k).value)
    {
      FirstSymbolStep(file, syms, i, k);
      if k !in nodes.entries {
        assert FirstSymbol(file, syms[..i], k).None?;
        assert r.entries[k] == Node(nextId, k, SymbolNode, sym.name, file, sym.position.line, sym.position.character, false);
      }
    }
  }

  /** Inserting the node of the next symbol extends the symbol nodes by one. */
  lemma SymbolNodeInserted(
    n0: OMap<string, Node>, nodes: OMap<string, Node>, nextId: nat, file: string, syms: seq<SymbolInfo>, i: nat)
    requires nodes.Valid() && i < |syms|
    requires SymbolNodesUpTo(n0, nodes, file, syms, i)
    ensures SymbolNodesUpTo(n0,
      InsertNode(nodes, nextId, SymbolNode, file, syms[i].name, syms[i].position.line, syms[i].position.character).0,
      file, syms, i + 1)
  {
    SymbolKeysStep(file, syms, i);
    NewNodesFromFirstSymbols(n0, nodes, nextId, file, syms, i);
    var r := InsertNode(nodes, nextId, SymbolNode, file, syms[i].name, syms[i].position.line, syms[i].position.character).0;
    forall k | k in n0.entries ensures r.entries[k] == n0.entries[k] {
      assert k in nodes.entries;
    }
  }

  /** One turn of the node loop: `gb.addNode("symbol", file, symbol.name, line, character)`. */
  method AddSymbolNode(gb: GraphBuilder, file: string, syms: seq<SymbolInfo>, i: nat, ghost n0: OMap<string, Node>)
    requires gb.Valid() && i < |syms|
    requires SymbolNodesUpTo(n0, gb.nodesByKey, file, syms, i)
    modifies gb
    ensures gb.Valid()
    ensures SymbolNodesUpTo(n0, gb.nodesByKey, file, syms, i + 1)
    ensures gb.edgesByKey == old(gb.edgesByKey)
    ensures gb.symbolsByKey == old(gb.symbolsByKey) && gb.referencesByKey == old(gb.referencesByKey)
  {
    SymbolNodeInserted(n0, gb.nodesByKey, gb.nextId, file, syms, i);
    var node := gb.AddNode(SymbolNode, file, syms[i].name, syms[i].position.line, syms[i].position.character);
  }

  /**
   * The node loop: polls the token before each symbol and adds the symbol as
   * a node of `file` at its position. `stop` is true when a poll saw
   * cancellation. Nodes stored before are left as they are; when the loop
   * ran to the end, every new node is the one made from the first symbol
   * with its key.
   */
  method AddSymbolNodes(gb: GraphBuilder, file: string, syms: seq<SymbolInfo>, token: CancellationToken)
    returns (stop: bool)
    requires gb.Valid() && token.NeverCancelled()
    modifies gb, token
    ensures gb.Valid()
    ensures stop <==> !token.NeverCancelled()
    ensures gb.edgesByKey == old(gb.edgesByKey)
    ensures gb.symbolsByKey == old(gb.symbolsByKey) && gb.referencesByKey == old(gb.referencesByKey)
    ensures old(gb.NodeKeys()) <= gb.NodeKeys() <= old(gb.NodeKeys()) + SymbolKeys(file, syms)
    ensures !stop ==> gb.NodeKeys() == old(gb.NodeKeys()) + SymbolKeys(file, syms)
    ensures KeepsNodes(old(gb.nodesByKey), gb.nodesByKey)
    ensures !stop ==> SymbolNodesUpTo(old(gb.nodesByKey), gb.nodesByKey, file, syms, |syms|)
  {
    ghost var n0 := gb.nodesByKey;
    var i := 0;
    assert syms[..0] == [];
    while i < |syms|
      invariant 0 <= i <= |syms|
      invariant gb.Valid() && token.NeverCancelled()
      invariant gb.edgesByKey == old(gb.edgesByKey)
      invariant gb.symbolsByKey == old(gb.symbolsByKey) && gb.referencesByKey == old(gb.referencesByKey)
      invariant SymbolNodesUpTo(n0, gb.nodesByKey, file, syms, i)
    {
      var cancelled := token.IsCancellationRequested();
      if cancelled {
        assert SymbolKeys(file, syms[..i]) <= SymbolKeys(file, syms);
        return true;
      }
      AddSymbolNode(gb, file, syms, i, n0);
      i := i + 1;
    }
    assert syms[..i] == syms;
    return false;
  }

  /**
   * `gb.addEdge("symbol", file, symbol.name, …, "symbol", t.uri, t.name, …)`:
   * the edge from the node of `sym` to the node of the item `t`, which is
   * recorded at `tAt` when it is new.
   */
  method AddTargetEdge(gb: GraphBuilder, file: string, sym: SymbolInfo, t: Item, tAt: Pos)
    requires gb.Valid()
    modifies gb
    ensures gb.Valid()
    ensures gb.EdgeKeys() == old(gb.EdgeKeys()) + {EdgeKey(SymbolKey(file, sym), ItemKey(t))}
    ensures gb.NodeKeys() == old(gb.NodeKeys()) + {SymbolKey(file, sym), ItemKey(t)}
    ensures KeepsNodes(old(gb.nodesByKey), gb.nodesByKey)
    ensures gb.symbolsByKey == old(gb.symbolsByKey) && gb.referencesByKey == old(gb.referencesByKey)
  {
    var edge := gb.AddEdge(
      SymbolNode, file, sym.name, sym.position.line, sym.position.character,
      SymbolNode, t.file, t.name, tAt.line, tAt.character);
  }

  /**
   * The edge keys `e` and node keys `n` are those of `e0` and `n0` with the
   * kept edges from `sym` to the items `ts[..j]` and their targets added.
   */
  ghost predicate TargetsUpTo(
    e0: set<string>, n0: set<string>, e: set<string>, n: set<string>,
    file: string, sym: SymbolInfo, ts: seq<Item>, j: nat, filter: Option<string>)
    requires j <= |ts|
  {
    SymbolKey(file, sym) in n0 &&
    e == e0 + EdgesOf(file, sym, ts[..j], filter) &&
    n == n0 + TargetsOf(file, ts[..j], filter)
  }

  /** The keys after one more item of the inner loop. */
  lemma TargetsUpToStep(
    e0: set<string>, n0: set<string>, e: set<string>, n: set<string>,
    file: string, sym: SymbolInfo, ts: seq<Item>, j: nat, filter: Option<string>)
    requires j < |ts| && TargetsUpTo(e0, n0, e, n, file, sym, ts, j, filter)
    ensures EdgeKept(file, ts[j], filter) ==> TargetsUpTo(e0, n0,
      e + {EdgeKey(SymbolKey(file, sym), ItemKey(ts[j]))}, n + {SymbolKey(file, sym), ItemKey(ts[j])},
      file, sym, ts, j + 1, filter)
    ensures !EdgeKept(file, ts[j], filter) ==> TargetsUpTo(e0, n0, e, n, file, sym, ts, j + 1, filter)
  {
    TargetStep(file, sym, ts, j, filter);
  }

  /** One turn of the inner edge loop after the poll: the edge to `ts[j]`, when it is kept. */
  method AddTargetEdgeAt(
    gb: GraphBuilder, file: string, sym: SymbolInfo, ts: seq<Item>, j: nat, at: Item -> Pos,
    filter: Option<string>, ghost e0: set<string>, ghost n0: set<string>)
    requires gb.Valid() && j < |ts|
    requires TargetsUpTo(e0, n0, gb.EdgeKeys(), gb.NodeKeys(), file, sym, ts, j, filter)
    modifies gb
    ensures gb.Valid()
    ensures TargetsUpTo(e0, n0, gb.EdgeKeys(), gb.NodeKeys(), file, sym, ts, j + 1, filter)
    ensures KeepsNodes(old(gb.nodesByKey), gb.nodesByKey)
    ensures gb.symbolsByKey == old(gb.symbolsByKey) && gb.referencesByKey == old(gb.referencesByKey)
  {
    TargetsUpToStep(e0, n0, gb.EdgeKeys(), gb.NodeKeys(), file, sym, ts, j, filter);
    if EdgeKept(file, ts[j], filter) {
      AddTargetEdge(gb, file, sym, ts[j], at(ts[j]));
    }
  }

  /**
   * The inner edge loop of one symbol: polls the token before each item and
   * adds the edge to the item when the edge is kept. `at` picks the position
   * a new target node is recorded at. Once the symbol's own node exists, the
   * loop adds exactly the kept edges and their targets, or a part of them
   * when a poll saw cancellation.
   */
  method AddTargetEdges(
    gb: GraphBuilder, file: string, sym: SymbolInfo, ts: seq<Item>, at: Item -> Pos,
    filter: Option<string>, token: CancellationToken)
    returns (stop: bool)
    requires gb.Valid() && token.NeverCancelled()
    requires SymbolKey(file, sym) in gb.NodeKeys()
    modifies gb, token
    ensures gb.Valid()
    ensures stop <==> !token.NeverCancelled()
    ensures old(gb.EdgeKeys()) <= gb.EdgeKeys() <= old(gb.EdgeKeys()) + EdgesOf(file, sym, ts, filter)
    ensures old(gb.NodeKeys()) <= gb.NodeKeys() <= old(gb.NodeKeys()) + TargetsOf(file, ts, filter)
    ensures !stop ==>
      gb.EdgeKeys() == old(gb.EdgeKeys()) + EdgesOf(file, sym, ts, filter) &&
      gb.NodeKeys() == old(gb.NodeKeys()) + TargetsOf(file, ts, filter)
    ensures KeepsNodes(old(gb.nodesByKey), gb.nodesByKey)
    ensures gb.symbolsByKey == old(gb.symbolsByKey) && gb.referencesByKey == old(gb.referencesByKey)
  {
    ghost var e0, n0 := gb.EdgeKeys(), gb.NodeKeys();
    var j := 0;
    assert ts[..0] == [];
    while j < |ts|
      invariant 0 <= j <= |ts|
      invariant gb.Valid() && token.NeverCancelled()
      invariant TargetsUpTo(e0, n0, gb.EdgeKeys(), gb.NodeKeys(), file, sym, ts, j, filter)
      invariant KeepsNodes(old(gb.nodesByKey), gb.nodesByKey)
      invariant gb.symbolsByKey == old(gb.symbolsByKey) && gb.referencesByKey == old(gb.referencesByKey)
    {
      var cancelled := token.IsCancellationRequested();
      if cancelled {
        TargetsPrefix(file, sym, ts, j, filter);
        return true;
      }
      AddTargetEdgeAt(gb, file, sym, ts, j, at, filter, e0, n0);
      j := j + 1;
    }
    assert ts[..j] == ts;
    return false;
  }

  /** The edges and targets of a prefix of the items are among those of all of them. */
  lemma TargetsPrefix(file: string, sym: SymbolInfo, ts: seq<Item>, j: nat, filter: Option<string>)
    requires j <= |ts|
    ensures EdgesOf(file, sym, ts[..j], filter) <= EdgesOf(file, sym, ts, filter)
    ensures TargetsOf(file, ts[..j], filter) <= TargetsOf(file, ts, filter)
  {
    assert forall t :: t in ts[..j] ==> t in ts;
  }

  /** The edges and targets of a prefix of the symbols are among those of all of them. */
  lemma AllPrefix(file: string, syms: seq<SymbolInfo>, i: nat, query: Pos -> Answer<seq<Item>>, filter: Option<string>)
    requires i <= |syms|
    ensures AllEdges(file, syms[..i], query, filter) <= AllEdges(file, syms, query, filter)
    ensures AllTargets(file, syms[..i], query, filter) <= AllTargets(file, syms, query, filter)
  {
    assert forall sym :: sym in syms[..i] ==> sym in syms;
  }

  /**
   * The edge keys `e` and node keys `n` are those of `e0` and `n0` with the
   * kept edges of the symbols `syms[..i]` and their targets added, where
   * `n0` already holds the nodes of all the symbols.
   */
  ghost predicate AllUpTo(
    e0: set<string>, n0: set<string>, e: set<string>, n: set<string>,
    file: string, syms: seq<SymbolInfo>, i: nat, query: Pos -> Answer<seq<Item>>, filter: Option<string>)
    requires i <= |syms|
  {
    SymbolKeys(file, syms) <= n0 &&
    e == e0 + AllEdges(file, syms[..i], query, filter) &&
    n == n0 + AllTargets(file, syms[..i], query, filter)
  }

  /**
   * One turn of the outer edge loop after the poll: the query for `syms[i]`
   * and, when it answered, the inner loop over its items.
   */
  method AddSymbolEdgesAt(
    gb: GraphBuilder, file: string, syms: seq<SymbolInfo>, i: nat, query: Pos -> Answer<seq<Item>>, at: Item -> Pos,
    filter: Option<string>, token: CancellationToken, ghost e0: set<string>, ghost n0: set<string>)
    returns (stop: bool)
    requires gb.Valid() && token.NeverCancelled() && i < |syms|
    requires AllUpTo(e0, n0, gb.EdgeKeys(), gb.NodeKeys(), file, syms, i, query, filter)
    modifies gb, token
    ensures gb.Valid()
    ensures stop <==> !token.NeverCancelled()
    ensures !stop ==> AllUpTo(e0, n0, gb.EdgeKeys(), gb.NodeKeys(), file, syms, i + 1, query, filter)
    ensures stop ==>
      e0 <= gb.EdgeKeys() <= e0 + AllEdges(file, syms, query, filter) &&
      n0 <= gb.NodeKeys() <= n0 + AllTargets(file, syms, query, filter)
    ensures KeepsNodes(old(gb.nodesByKey), gb.nodesByKey)
    ensures gb.symbolsByKey == old(gb.symbolsByKey) && gb.referencesByKey == old(gb.referencesByKey)
  {
    ghost var e, n := gb.EdgeKeys(), gb.NodeKeys();
    ghost var ts := Targets(query, syms[i]);
    stop := false;
    var answer := query(syms[i].position);
    if answer.Value? {
      assert SymbolKey(file, syms[i]) in SymbolKeys(file, syms);
      stop := AddTargetEdges(gb, file, syms[i], answer.value, at, filter, token);
    }
    AllUpToStep(e0, n0, e, n, file, syms, i, query, filter, gb.EdgeKeys(), gb.NodeKeys(), stop);
  }

  /**
   * After the items of `syms[i]`: all of their kept edges and targets when
   * the inner loop ran to the end, some of them when it stopped.
   */
  lemma AllUpToStep(
    e0: set<string>, n0: set<string>, e: set<string>, n: set<string>,
    file: string, syms: seq<SymbolInfo>, i: nat, query: Pos -> Answer<seq<Item>>, filter: Option<string>,
    e2: set<string>, n2: set<string>, stop: bool)
    requires i < |syms| && AllUpTo(e0, n0, e, n, file, syms, i, query, filter)
    requires var ts := Targets(query, syms[i]);
      e <= e2 <= e + EdgesOf(file, syms[i], ts, filter) && n <= n2 <= n + TargetsOf(file, ts, filter)
    requires !stop ==>
      var ts := Targets(query, syms[i]);
      e2 == e + EdgesOf(file, syms[i], ts, filter) && n2 == n + TargetsOf(file, ts, filter)
    ensures !stop ==> AllUpTo(e0, n0, e2, n2, file, syms, i + 1, query, filter)
    ensures e0 <= e2 <= e0 + AllEdges(file, syms, query, filter)
    ensures n0 <= n2 <= n0 + AllTargets(file, syms, query, filter)
  {
    var ts := Targets(query, syms[i]);
    var es, ns := e + EdgesOf(file, syms[i], ts, filter), n + TargetsOf(file, ts, filter);
    AllStep(file, syms, i, query, filter);
    assert es == e0 + AllEdges(file, syms[..i + 1], query, filter);
    assert ns == n0 + AllTargets(file, syms[..i + 1], query, filter);
    AllPrefix(file, syms, i + 1, query, filter);
  }

  /** Part way through the symbols, the keys lie between those before the loop and those after a full run. */
  lemma AllUpToWithin(
    e0: set<string>, n0: set<string>, e: set<string>, n: set<string>,
    file: string, syms: seq<SymbolInfo>, i: nat, query: Pos -> Answer<seq<Item>>, filter: Option<string>)
    requires i <= |syms| && AllUpTo(e0, n0, e, n, file, syms, i, query, filter)
    ensures e0 <= e <= e0 + AllEdges(file, syms, query, filter)
    ensures n0 <= n <= n0 + AllTargets(file, syms, query, filter)
  {
    AllPrefix(file, syms, i, query, filter);
  }

  /**
   * The outer edge loop: polls the token before each symbol, queries the
   * items related to it and runs the inner loop over them. A query that
   * answered `undefined` or threw skips only that symbol. Once the nodes of
   * all the symbols exist, the loop adds exactly the kept edges of all the
   * symbols and their targets, or a part of them when a poll saw
   * cancellation, and leaves every stored node as it was.
   */
  method AddAllTargetEdges(
    gb: GraphBuilder, file: string, syms: seq<SymbolInfo>, query: Pos -> Answer<seq<Item>>, at: Item -> Pos,
    filter: Option<string>, token: CancellationToken)
    returns (stop: bool)
    requires gb.Valid() && token.NeverCancelled()
    requires SymbolKeys(file, syms) <= gb.NodeKeys()
    modifies gb, token
    ensures gb.Valid()
    ensures stop <==> !token.NeverCancelled()
    ensures old(gb.EdgeKeys()) <= gb.EdgeKeys() <= old(gb.EdgeKeys()) + AllEdges(file, syms, query, filter)
    ensures old(gb.NodeKeys()) <= gb.NodeKeys() <= old(gb.NodeKeys()) + AllTargets(file, syms, query, filter)
    ensures !stop ==>
      gb.EdgeKeys() == old(gb.EdgeKeys()) + AllEdges(file, syms, query, filter) &&
      gb.NodeKeys() == old(gb.NodeKeys()) + AllTargets(file, syms, query, filter)
    ensures KeepsNodes(old(gb.nodesByKey), gb.nodesByKey)
    ensures gb.symbolsByKey == old(gb.symbolsByKey) && gb.referencesByKey == old(gb.referencesByKey)
  {
    ghost var e0, n0 := gb.EdgeKeys(), gb.NodeKeys();
    var i := 0;
    assert syms[..0] == [];
    while i < |syms|
      invariant 0 <= i <= |syms|
      invariant gb.Valid() && token.NeverCancelled()
      invariant AllUpTo(e0, n0, gb.EdgeKeys(), gb.NodeKeys(), file, syms, i, query, filter)
      invariant KeepsNodes(old(gb.nodesByKey), gb.nodesByKey)
      invariant gb.symbolsByKey == old(gb.symbolsByKey) && gb.referencesByKey == old(gb.referencesByKey)
    {
      var cancelled := token.IsCancellationRequested();
      if cancelled {
        AllUpToWithin(e0, n0, gb.EdgeKeys(), gb.NodeKeys(), file, syms, i, query, filter);
        return true;
      }
      stop := AddSymbolEdgesAt(gb, file, syms, i, query, at, filter, token, e0, n0);
      if stop {
        return;
      }
      i := i + 1;
    }
    AllUpToWithin(e0, n0, gb.EdgeKeys(), gb.NodeKeys(), file, syms, i, query, filter);
    assert syms[..i] == syms;
    return false;
  }
}
