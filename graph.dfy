/**
 * The backend's graph store (`backend/src/utils/graph.ts`): the records it
 * builds, the string keys it deduplicates them by, the `GraphBuilder` with
 * its four keyed tables, the integrity check `verify` and the `merge` of
 * two graphs.
 */
module Graph {
  import opened Wrappers
  import opened Seqs
  import opened Strings
  import opened OrderedMaps
  import opened Oracle

  /**
   * A record id. The source draws a random 12-character string for every
   * record it creates; here a counter hands out ids that were never used.
   */
  type Id = nat

  datatype NodeType = FileNode | FolderNode | SymbolNode

  datatype Node = Node(
    id: Id, key: string, nodeType: NodeType, displayName: string,
    filepath: string, lineno: int, colno: int, hidden: bool)

  datatype Snippet = Snippet(lineno: Option<int>, text: string, displayName: string)

  datatype Edge = Edge(
    id: Id, key: string, source: Id, target: Id, weight: int, snippets: seq<Snippet>)

  datatype Graph = Graph(nodes: seq<Node>, edges: seq<Edge>)

  datatype CgSymbol = CgSymbol(
    id: Id, key: string, name: string, filepath: string,
    lineno: int, colno: int, kind: SymbolKind)

  datatype CgReference = CgReference(
    id: Id, key: string, symbolId: Id, filepath: string, lineno: int, colno: int)

  datatype SymbolsAndReferences = SymbolsAndReferences(
    symbols: seq<CgSymbol>, references: seq<CgReference>)

  /** The key nodes and symbols are deduplicated by: `${filepath}|${displayName}`. */
  function NodeKey(filepath: string, displayName: string): string {
    filepath + "|" + displayName
  }

  /** The key edges are deduplicated by: `${srcKey}||${dstKey}`. */
  function EdgeKey(srcKey: string, dstKey: string): string {
    srcKey + "||" + dstKey
  }

  /** The key references are deduplicated by: the file path, `|`, and the line number. */
  function ReferenceKey(filepath: string, line: nat): string {
    filepath + "|" + NatToString(line)
  }

  /**
   * `stripFilePrefix`: the path relative to the workspace root. Without a
   * root, or when the path is not under it, the path is returned whole;
   * otherwise the root is cut off, and one `/` after it.
   */
  function StripFilePrefix(path: string, root: Option<string>): (r: string)
    ensures root.None? || !StartsWith(path, root.value) ==> r == path
    ensures root.Some? && StartsWith(path, root.value + "/") ==> path == root.value + "/" + r
    ensures root.Some? && StartsWith(path, root.value) && !StartsWith(path, root.value + "/") ==>
      path == root.value + r
  {
    if root.None? then path
    else if StartsWith(path, root.value) then
      var relative := path[|root.value|..];
      assert path == root.value + relative;
      if StartsWith(relative, "/") then
        assert StartsWith(path, root.value + "/");
        assert relative == "/" + relative[1..];
        relative[1..]
      else
        assert !StartsWith(path, root.value + "/") by {
          if |relative| > 0 {
            assert relative[..1] == [relative[0]];
            assert path[|root.value|] == relative[0];
            assert (root.value + "/")[|root.value|] == '/';
          }
        }
        relative
    else path
  }

  /** `filterByPathFn`: no filter lets every path through, a filter only the paths it prefixes. */
  predicate FilterByPath(path: string, filter: Option<string>) {
    filter.None? || StartsWith(path, filter.value)
  }

  /** A path passes a filter exactly when it is the filter followed by something. */
  lemma FilterByPathMeansUnder(path: string, filter: string)
    ensures FilterByPath(path, Some(filter)) <==> exists rest :: path == filter + rest
  {
    if FilterByPath(path, Some(filter)) {
      assert path == filter + path[|filter|..];
    }
  }

  /** `isTypeHierarchySymbol`: classes, interfaces and type parameters. */
  predicate IsTypeHierarchySymbol(kind: SymbolKind) {
    kind == ClassKind || kind == InterfaceKind || kind == TypeParameterKind
  }

  // ---------------------------------------------------------------------
  // The tables of `GraphBuilder`
  // ---------------------------------------------------------------------

  /** Every node is stored under its own key, built from its path and name, with an id already handed out. */
  ghost predicate NodeTableValid(nodes: OMap<string, Node>, nextId: nat) {
    nodes.Valid() &&
    forall k :: k in nodes.entries ==>
      var n := nodes.entries[k];
      n.key == k && k == NodeKey(n.filepath, n.displayName) && n.id < nextId && !n.hidden
  }

  /** An edge joins two stored nodes, carries their ids, and has weight 1 and no snippets. */
  ghost predicate EdgeFits(e: Edge, k: string, ends: (string, string), nodes: OMap<string, Node>, nextId: nat) {
    e.key == k && k == EdgeKey(ends.0, ends.1) &&
    ends.0 in nodes.entries && ends.1 in nodes.entries &&
    e.source == nodes.entries[ends.0].id && e.target == nodes.entries[ends.1].id &&
    e.weight == 1 && e.snippets == [] && e.id < nextId
  }

  /** The invariant of the node and edge tables; `ends` records the node keys each edge was built from. */
  ghost predicate TablesValid(
    nodes: OMap<string, Node>, edges: OMap<string, Edge>,
    ends: map<string, (string, string)>, nextId: nat)
  {
    NodeTableValid(nodes, nextId) && edges.Valid() && ends.Keys == edges.entries.Keys &&
    forall k :: k in edges.entries ==> k in ends && EdgeFits(edges.entries[k], k, ends[k], nodes, nextId)
  }

  ghost predicate SymbolTableValid(symbols: OMap<string, CgSymbol>, nextId: nat) {
    symbols.Valid() &&
    forall k :: k in symbols.entries ==> symbols.entries[k].key == k && symbols.entries[k].id < nextId
  }

  ghost predicate ReferenceTableValid(references: OMap<string, CgReference>, nextId: nat) {
    references.Valid() &&
    forall k :: k in references.entries ==> references.entries[k].key == k && references.entries[k].id < nextId
  }

  /**
   * `addNode` on the node table and the id counter: a key already present
   * leaves both as they are; a new key gets a fresh, visible node.
   */
  function InsertNode(
    nodes: OMap<string, Node>, nextId: nat, nodeType: NodeType,
    filepath: string, displayName: string, lineno: int, colno: int): (r: (OMap<string, Node>, nat))
    requires nodes.Valid()
    ensures r.0.Valid()
    ensures r.0.entries.Keys == nodes.entries.Keys + {NodeKey(filepath, displayName)}
    ensures forall k :: k in nodes.entries ==> r.0.entries[k] == nodes.entries[k]
    ensures NodeTableValid(nodes, nextId) ==> NodeTableValid(r.0, r.1)
    ensures nextId <= r.1 <= nextId + 1
  {
    var key := NodeKey(filepath, displayName);
    if key in nodes.entries then (nodes, nextId)
    else (nodes.Put(key, Node(nextId, key, nodeType, displayName, filepath, lineno, colno, false)), nextId + 1)
  }

  /** `addEdge` on the edge table: a key already present is left alone, a new key gets a fresh edge of weight 1. */
  function InsertEdge(edges: OMap<string, Edge>, nextId: nat, key: string, source: Id, target: Id): (r: (OMap<string, Edge>, nat))
    requires edges.Valid()
    ensures r.0.Valid()
    ensures r.0.entries.Keys == edges.entries.Keys + {key}
    ensures forall k :: k in edges.entries ==> r.0.entries[k] == edges.entries[k]
    ensures nextId <= r.1 <= nextId + 1
  {
    if key in edges.entries then (edges, nextId)
    else (edges.Put(key, Edge(nextId, key, source, target, 1, [])), nextId + 1)
  }

  /** The two `addNode` calls `addEdge` starts with: source first, then destination. */
  function InsertEndpoints(
    nodes: OMap<string, Node>, nextId: nat,
    srcType: NodeType, srcFile: string, srcName: string, srcLine: int, srcCol: int,
    dstType: NodeType, dstFile: string, dstName: string, dstLine: int, dstCol: int): (r: (OMap<string, Node>, nat))
    requires nodes.Valid()
    ensures r.0.Valid()
    ensures r.0.entries.Keys == nodes.entries.Keys + {NodeKey(srcFile, srcName), NodeKey(dstFile, dstName)}
    ensures forall k :: k in nodes.entries ==> r.0.entries[k] == nodes.entries[k]
  {
    var (n1, c1) := InsertNode(nodes, nextId, srcType, srcFile, srcName, srcLine, srcCol);
    InsertNode(n1, c1, dstType, dstFile, dstName, dstLine, dstCol)
  }

  /** Raising the id counter keeps every table valid. */
  lemma CounterRaised(
    nodes: OMap<string, Node>, edges: OMap<string, Edge>, ends: map<string, (string, string)>,
    symbols: OMap<string, CgSymbol>, references: OMap<string, CgReference>, nextId: nat, nextId2: nat)
    requires nextId <= nextId2
    ensures TablesValid(nodes, edges, ends, nextId) ==> TablesValid(nodes, edges, ends, nextId2)
    ensures SymbolTableValid(symbols, nextId) ==> SymbolTableValid(symbols, nextId2)
    ensures ReferenceTableValid(references, nextId) ==> ReferenceTableValid(references, nextId2)
  {
  }

  /** Adding nodes keeps every edge valid, because stored nodes never change. */
  lemma NodesGrown(
    nodes: OMap<string, Node>, edges: OMap<string, Edge>, ends: map<string, (string, string)>,
    nextId: nat, nodes2: OMap<string, Node>, nextId2: nat)
    requires TablesValid(nodes, edges, ends, nextId)
    requires NodeTableValid(nodes2, nextId2) && nextId <= nextId2
    requires forall k :: k in nodes.entries ==> k in nodes2.entries && nodes2.entries[k] == nodes.entries[k]
    ensures TablesValid(nodes2, edges, ends, nextId2)
  {
    forall k | k in edges.entries
      ensures k in ends && EdgeFits(edges.entries[k], k, ends[k], nodes2, nextId2)
    {
      assert EdgeFits(edges.entries[k], k, ends[k], nodes, nextId);
    }
  }

  /** A fresh edge between two stored nodes keeps the tables valid. */
  lemma EdgeAdded(
    nodes: OMap<string, Node>, edges: OMap<string, Edge>, ends: map<string, (string, string)>,
    nextId: nat, a: string, b: string)
    requires TablesValid(nodes, edges, ends, nextId)
    requires a in nodes.entries && b in nodes.entries && EdgeKey(a, b) !in edges.entries
    ensures
      var key := EdgeKey(a, b);
      TablesValid(nodes, edges.Put(key, Edge(nextId, key, nodes.entries[a].id, nodes.entries[b].id, 1, [])),
        ends[key := (a, b)], nextId + 1)
  {
    var key := EdgeKey(a, b);
    var edges2 := edges.Put(key, Edge(nextId, key, nodes.entries[a].id, nodes.entries[b].id, 1, []));
    var ends2 := ends[key := (a, b)];
    forall k | k in edges2.entries
      ensures k in ends2 && EdgeFits(edges2.entries[k], k, ends2[k], nodes, nextId + 1)
    {
      if k != key {
        assert EdgeFits(edges.entries[k], k, ends[k], nodes, nextId);
      }
    }
  }

  /** Every table of a builder is valid under the same id counter. */
  ghost predicate BuilderValid(
    nodes: OMap<string, Node>, edges: OMap<string, Edge>, ends: map<string, (string, string)>,
    symbols: OMap<string, CgSymbol>, references: OMap<string, CgReference>, nextId: nat)
  {
    TablesValid(nodes, edges, ends, nextId) &&
    SymbolTableValid(symbols, nextId) &&
    ReferenceTableValid(references, nextId)
  }

  /** Storing a node, and counting its id, keeps the builder valid. */
  lemma NodeStored(
    nodes: OMap<string, Node>, edges: OMap<string, Edge>, ends: map<string, (string, string)>,
    symbols: OMap<string, CgSymbol>, references: OMap<string, CgReference>, nextId: nat,
    nodeType: NodeType, filepath: string, displayName: string, lineno: int, colno: int)
    requires BuilderValid(nodes, edges, ends, symbols, references, nextId)
    ensures
      var (nodes2, nextId2) := InsertNode(nodes, nextId, nodeType, filepath, displayName, lineno, colno);
      BuilderValid(nodes2, edges, ends, symbols, references, nextId2)
  {
    var (nodes2, nextId2) := InsertNode(nodes, nextId, nodeType, filepath, displayName, lineno, colno);
    NodesGrown(nodes, edges, ends, nextId, nodes2, nextId2);
    CounterRaised(nodes, edges, ends, symbols, references, nextId, nextId2);
  }

  /** Storing a fresh edge between two stored nodes, and counting its id, keeps the builder valid. */
  lemma EdgeStored(
    nodes: OMap<string, Node>, edges: OMap<string, Edge>, ends: map<string, (string, string)>,
    symbols: OMap<string, CgSymbol>, references: OMap<string, CgReference>, nextId: nat, a: string, b: string)
    requires BuilderValid(nodes, edges, ends, symbols, references, nextId)
    requires a in nodes.entries && b in nodes.entries && EdgeKey(a, b) !in edges.entries
    ensures
      var (edges2, nextId2) := InsertEdge(edges, nextId, EdgeKey(a, b), nodes.entries[a].id, nodes.entries[b].id);
      BuilderValid(nodes, edges2, ends[EdgeKey(a, b) := (a, b)], symbols, references, nextId2)
  {
    EdgeAdded(nodes, edges, ends, nextId, a, b);
    CounterRaised(nodes, edges, ends, symbols, references, nextId, nextId + 1);
  }

  /** The first record stored under a key stays; later ones with the same key are dropped. */
  function InsertFirst<V>(m: OMap<string, V>, k: string, v: V): (r: OMap<string, V>)
    requires m.Valid()
    ensures r.Valid()
    ensures r.entries.Keys == m.entries.Keys + {k}
    ensures forall j :: j in m.entries ==> r.entries[j] == m.entries[j]
  {
    if k in m.entries then m else m.Put(k, v)
  }

  /** Storing records one by one: each key keeps the first record that came with it. */
  function InsertAllFirst<V>(m: OMap<string, V>, kvs: seq<(string, V)>): (r: OMap<string, V>)
    requires m.Valid()
    ensures r.Valid()
    decreases |kvs|
  {
    if kvs == [] then m else InsertAllFirst(InsertFirst(m, kvs[0].0, kvs[0].1), kvs[1..])
  }

  /** After any run of `addSymbol` or `addReference`, a key holds the first record that came with it. */
  lemma {:induction false} FirstRecordWins<V>(m: OMap<string, V>, kvs: seq<(string, V)>, i: nat)
    requires m.Valid()
    requires i < |kvs| && kvs[i].0 !in m.entries
    requires forall j :: 0 <= j < i ==> kvs[j].0 != kvs[i].0
    ensures kvs[i].0 in InsertAllFirst(m, kvs).entries && InsertAllFirst(m, kvs).entries[kvs[i].0] == kvs[i].1
    decreases |kvs|
  {
    var m1 := InsertFirst(m, kvs[0].0, kvs[0].1);
    if i == 0 {
      KeptOnceStored(m1, kvs[1..], kvs[0].0);
    } else {
      FirstRecordWins(m1, kvs[1..], i - 1);
    }
  }

  /** A key that is already stored keeps its record through any run of inserts. */
  lemma {:induction false} KeptOnceStored<V>(m: OMap<string, V>, kvs: seq<(string, V)>, k: string)
    requires m.Valid() && k in m.entries
    ensures k in InsertAllFirst(m, kvs).entries && InsertAllFirst(m, kvs).entries[k] == m.entries[k]
    decreases |kvs|
  {
    if kvs != [] {
      KeptOnceStored(InsertFirst(m, kvs[0].0, kvs[0].1), kvs[1..], k);
    }
  }

  /**
   * `addSymbol` returns a fresh record every time; its id ends up in the
   * table exactly when its key was new.
   */
  lemma ReturnedSymbolStoredIffNew(symbols: OMap<string, CgSymbol>, nextId: nat, s: CgSymbol)
    requires SymbolTableValid(symbols, nextId) && s.id == nextId
    ensures InsertFirst(symbols, s.key, s).entries[s.key].id == s.id <==> s.key !in symbols.entries
  {
  }

  /** The same for `addReference`. */
  lemma ReturnedReferenceStoredIffNew(references: OMap<string, CgReference>, nextId: nat, r: CgReference)
    requires ReferenceTableValid(references, nextId) && r.id == nextId
    ensures InsertFirst(references, r.key, r).entries[r.key].id == r.id <==> r.key !in references.entries
  {
  }

  // ---------------------------------------------------------------------
  // verify and graph()
  // ---------------------------------------------------------------------

  /**
   * What `verify` checks of one edge: `const [src, dst] = key.split("||")`,
   * and both must name stored nodes (a missing `dst` is `undefined`).
   */
  predicate Resolves(nodes: map<string, Node>, key: string) {
    var parts := Split(key, "||");
    parts[0] in nodes && |parts| >= 2 && parts[1] in nodes
  }

  /** The first edge, in table order, that `verify` rejects. */
  function FirstUnresolved(nodes: map<string, Node>, edges: seq<Edge>): (r: Option<Edge>)
    ensures r.None? <==> forall i :: 0 <= i < |edges| ==> Resolves(nodes, edges[i].key)
    ensures r.Some? ==> exists i :: (0 <= i < |edges| && edges[i] == r.value && !Resolves(nodes, r.value.key) &&
      forall j :: 0 <= j < i ==> Resolves(nodes, edges[j].key))
    decreases |edges|
  {
    if edges == [] then None
    else if !Resolves(nodes, edges[0].key) then Some(edges[0])
    else
      var rest := FirstUnresolved(nodes, edges[1..]);
      assert forall i :: 1 <= i < |edges| ==> edges[i] == edges[1..][i - 1];
      rest
  }

  /** The message `verify` throws for an edge it rejects: the edge's key, then the ids of its two ends. */
  function UnresolvedMessage(e: Edge): string {
    "Edge " + e.key + " references non-existent nodes " + NatToString(e.source) + " and " + NatToString(e.target)
  }

  /** `graph()`: the stored nodes and edges in insertion order, or the error `verify` throws. */
  function GraphOf(nodes: OMap<string, Node>, edges: OMap<string, Edge>): Result<Graph>
    requires nodes.Valid() && edges.Valid()
  {
    match FirstUnresolved(nodes.entries, edges.Values())
    case Some(e) => Failure(UnresolvedMessage(e))
    case None => Success(Graph(nodes.Values(), edges.Values()))
  }

  /**
   * A node key `verify` can split back out of an edge key: it holds no
   * `||` and does not end in `|`.
   */
  predicate SafeKey(k: string) {
    Free(k, "||") && !EndsWith(k, "|")
  }

  /** A path and a name without `|`, the name not empty, give a safe node key. */
  lemma NodeKeySafe(filepath: string, displayName: string)
    requires '|' !in filepath && '|' !in displayName && displayName != ""
    ensures SafeKey(NodeKey(filepath, displayName))
  {
    var k := NodeKey(filepath, displayName);
    forall j | 0 <= j <= |k| ensures !Occurs(k, "||", j) {
      if j + 2 <= |k| {
        assert k[j..j + 2] == [k[j], k[j + 1]];
        if j < |filepath| {
          assert k[j] == filepath[j];
        } else if j == |filepath| {
          assert k[j + 1] == displayName[0];
        } else {
          assert k[j] == displayName[j - |filepath| - 1];
        }
      }
    }
    assert k[|k| - 1..] == [displayName[|displayName| - 1]];
  }

  /** An edge key built from two safe node keys splits back into exactly those keys. */
  lemma EdgeKeySplits(a: string, b: string)
    requires SafeKey(a) && SafeKey(b)
    ensures Split(EdgeKey(a, b), "||") == [a, b]
  {
    var s := EdgeKey(a, b);
    forall j | 0 <= j < |a| ensures !Occurs(s, "||", j) {
      if j + 2 <= |a| {
        assert s[j..j + 2] == a[j..j + 2];
        assert !Occurs(a, "||", j);
      } else {
        assert s[j..j + 2] == [a[|a| - 1], '|'];
        assert a[|a| - 1..] == [a[|a| - 1]];
        assert a[|a| - 1] != '|';
      }
    }
    SplitTwo(a, "||", b);
  }

  /**
   * When every stored node key is safe, `verify` accepts every edge and
   * `graph()` returns exactly the stored nodes and edges, in insertion order.
   */
  lemma GraphSucceedsWhenKeysSafe(
    nodes: OMap<string, Node>, edges: OMap<string, Edge>,
    ends: map<string, (string, string)>, nextId: nat)
    requires TablesValid(nodes, edges, ends, nextId)
    requires forall k :: k in nodes.entries ==> SafeKey(k)
    ensures GraphOf(nodes, edges) == Success(Graph(nodes.Values(), edges.Values()))
  {
    var es := edges.Values();
    forall i | 0 <= i < |es| ensures Resolves(nodes.entries, es[i].key) {
      var k := edges.keys[i];
      assert k in edges.entries;
      assert es[i] == edges.entries[k];
      EdgeKeySplits(ends[k].0, ends[k].1);
    }
  }

  /** Every stored node key holds a `|`, right after the node's path. */
  lemma NodeKeysHoldBar(nodes: OMap<string, Node>, nextId: nat, k: string)
    requires NodeTableValid(nodes, nextId) && k in nodes.entries
    ensures '|' in k
  {
    var n := nodes.entries[k];
    assert k[|n.filepath|] == '|';
  }

  /**
   * The key of an edge from a node with an empty name, whose path holds no
   * `|`: `path|` followed by `||` gives `path|||dst`, whose first `||`
   * comes right after `path`. So the key splits first into `path`, which
   * no stored node key can be.
   */
  lemma EmptyNameKeyDoesNotResolve(nodes: OMap<string, Node>, nextId: nat, path: string, dst: string)
    requires NodeTableValid(nodes, nextId) && '|' !in path
    ensures !Resolves(nodes.entries, EdgeKey(NodeKey(path, ""), dst))
  {
    var key := EdgeKey(NodeKey(path, ""), dst);
    assert key == path + "|||" + dst;
    assert Occurs(key, "||", |path|) by {
      assert key[|path|..|path| + 2] == "||";
    }
    forall j | 0 <= j < |path| ensures !Occurs(key, "||", j) {
      assert key[j] == path[j];
    }
    FindFromFirst(key, "||", 0);
    var i := FindFrom(key, "||", 0);
    assert i == |path|;
    assert key[..i] == path;
    assert Split(key, "||")[0] == path;
    if path in nodes.entries {
      NodeKeysHoldBar(nodes, nextId, path);
      assert false;
    }
  }

  /**
   * `verify` can reject an edge the builder itself made: a source symbol
   * with an empty name gives the node key `path|`, and the edge key from it
   * does not split back into its two node keys, so `graph()` throws.
   */
  lemma EmptyNameEdgeFailsVerify(
    nodes: OMap<string, Node>, edges: OMap<string, Edge>,
    ends: map<string, (string, string)>, nextId: nat, path: string, dst: string)
    requires TablesValid(nodes, edges, ends, nextId) && '|' !in path
    requires EdgeKey(NodeKey(path, ""), dst) in edges.entries
    ensures GraphOf(nodes, edges).Failure?
  {
    var key := EdgeKey(NodeKey(path, ""), dst);
    EmptyNameKeyDoesNotResolve(nodes, nextId, path, dst);
    var i :| 0 <= i < |edges.keys| && edges.keys[i] == key;
    assert edges.Values()[i].key == key;
  }

  /** Some stored node has the id. */
  predicate HasId(nodes: map<string, Node>, id: Id) {
    exists k :: k in nodes && nodes[k].id == id
  }

  /** Both ends of the edge are ids of stored nodes: what `verify` is meant to assert. */
  predicate EndsStored(nodes: map<string, Node>, e: Edge) {
    HasId(nodes, e.source) && HasId(nodes, e.target)
  }

  /** The first edge, in table order, whose source or target id is no stored node's. */
  function FirstDangling(nodes: map<string, Node>, edges: seq<Edge>): (r: Option<Edge>)
    ensures r.None? <==> forall i :: 0 <= i < |edges| ==> EndsStored(nodes, edges[i])
    ensures r.Some? ==> exists i :: (0 <= i < |edges| && edges[i] == r.value && !EndsStored(nodes, r.value) &&
      forall j :: 0 <= j < i ==> EndsStored(nodes, edges[j]))
    decreases |edges|
  {
    if edges == [] then None
    else if !EndsStored(nodes, edges[0]) then Some(edges[0])
    else
      var rest := FirstDangling(nodes, edges[1..]);
      assert forall i :: 1 <= i < |edges| ==> edges[i] == edges[1..][i - 1];
      rest
  }

  /**
   * `graph()` with `verify` checking what its comment says it asserts, that
   * every edge's source and target exist as nodes, by their ids rather than
   * by splitting the edge key.
   */
  function GraphOfByIds(nodes: OMap<string, Node>, edges: OMap<string, Edge>): Result<Graph>
    requires nodes.Valid() && edges.Valid()
  {
    match FirstDangling(nodes.entries, edges.Values())
    case Some(e) => Failure(UnresolvedMessage(e))
    case None => Success(Graph(nodes.Values(), edges.Values()))
  }

  /**
   * Checked by ids, `graph()` accepts every edge the builder made, whatever
   * the names and paths, and returns the stored nodes and edges in
   * insertion order.
   */
  lemma GraphByIdsAcceptsBuilt(
    nodes: OMap<string, Node>, edges: OMap<string, Edge>,
    ends: map<string, (string, string)>, nextId: nat)
    requires TablesValid(nodes, edges, ends, nextId)
    ensures GraphOfByIds(nodes, edges) == Success(Graph(nodes.Values(), edges.Values()))
  {
    var es := edges.Values();
    forall i | 0 <= i < |es| ensures EndsStored(nodes.entries, es[i]) {
      var k := edges.keys[i];
      assert k in edges.entries;
      assert es[i] == edges.entries[k];
      assert nodes.entries[ends[k].0].id == es[i].source;
      assert nodes.entries[ends[k].1].id == es[i].target;
    }
  }

  // ---------------------------------------------------------------------
  // GraphBuilder
  // ---------------------------------------------------------------------

  /** `GraphBuilder`: four tables keyed by strings, each remembering insertion order. */
  class GraphBuilder {
    var symbolsByKey: OMap<string, CgSymbol>
    var referencesByKey: OMap<string, CgReference>
    var nodesByKey: OMap<string, Node>
    var edgesByKey: OMap<string, Edge>
    /** The id the next created record receives, standing for `generateRandomId(12)`. */
    var nextId: nat
    /** For each edge key, the keys of the two nodes the edge was built from. */
    ghost var edgeEnds: map<string, (string, string)>

    ghost predicate Valid()
      reads this
    {
      BuilderValid(nodesByKey, edgesByKey, edgeEnds, symbolsByKey, referencesByKey, nextId)
    }

    ghost function NodeKeys(): set<string>
      reads this
    {
      nodesByKey.entries.Keys
    }

    ghost function EdgeKeys(): set<string>
      reads this
    {
      edgesByKey.entries.Keys
    }

    constructor()
      ensures Valid()
      ensures nodesByKey == Empty() && edgesByKey == Empty()
      ensures symbolsByKey == Empty() && referencesByKey == Empty()
    {
      symbolsByKey := Empty();
      referencesByKey := Empty();
      nodesByKey := Empty();
      edgesByKey := Empty();
      nextId := 0;
      edgeEnds := map[];
    }

    /**
     * `addNode`: returns the node stored under `filepath|displayName`,
     * creating it first when the key is new. A repeated key returns the
     * stored node as it is and ignores the new type, line and column.
     */
    method AddNode(nodeType: NodeType, filepath: string, displayName: string, lineno: int, colno: int)
      returns (node: Node)
      requires Valid()
      modifies this
      ensures Valid()
      ensures node.key == NodeKey(filepath, displayName)
      ensures node.key in nodesByKey.entries && nodesByKey.entries[node.key] == node
      ensures old(node.key in nodesByKey.entries) ==> node == old(nodesByKey.entries[node.key])
      ensures old(node.key !in nodesByKey.entries) ==>
        node == Node(old(nextId), node.key, nodeType, displayName, filepath, lineno, colno, false)
      ensures (nodesByKey, nextId) == InsertNode(old(nodesByKey), old(nextId), nodeType, filepath, displayName, lineno, colno)
      ensures edgesByKey == old(edgesByKey) && edgeEnds == old(edgeEnds)
      ensures symbolsByKey == old(symbolsByKey) && referencesByKey == old(referencesByKey)
    {
      var key := NodeKey(filepath, displayName);
      if key in nodesByKey.entries {
        node := nodesByKey.entries[key];
        return;
      }
      node := Node(nextId, key, nodeType, displayName, filepath, lineno, colno, false);
      NodeStored(nodesByKey, edgesByKey, edgeEnds, symbolsByKey, referencesByKey, nextId,
        nodeType, filepath, displayName, lineno, colno);
      nextId := nextId + 1;
      nodesByKey := nodesByKey.Put(key, node);
    }

    /**
     * `addEdge`: upserts both endpoint nodes, then returns the edge stored
     * under `srcKey||dstKey`, creating it with weight 1, no snippets and the
     * endpoint ids when the key is new.
     */
    method AddEdge(
      srcType: NodeType, srcFile: string, srcName: string, srcLine: int, srcCol: int,
      dstType: NodeType, dstFile: string, dstName: string, dstLine: int, dstCol: int)
      returns (edge: Edge)
      requires Valid()
      modifies this
      ensures Valid()
      ensures edge.key == EdgeKey(NodeKey(srcFile, srcName), NodeKey(dstFile, dstName))
      ensures edge.key in edgesByKey.entries && edgesByKey.entries[edge.key] == edge
      ensures edge.weight == 1 && edge.snippets == []
      ensures old(edge.key in edgesByKey.entries) ==> edge == old(edgesByKey.entries[edge.key])
      ensures NodeKeys() == old(NodeKeys()) + {NodeKey(srcFile, srcName), NodeKey(dstFile, dstName)}
      ensures EdgeKeys() == old(EdgeKeys()) + {edge.key}
      ensures old(edge.key !in edgesByKey.entries) ==>
        edge.source == nodesByKey.entries[NodeKey(srcFile, srcName)].id &&
        edge.target == nodesByKey.entries[NodeKey(dstFile, dstName)].id
      ensures
        var ends := InsertEndpoints(old(nodesByKey), old(nextId),
          srcType, srcFile, srcName, srcLine, srcCol, dstType, dstFile, dstName, dstLine, dstCol);
        nodesByKey == ends.0 &&
        (edgesByKey, nextId) == InsertEdge(old(edgesByKey), ends.1, edge.key,
          ends.0.entries[NodeKey(srcFile, srcName)].id, ends.0.entries[NodeKey(dstFile, dstName)].id)
      ensures symbolsByKey == old(symbolsByKey) && referencesByKey == old(referencesByKey)
    {
      ghost var n0, c0 := nodesByKey, nextId;
      var src := AddNode(srcType, srcFile, srcName, srcLine, srcCol);
      ghost var n1 := nodesByKey;
      var dst := AddNode(dstType, dstFile, dstName, dstLine, dstCol);
      ghost var ends := InsertEndpoints(n0, c0,
        srcType, srcFile, srcName, srcLine, srcCol, dstType, dstFile, dstName, dstLine, dstCol);
      assert nodesByKey == ends.0 && nextId == ends.1;
      assert src == n1.entries[src.key] == nodesByKey.entries[src.key];
      edge := StoreEdge(src.key, dst.key);
    }

    /** The second half of `addEdge`: the edge between two stored nodes, created when its key is new. */
    method StoreEdge(srcKey: string, dstKey: string) returns (edge: Edge)
      requires Valid()
      requires srcKey in nodesByKey.entries && dstKey in nodesByKey.entries
      modifies this
      ensures Valid()
      ensures edge.key == EdgeKey(srcKey, dstKey)
      ensures edge.key in edgesByKey.entries && edgesByKey.entries[edge.key] == edge
      ensures (edgesByKey, nextId) == old(InsertEdge(edgesByKey, nextId, EdgeKey(srcKey, dstKey),
        nodesByKey.entries[srcKey].id, nodesByKey.entries[dstKey].id))
      ensures nodesByKey == old(nodesByKey)
      ensures symbolsByKey == old(symbolsByKey) && referencesByKey == old(referencesByKey)
    {
      var key := EdgeKey(srcKey, dstKey);
      if key in edgesByKey.entries {
        edge := edgesByKey.entries[key];
      } else {
        edge := CreateEdge(srcKey, dstKey);
      }
    }

    /** The edge between two stored nodes whose key is new: weight 1, no snippets, the next id. */
    method CreateEdge(srcKey: string, dstKey: string) returns (edge: Edge)
      requires Valid()
      requires srcKey in nodesByKey.entries && dstKey in nodesByKey.entries
      requires EdgeKey(srcKey, dstKey) !in edgesByKey.entries
      modifies this
      ensures Valid()
      ensures edge.key == EdgeKey(srcKey, dstKey)
      ensures edge.key in edgesByKey.entries && edgesByKey.entries[edge.key] == edge
      ensures (edgesByKey, nextId) == old(InsertEdge(edgesByKey, nextId, EdgeKey(srcKey, dstKey),
        nodesByKey.entries[srcKey].id, nodesByKey.entries[dstKey].id))
      ensures nodesByKey == old(nodesByKey)
      ensures symbolsByKey == old(symbolsByKey) && referencesByKey == old(referencesByKey)
    {
      var key := EdgeKey(srcKey, dstKey);
      EdgeStored(nodesByKey, edgesByKey, edgeEnds, symbolsByKey, referencesByKey, nextId, srcKey, dstKey);
      var (edges2, nextId2) := InsertEdge(edgesByKey, nextId, key, nodesByKey.entries[srcKey].id, nodesByKey.entries[dstKey].id);
      edgeEnds := edgeEnds[key := (srcKey, dstKey)];
      nextId, edgesByKey := nextId2, edges2;
      edge := edgesByKey.entries[key];
      assert BuilderValid(nodesByKey, edgesByKey, edgeEnds, symbolsByKey, referencesByKey, nextId);
    }

    /** `verify`: the first edge whose endpoints cannot be found again, if any. */
    method Verify() returns (failure: Option<Edge>)
      requires edgesByKey.Valid()
      ensures failure == FirstUnresolved(nodesByKey.entries, edgesByKey.Values())
    {
      var edges := edgesByKey.Values();
      var i := 0;
      while i < |edges|
        invariant 0 <= i <= |edges|
        invariant FirstUnresolved(nodesByKey.entries, edges) == FirstUnresolved(nodesByKey.entries, edges[i..])
      {
        assert edges[i..][1..] == edges[i + 1..];
        assert edges[i..][0] == edges[i];
        var parts := Split(edges[i].key, "||");
        var src := parts[0];
        var dst := if |parts| >= 2 then Some(parts[1]) else None;
        if src !in nodesByKey.entries || dst.None? || dst.value !in nodesByKey.entries {
          return Some(edges[i]);
        }
        i := i + 1;
      }
      return None;
    }

    /** `graph()`: runs `verify`, then lists the stored nodes and edges. */
    method GetGraph() returns (r: Result<Graph>)
      requires Valid()
      ensures r == GraphOf(nodesByKey, edgesByKey)
    {
      var failure := Verify();
      if failure.Some? {
        return Failure(UnresolvedMessage(failure.value));
      }
      return Success(Graph(nodesByKey.Values(), edgesByKey.Values()));
    }

    /**
     * `addSymbol`: builds a fresh symbol record keyed `fsPath|name` and
     * stores it only when the key is new; the fresh record is returned
     * either way.
     */
    method AddSymbol(raw: SymbolInfo, file: string) returns (symbol: CgSymbol)
      requires Valid()
      modifies this
      ensures Valid()
      ensures symbol == CgSymbol(old(nextId), NodeKey(file, raw.name), raw.name, file,
        raw.position.line, raw.position.character, raw.kind)
      ensures nextId == old(nextId) + 1
      ensures symbolsByKey == InsertFirst(old(symbolsByKey), symbol.key, symbol)
      ensures nodesByKey == old(nodesByKey) && edgesByKey == old(edgesByKey) && edgeEnds == old(edgeEnds)
      ensures referencesByKey == old(referencesByKey)
    {
      symbol := CgSymbol(nextId, NodeKey(file, raw.name), raw.name, file,
        raw.position.line, raw.position.character, raw.kind);
      nextId := nextId + 1;
      if symbol.key !in symbolsByKey.entries {
        symbolsByKey := symbolsByKey.Put(symbol.key, symbol);
      }
    }

    /**
     * `addReference`: builds a fresh reference record keyed by the file and
     * start line of the location, pointing at the given symbol's id, and
     * stores it only when the key is new.
     */
    method AddReference(raw: Location, symbol: CgSymbol) returns (reference: CgReference)
      requires Valid()
      modifies this
      ensures Valid()
      ensures reference == CgReference(old(nextId), ReferenceKey(raw.file, raw.pos.line), symbol.id,
        raw.file, raw.pos.line, raw.pos.character)
      ensures nextId == old(nextId) + 1
      ensures referencesByKey == InsertFirst(old(referencesByKey), reference.key, reference)
      ensures nodesByKey == old(nodesByKey) && edgesByKey == old(edgesByKey) && edgeEnds == old(edgeEnds)
      ensures symbolsByKey == old(symbolsByKey)
    {
      reference := CgReference(nextId, ReferenceKey(raw.file, raw.pos.line), symbol.id,
        raw.file, raw.pos.line, raw.pos.character);
      nextId := nextId + 1;
      if reference.key !in referencesByKey.entries {
        referencesByKey := referencesByKey.Put(reference.key, reference);
      }
    }

    /** `symbolsAndReferences()`: every stored record once, each the one stored under its own key. */
    function GetSymbolsAndReferences(): (r: SymbolsAndReferences)
      requires Valid()
      reads this
      ensures |r.symbols| == |symbolsByKey.keys| && |r.references| == |referencesByKey.keys|
      ensures forall i :: 0 <= i < |r.symbols| ==>
        r.symbols[i].key == symbolsByKey.keys[i] && symbolsByKey.entries[r.symbols[i].key] == r.symbols[i]
      ensures forall i :: 0 <= i < |r.references| ==>
        r.references[i].key == referencesByKey.keys[i] && referencesByKey.entries[r.references[i].key] == r.references[i]
    {
      SymbolsAndReferences(symbolsByKey.Values(), referencesByKey.Values())
    }
  }

  // ---------------------------------------------------------------------
  // merge
  // ---------------------------------------------------------------------

  /** `nodes.set(node.id, node)` for each node in turn. */
  function PutNodes(m: OMap<Id, Node>, ns: seq<Node>): (r: OMap<Id, Node>)
    requires m.Valid()
    ensures r.Valid()
    decreases |ns|
  {
    if ns == [] then m else PutNodes(m.Put(ns[0].id, ns[0]), ns[1..])
  }

  /** `edges.set(edge.id, edge)` for each edge in turn. */
  function PutEdges(m: OMap<Id, Edge>, es: seq<Edge>): (r: OMap<Id, Edge>)
    requires m.Valid()
    ensures r.Valid()
    decreases |es|
  {
    if es == [] then m else PutEdges(m.Put(es[0].id, es[0]), es[1..])
  }

  /** One step of `merge`'s second edge loop: a stored id gains 1 in weight, a new id is stored. */
  function BumpEdge(m: OMap<Id, Edge>, e: Edge): (r: OMap<Id, Edge>)
    requires m.Valid()
    ensures r.Valid()
  {
    if e.id in m.entries then m.Put(e.id, m.entries[e.id].(weight := m.entries[e.id].weight + 1))
    else m.Put(e.id, e)
  }

  /** `merge`'s second edge loop over all of `es`. */
  function BumpEdges(m: OMap<Id, Edge>, es: seq<Edge>): (r: OMap<Id, Edge>)
    requires m.Valid()
    ensures r.Valid()
    decreases |es|
  {
    if es == [] then m else BumpEdges(BumpEdge(m, es[0]), es[1..])
  }

  /** One of `merge`'s node loops: `nodes.set(node.id, node)` for each node in turn. */
  method StoreNodes(m: OMap<Id, Node>, ns: seq<Node>) returns (r: OMap<Id, Node>)
    requires m.Valid()
    ensures r == PutNodes(m, ns)
  {
    r := m;
    var i := 0;
    while i < |ns|
      invariant 0 <= i <= |ns| && r.Valid()
      invariant PutNodes(r, ns[i..]) == PutNodes(m, ns)
    {
      assert ns[i..][1..] == ns[i + 1..];
      r := r.Put(ns[i].id, ns[i]);
      i := i + 1;
    }
  }

  /** `merge`'s first edge loop: `edges.set(edge.id, edge)` for each edge in turn. */
  method StoreEdges(m: OMap<Id, Edge>, es: seq<Edge>) returns (r: OMap<Id, Edge>)
    requires m.Valid()
    ensures r == PutEdges(m, es)
  {
    r := m;
    var i := 0;
    while i < |es|
      invariant 0 <= i <= |es| && r.Valid()
      invariant PutEdges(r, es[i..]) == PutEdges(m, es)
    {
      assert es[i..][1..] == es[i + 1..];
      r := r.Put(es[i].id, es[i]);
      i := i + 1;
    }
  }

  /** `merge`'s second edge loop: a stored id gains 1 in weight, a new id is stored. */
  method StoreOrBumpEdges(m: OMap<Id, Edge>, es: seq<Edge>) returns (r: OMap<Id, Edge>)
    requires m.Valid()
    ensures r == BumpEdges(m, es)
  {
    r := m;
    var i := 0;
    while i < |es|
      invariant 0 <= i <= |es| && r.Valid()
      invariant BumpEdges(r, es[i..]) == BumpEdges(m, es)
    {
      assert es[i..][1..] == es[i + 1..];
      r := BumpEdge(r, es[i]);
      i := i + 1;
    }
  }

  /** `merge(graph1, graph2)` */
  method Merge(g1: Graph, g2: Graph) returns (g: Graph)
    ensures g == Graph(
      PutNodes(PutNodes(Empty(), g1.nodes), g2.nodes).Values(),
      BumpEdges(PutEdges(Empty(), g1.edges), g2.edges).Values())
  {
    var nodes := StoreNodes(Empty(), g1.nodes);
    nodes := StoreNodes(nodes, g2.nodes);
    var edges := StoreEdges(Empty(), g1.edges);
    edges := StoreOrBumpEdges(edges, g2.edges);
    return Graph(nodes.Values(), edges.Values());
  }

  /** The last node in `ns` with the given id. */
  function LastWithId(ns: seq<Node>, id: Id): Option<Node>
    decreases |ns|
  {
    if ns == [] then None
    else if ns[|ns| - 1].id == id then Some(ns[|ns| - 1])
    else LastWithId(ns[..|ns| - 1], id)
  }

  /** Storing nodes by id: each id ends up holding the last node with that id, or what it held before. */
  lemma {:induction false} PutNodesLastWins(m: OMap<Id, Node>, ns: seq<Node>, id: Id)
    requires m.Valid()
    ensures PutNodes(m, ns).Get(id) == (if LastWithId(ns, id).Some? then LastWithId(ns, id) else m.Get(id))
    decreases |ns|
  {
    if ns != [] {
      var m1 := m.Put(ns[0].id, ns[0]);
      PutNodesLastWins(m1, ns[1..], id);
      LastWithIdCons(ns, id);
    }
  }

  /** `LastWithId` seen from the front: the tail's answer, else the head if it matches. */
  lemma {:induction false} LastWithIdCons(ns: seq<Node>, id: Id)
    requires ns != []
    ensures LastWithId(ns, id) ==
      (if LastWithId(ns[1..], id).Some? then LastWithId(ns[1..], id)
       else if ns[0].id == id then Some(ns[0]) else None)
    decreases |ns|
  {
    if |ns| > 1 {
      var init := ns[..|ns| - 1];
      assert init[1..] == ns[1..][..|ns[1..]| - 1];
      assert ns[1..][|ns[1..]| - 1] == ns[|ns| - 1];
      if ns[|ns| - 1].id != id {
        LastWithIdCons(init, id);
      }
    }
  }

  /**
   * `merge` keeps every node id of either graph, and for each id the last
   * node of `graph2` with it, or else the last of `graph1`.
   */
  lemma MergeNodes(g1: Graph, g2: Graph, id: Id)
    ensures PutNodes(PutNodes(Empty(), g1.nodes), g2.nodes).Get(id) ==
      (if LastWithId(g2.nodes, id).Some? then LastWithId(g2.nodes, id) else LastWithId(g1.nodes, id))
  {
    PutNodesLastWins(Empty(), g1.nodes, id);
    PutNodesLastWins(PutNodes(Empty(), g1.nodes), g2.nodes, id);
  }

  /** How many edges in `es` carry the given id. */
  function CountId(es: seq<Edge>, id: Id): nat
    decreases |es|
  {
    if es == [] then 0 else (if es[0].id == id then 1 else 0) + CountId(es[1..], id)
  }

  /** The first edge in `es` with the given id. */
  function FirstWithId(es: seq<Edge>, id: Id): Option<Edge>
    decreases |es|
  {
    if es == [] then None else if es[0].id == id then Some(es[0]) else FirstWithId(es[1..], id)
  }

  /**
   * Raising weights edge by edge: an id already stored gains exactly 1 per
   * later edge with that id; a new id holds its first edge, raised by 1 for
   * each further edge with that id.
   */
  lemma {:induction false} BumpEdgesWeights(m: OMap<Id, Edge>, es: seq<Edge>, id: Id)
    requires m.Valid()
    ensures m.Get(id).Some? ==>
      BumpEdges(m, es).Get(id) == Some(m.Get(id).value.(weight := m.Get(id).value.weight + CountId(es, id)))
    ensures m.Get(id).None? && FirstWithId(es, id).Some? ==>
      var e := FirstWithId(es, id).value;
      BumpEdges(m, es).Get(id) == Some(e.(weight := e.weight + CountId(es, id) - 1))
    ensures m.Get(id).None? && FirstWithId(es, id).None? ==> BumpEdges(m, es).Get(id) == None
    decreases |es|
  {
    if es != [] {
      BumpEdgeGet(m, es[0], id);
      BumpEdgesWeights(BumpEdge(m, es[0]), es[1..], id);
    }
  }

  /** What one step of the loop leaves under an id. */
  lemma BumpEdgeGet(m: OMap<Id, Edge>, e: Edge, id: Id)
    requires m.Valid()
    ensures BumpEdge(m, e).Get(id) ==
      if e.id != id then m.Get(id)
      else if m.Get(id).Some? then Some(m.Get(id).value.(weight := m.Get(id).value.weight + 1))
      else Some(e)
  {
  }

  /**
   * `merge` adds exactly 1 to an edge's weight for every edge of `graph2`
   * that repeats its id, whatever that edge's own weight.
   */
  lemma MergeEdgeWeight(g1: Graph, g2: Graph, id: Id, e1: Edge)
    requires PutEdges(Empty(), g1.edges).Get(id) == Some(e1)
    ensures BumpEdges(PutEdges(Empty(), g1.edges), g2.edges).Get(id) ==
      Some(e1.(weight := e1.weight + CountId(g2.edges, id)))
  {
    BumpEdgesWeights(PutEdges(Empty(), g1.edges), g2.edges, id);
  }
}
