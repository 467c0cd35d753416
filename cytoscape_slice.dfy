/**
 * The folder rollup of the graph view: `getFolderName`, and `rollupFolders`
 * with its inner `rollupDisplayName`, `rollupNode` and `rollupEdge`. The
 * rollup contracts every file node to the folder it lies in, one level below
 * the deepest expanded folder that is a prefix of its name, and merges the
 * edges that end up between the same two rolled nodes.
 */
module CytoscapeSlice {
  import opened Wrappers
  import opened Seqs
  import opened Strings
  import opened ClientGraph

  /** A path with one trailing `/` removed, if it has one. */
  function TrimTrailingSlash(s: string): string {
    if EndsWith(s, "/") then s[..|s| - 1] else s
  }

  /**
   * `getFolderName`: the folder a file or folder lies in, with a trailing
   * `/`; a name of a single segment is returned as it was given.
   */
  function GetFolderName(fileOrFolder: string): string {
    var parts := Split(TrimTrailingSlash(fileOrFolder), "/");
    if |parts| == 1 then fileOrFolder else Join(parts[..|parts| - 1], "/") + "/"
  }

  /** The last piece of a split holds no separator. */
  lemma {:induction false} SplitLastFree(s: string, sep: string)
    requires |sep| > 0
    ensures var parts := Split(s, sep); Free(parts[|parts| - 1], sep)
    decreases |s|
  {
    var i := FindFrom(s, sep, 0);
    FindFromFirst(s, sep, 0);
    if i != -1 {
      SplitLastFree(s[i + |sep|..], sep);
    }
  }

  /** Joining splits at any separator: the first `k` pieces, one separator, the rest. */
  lemma {:induction false} JoinAt(parts: seq<string>, k: nat, sep: string)
    requires 1 <= k < |parts|
    ensures Join(parts, sep) == Join(parts[..k], sep) + sep + Join(parts[k..], sep)
    decreases k
  {
    if k > 1 {
      var rest := parts[1..];
      JoinAt(rest, k - 1, sep);
      assert parts[..k][1..] == rest[..k - 1];
      assert rest[k - 1..] == parts[k..];
    }
  }

  /**
   * `getFolderName` of a name of several segments is the name (without its
   * trailing `/`) up to and including its last `/`; a single segment is
   * returned unchanged.
   */
  lemma GetFolderNameIsParent(fileOrFolder: string)
    ensures var w := TrimTrailingSlash(fileOrFolder);
      var r := GetFolderName(fileOrFolder);
      if SegmentCount(w) == 1 then r == fileOrFolder
      else EndsWith(r, "/") && StartsWith(w, r) && Free(w[|r|..], "/")
  {
    var w := TrimTrailingSlash(fileOrFolder);
    var parts := Split(w, "/");
    if |parts| > 1 {
      var k := |parts| - 1;
      var r := GetFolderName(fileOrFolder);
      JoinSplit(w, "/");
      JoinAt(parts, k, "/");
      SplitLastFree(w, "/");
      assert parts[k..] == [parts[k]];
      assert w == r + parts[k];
      assert w[..|r|] == r && w[|r|..] == parts[k];
    }
  }

  /**
   * The index of the first expanded folder, in list order, that is a string
   * prefix of `name`: the folder the loop of `rollupDisplayName` returns on.
   */
  function FirstMatch(name: string, folders: seq<string>): (r: Option<nat>)
    ensures r.Some? ==>
      r.value < |folders| && StartsWith(name, folders[r.value]) &&
      forall j :: 0 <= j < r.value ==> !StartsWith(name, folders[j])
    ensures r.None? ==> forall j :: 0 <= j < |folders| ==> !StartsWith(name, folders[j])
    decreases |folders|
  {
    if folders == [] then None
    else if StartsWith(name, folders[0]) then Some(0)
    else
      match FirstMatch(name, folders[1..])
      case Some(i) => Some(i + 1)
      case None => None
  }

  /** How many leading segments of `name` the rollup keeps: one more than the matching folder has, or two. */
  function KeptSegments(name: string, folders: seq<string>): nat {
    match FirstMatch(name, folders)
    case Some(i) => SegmentCount(TrimTrailingSlash(folders[i])) + 1
    case None => 2
  }

  /**
   * `rollupDisplayName`: the first `KeptSegments` segments of `name`. It is
   * a prefix of `name`, and `name` itself exactly when `name` has no more
   * segments than that.
   */
  function RollupDisplayName(name: string, folders: seq<string>): (r: string)
    ensures StartsWith(name, r)
    ensures r == name <==> SegmentCount(name) <= KeptSegments(name, folders)
  {
    KeepSegments(name, KeptSegments(name, folders))
  }

  /**
   * With the folders sorted longest first, as the graph state keeps them, the
   * folder that decides is the longest of those that match.
   */
  lemma LongestMatchDecides(name: string, folders: seq<string>, j: nat)
    requires LongestFirst(folders)
    requires j < |folders| && StartsWith(name, folders[j])
    ensures FirstMatch(name, folders).Some?
    ensures JsLength(folders[FirstMatch(name, folders).value]) >= JsLength(folders[j])
    ensures StartsWith(folders[FirstMatch(name, folders).value], folders[j])
  {
    var i := FirstMatch(name, folders).value;
    PrefixesNested(name, folders[j], folders[i]);
  }

  /** A rolled name never keeps fewer than two segments. */
  lemma KeepsAtLeastTwo(name: string, folders: seq<string>)
    ensures KeptSegments(name, folders) >= 2
  {
    match FirstMatch(name, folders)
    case Some(i) =>
      assert |Split(TrimTrailingSlash(folders[i]), "/")| >= 1;
    case None =>
  }

  /** The name a node rolls up to, its `key` after the rollup. */
  function RollKey(n: Node, folders: seq<string>): string {
    RollupDisplayName(n.displayName, folders)
  }

  /** The node `rollupNode` creates for a leaf `n` whose rolled name is `name`. */
  function RolledNode(n: Node, name: string): Node {
    var isFolder := n.displayName != name;
    n.(key := name,
       displayName := if isFolder then name + "/" else name,
       kind := if isFolder then Folder else n.kind)
  }

  /**
   * A rolled node keeps its leaf's id, path and position and takes the
   * rolled name as key. It is a folder named with a trailing `/` exactly
   * when the leaf has more segments than the rollup keeps; otherwise it is
   * the leaf with only its key changed.
   */
  lemma RolledNodeShape(n: Node, folders: seq<string>)
    ensures var name := RollKey(n, folders);
      var r := RolledNode(n, name);
      r.id == n.id && r.filepath == n.filepath && r.lineno == n.lineno && r.colno == n.colno &&
      r.key == name &&
      (SegmentCount(n.displayName) > KeptSegments(n.displayName, folders) <==>
         r.kind == Folder && r.displayName == name + "/" && name != n.displayName) &&
      (SegmentCount(n.displayName) <= KeptSegments(n.displayName, folders) ==> r == n.(key := n.displayName))
  {
    var name := RollKey(n, folders);
    if name != n.displayName {
      assert |name + "/"| != |name|;
    }
  }

  /** The index of the first occurrence of `x` in `s`. */
  function FirstIndex<T(==)>(s: seq<T>, x: T): (r: Option<nat>)
    ensures r.Some? ==> r.value < |s| && s[r.value] == x && forall j :: 0 <= j < r.value ==> s[j] != x
    ensures r.None? <==> x !in s
    decreases |s|
  {
    if s == [] then None
    else
      var f := FirstIndex(s[..|s| - 1], x);
      if f.Some? then f
      else if s[|s| - 1] == x then Some(|s| - 1)
      else None
  }

  /** Looking one element further changes the first occurrence only of an element not seen before. */
  lemma FirstIndexExtend<T>(s: seq<T>, i: nat)
    requires i < |s|
    ensures s[..i + 1] == s[..i] + [s[i]]
    ensures forall x ::
      FirstIndex(s[..i + 1], x) == (if x in s[..i] then FirstIndex(s[..i], x) else if x == s[i] then Some(i) else None)
  {
    assert s[..i + 1][..i] == s[..i];
  }

  /** The naming the rollup applies to every leaf under the expanded `folders`. */
  function Roller(folders: seq<string>): Node -> string {
    n => RollKey(n, folders)
  }

  /** `roll` names every node as the rollup under `folders` does. */
  ghost predicate NamesBy(roll: Node -> string, folders: seq<string>) {
    forall n {:trigger RollKey(n, folders)} :: roll(n) == RollKey(n, folders)
  }

  /** The rolled names of `nodes`, in order. */
  function RollKeys(nodes: seq<Node>, roll: Node -> string): (names: seq<string>)
    ensures |names| == |nodes|
    ensures forall j :: 0 <= j < |nodes| ==> names[j] == roll(nodes[j])
  {
    seq(|nodes|, j requires 0 <= j < |nodes| => roll(nodes[j]))
  }

  /** The rolled node every leaf named `name` maps to: the one made from the first such leaf. */
  function RolledFor(nodes: seq<Node>, roll: Node -> string, name: string): Node
    requires name in RollKeys(nodes, roll)
  {
    RolledNode(nodes[FirstIndex(RollKeys(nodes, roll), name).value], name)
  }

  /** `Object.fromEntries(nodes.map(n => [n.id, n]))`: a table from every node's id to a node with that id. */
  function NodeById(nodes: seq<Node>): (m: map<string, Node>)
    ensures forall j :: 0 <= j < |nodes| ==> nodes[j].id in m
    ensures forall id :: id in m ==> m[id].id == id
    decreases |nodes|
  {
    if nodes == [] then map[]
    else
      var init := nodes[..|nodes| - 1];
      var last := nodes[|nodes| - 1];
      assert forall j :: 0 <= j < |init| ==> init[j] == nodes[j];
      NodeById(init)[last.id := last]
  }

  /** Of several nodes with the same id, the table keeps the last. */
  lemma {:induction false} NodeByIdLastWins(nodes: seq<Node>, j: nat)
    requires j < |nodes|
    requires forall k :: j < k < |nodes| ==> nodes[k].id != nodes[j].id
    ensures NodeById(nodes)[nodes[j].id] == nodes[j]
    decreases |nodes|
  {
    if j < |nodes| - 1 {
      var init := nodes[..|nodes| - 1];
      NodeByIdLastWins(init, j);
    }
  }

  /** The node the table holds for an id is one of `nodes`, at index `p`. */
  lemma {:induction false} NodeByIdFound(nodes: seq<Node>, id: string) returns (p: nat)
    requires id in NodeById(nodes)
    ensures p < |nodes| && nodes[p] == NodeById(nodes)[id]
    decreases |nodes|
  {
    var init := nodes[..|nodes| - 1];
    if id == nodes[|nodes| - 1].id {
      p := |nodes| - 1;
    } else {
      p := NodeByIdFound(init, id);
    }
  }

  /** A node found by id rolls up to a name some leaf has, so there is a rolled node for it. */
  lemma ByIdRolls(nodes: seq<Node>, roll: Node -> string, id: string)
    requires id in NodeById(nodes)
    ensures roll(NodeById(nodes)[id]) in RollKeys(nodes, roll)
  {
    var p := NodeByIdFound(nodes, id);
    assert RollKeys(nodes, roll)[p] == roll(nodes[p]);
  }

  /** Every edge's two ends are ids of nodes: otherwise `rollupNode(undefined)` throws. */
  predicate EndpointsKnown(edges: seq<Edge>, byId: map<string, Node>) {
    forall j :: 0 <= j < |edges| ==> edges[j].source in byId && edges[j].target in byId
  }

  /** The key `rollupEdge` gives an edge: `srcKey -> dstKey` of the rolled ends. */
  function EdgeKey(e: Edge, byId: map<string, Node>, roll: Node -> string): string
    requires e.source in byId && e.target in byId
  {
    roll(byId[e.source]) + " -> " + roll(byId[e.target])
  }

  /** The rolled keys of `edges`, in order. */
  function EdgeKeys(edges: seq<Edge>, byId: map<string, Node>, roll: Node -> string): (keys: seq<string>)
    requires EndpointsKnown(edges, byId)
    ensures |keys| == |edges|
    ensures forall j :: 0 <= j < |edges| ==> keys[j] == EdgeKey(edges[j], byId, roll)
  {
    seq(|edges|, j requires 0 <= j < |edges| => EdgeKey(edges[j], byId, roll))
  }

  /** The id of the rolled node that the node with id `id` maps to. */
  function RolledId(nodes: seq<Node>, roll: Node -> string, id: string): string
    requires id in NodeById(nodes)
  {
    ByIdRolls(nodes, roll, id);
    RolledFor(nodes, roll, roll(NodeById(nodes)[id])).id
  }

  /** The rolled ids of the sources of `edges`, in order. */
  function SourceIds(nodes: seq<Node>, edges: seq<Edge>, roll: Node -> string): (ids: seq<string>)
    requires EndpointsKnown(edges, NodeById(nodes))
    ensures |ids| == |edges|
    ensures forall j :: 0 <= j < |edges| ==> ids[j] == RolledId(nodes, roll, edges[j].source)
  {
    seq(|edges|, j requires 0 <= j < |edges| => RolledId(nodes, roll, edges[j].source))
  }

  /** The rolled ids of the targets of `edges`, in order. */
  function TargetIds(nodes: seq<Node>, edges: seq<Edge>, roll: Node -> string): (ids: seq<string>)
    requires EndpointsKnown(edges, NodeById(nodes))
    ensures |ids| == |edges|
    ensures forall j :: 0 <= j < |edges| ==> ids[j] == RolledId(nodes, roll, edges[j].target)
  {
    seq(|edges|, j requires 0 <= j < |edges| => RolledId(nodes, roll, edges[j].target))
  }

  /** One more edge adds its key to the keys of the edges before it. */
  lemma EdgeKeysExtend(edges: seq<Edge>, byId: map<string, Node>, roll: Node -> string, i: nat)
    requires i < |edges| && EndpointsKnown(edges[..i + 1], byId)
    ensures EndpointsKnown(edges[..i], byId)
    ensures EdgeKeys(edges[..i + 1], byId, roll) == EdgeKeys(edges[..i], byId, roll) + [EdgeKey(edges[i], byId, roll)]
  {
    assert forall j :: 0 <= j < i ==> edges[..i][j] == edges[..i + 1][j];
  }

  /** One more edge adds its rolled source to the rolled sources of the edges before it. */
  lemma SourceIdsExtend(nodes: seq<Node>, edges: seq<Edge>, roll: Node -> string, i: nat)
    requires i < |edges| && EndpointsKnown(edges[..i + 1], NodeById(nodes))
    ensures EndpointsKnown(edges[..i], NodeById(nodes))
    ensures SourceIds(nodes, edges[..i + 1], roll) == SourceIds(nodes, edges[..i], roll) + [RolledId(nodes, roll, edges[i].source)]
  {
    assert EndpointsKnown(edges[..i], NodeById(nodes)) by {
      assert forall j :: 0 <= j < i ==> edges[..i][j] == edges[..i + 1][j];
    }
    var longer, shorter := SourceIds(nodes, edges[..i + 1], roll), SourceIds(nodes, edges[..i], roll);
    forall j | 0 <= j < i
      ensures longer[j] == shorter[j]
    {
      assert edges[..i][j] == edges[..i + 1][j];
    }
    assert longer[i] == RolledId(nodes, roll, edges[i].source);
  }

  /** One more edge adds its rolled target to the rolled targets of the edges before it. */
  lemma TargetIdsExtend(nodes: seq<Node>, edges: seq<Edge>, roll: Node -> string, i: nat)
    requires i < |edges| && EndpointsKnown(edges[..i + 1], NodeById(nodes))
    ensures EndpointsKnown(edges[..i], NodeById(nodes))
    ensures TargetIds(nodes, edges[..i + 1], roll) == TargetIds(nodes, edges[..i], roll) + [RolledId(nodes, roll, edges[i].target)]
  {
    assert EndpointsKnown(edges[..i], NodeById(nodes)) by {
      assert forall j :: 0 <= j < i ==> edges[..i][j] == edges[..i + 1][j];
    }
    var longer, shorter := TargetIds(nodes, edges[..i + 1], roll), TargetIds(nodes, edges[..i], roll);
    forall j | 0 <= j < i
      ensures longer[j] == shorter[j]
    {
      assert edges[..i][j] == edges[..i + 1][j];
    }
    assert longer[i] == RolledId(nodes, roll, edges[i].target);
  }

  /**
   * The edge `rollupEdge` leaves under `key` once all of `edges` are rolled,
   * given each edge's key and rolled ends: a copy of the first edge with
   * that key, keyed, pointing at its rolled ends, with 1 added to its
   * weight for every later edge with the same key.
   */
  function Merged(edges: seq<Edge>, keys: seq<string>, sources: seq<string>, targets: seq<string>, key: string): Edge
    requires |keys| == |edges| && |sources| == |edges| && |targets| == |edges|
    requires key in keys
  {
    var f := FirstIndex(keys, key).value;
    edges[f].(key := Some(key), source := sources[f], target := targets[f],
      weight := edges[f].weight + multiset(keys)[key] - 1)
  }

  /** An edge keyed `key`, pointing at `source` and `target`. */
  function Keyed(e: Edge, key: string, source: string, target: string): Edge {
    e.(key := Some(key), source := source, target := target)
  }

  /** The memo after storing `added` under a new `key`, or adding 1 to the weight already stored under it. */
  function Stored(memo: map<string, Edge>, key: string, added: Edge): map<string, Edge> {
    if key in memo then memo[key := memo[key].(weight := memo[key].weight + 1)] else memo[key := added]
  }

  /** The memo `edgeByKey` after `edges`, with those keys and rolled ends, went through `rollupEdge`. */
  ghost predicate MergedMemo(
    edges: seq<Edge>, keys: seq<string>, sources: seq<string>, targets: seq<string>, memo: map<string, Edge>)
    requires |keys| == |edges| && |sources| == |edges| && |targets| == |edges|
  {
    (forall k :: k in memo <==> k in keys) &&
    forall k {:trigger memo[k]} :: k in memo ==> memo[k] == Merged(edges, keys, sources, targets, k)
  }

  /** Appending `x` moves no first occurrence of an element already present and counts `x` once more. */
  lemma FirstIndexAppend<T>(s: seq<T>, x: T, k: T)
    ensures FirstIndex(s + [x], k) == if k in s then FirstIndex(s, k) else if k == x then Some(|s|) else None
    ensures multiset(s + [x])[k] == multiset(s)[k] + if k == x then 1 else 0
  {
    assert (s + [x])[..|s|] == s;
  }

  /**
   * One more edge through `rollupEdge` keeps the edge memo: a key met
   * before is 1 heavier, a new key stores a keyed copy of the edge pointing
   * at its rolled ends.
   */
  lemma MergedMemoStep(
    edges: seq<Edge>, keys: seq<string>, sources: seq<string>, targets: seq<string>, memo: map<string, Edge>,
    e: Edge, key: string, source: string, target: string, memo': map<string, Edge>)
    requires |keys| == |edges| && |sources| == |edges| && |targets| == |edges|
    requires MergedMemo(edges, keys, sources, targets, memo)
    requires memo' == Stored(memo, key, Keyed(e, key, source, target))
    ensures MergedMemo(edges + [e], keys + [key], sources + [source], targets + [target], memo')
  {
    var edges', keys', sources', targets' := edges + [e], keys + [key], sources + [source], targets + [target];
    forall k | k in memo'
      ensures k in keys' && memo'[k] == Merged(edges', keys', sources', targets', k)
    {
      FirstIndexAppend(keys, key, k);
      if k in keys {
        var f := FirstIndex(keys, k).value;
        assert edges'[f] == edges[f] && sources'[f] == sources[f] && targets'[f] == targets[f];
      } else {
        assert edges'[|edges|] == e && sources'[|edges|] == source && targets'[|edges|] == target;
      }
    }
  }

  /**
   * The edge `rollupEdge` leaves under `key` once all of `edges` are
   * rolled, their ends mapped to the ids of the rolled nodes.
   */
  function FinalEdge(nodes: seq<Node>, edges: seq<Edge>, roll: Node -> string, key: string): Edge
    requires EndpointsKnown(edges, NodeById(nodes))
    requires key in EdgeKeys(edges, NodeById(nodes), roll)
  {
    Merged(edges, EdgeKeys(edges, NodeById(nodes), roll), SourceIds(nodes, edges, roll), TargetIds(nodes, edges, roll), key)
  }

  /** The rollup has not got a file graph to work on: it hands back its inputs. */
  predicate Untouched(nodes: seq<Node>) {
    |nodes| == 0 || nodes[0].kind != File
  }

  /**
   * `g` is the rollup of `nodes` and `edges`: one entry per input entry, in
   * order; each node replaced by the rolled node of its name, each edge by
   * the final edge of its key.
   */
  predicate IsRollup(nodes: seq<Node>, edges: seq<Edge>, roll: Node -> string, g: Graph)
    requires EndpointsKnown(edges, NodeById(nodes))
  {
    var names := RollKeys(nodes, roll);
    var keys := EdgeKeys(edges, NodeById(nodes), roll);
    |g.nodes| == |nodes| && |g.edges| == |edges| &&
    (forall i {:trigger g.nodes[i]} :: 0 <= i < |nodes| ==> g.nodes[i] == RolledFor(nodes, roll, names[i])) &&
    forall i {:trigger g.edges[i]} :: 0 <= i < |edges| ==> g.edges[i] == FinalEdge(nodes, edges, roll, keys[i])
  }

  /** The memo `nodeByKey` after the first `i` leaves went through `rollupNode`. */
  ghost predicate NodeMemo(nodes: seq<Node>, roll: Node -> string, i: nat, memo: map<string, Node>)
    requires i <= |nodes|
  {
    var names := RollKeys(nodes, roll)[..i];
    (forall name :: name in memo <==> name in names) &&
    forall name {:trigger memo[name]} :: name in memo ==> memo[name] == RolledNode(nodes[FirstIndex(names, name).value], name)
  }

  /** `rollupNode`: the memoised rolled node of `n`, created and stored when its name is new. */
  method RollupNode(nodeByKey: map<string, Node>, n: Node, folders: seq<string>)
    returns (nodeByKey': map<string, Node>, r: Node)
    ensures var name := RollKey(n, folders);
      name in nodeByKey' &&
      if name in nodeByKey then nodeByKey' == nodeByKey && r == nodeByKey[name]
      else nodeByKey' == nodeByKey[name := r] && r == RolledNode(n, name)
  {
    var name := RollupDisplayName(n.displayName, folders);
    if name in nodeByKey {
      return nodeByKey, nodeByKey[name];
    }
    r := RolledNode(n, name);
    nodeByKey' := nodeByKey[name := r];
  }

  /** One more leaf through `rollupNode` keeps the node memo. */
  lemma NodeMemoStep(nodes: seq<Node>, roll: Node -> string, i: nat, memo: map<string, Node>, memo': map<string, Node>)
    requires i < |nodes| && NodeMemo(nodes, roll, i, memo)
    requires var name := RollKeys(nodes, roll)[i];
      if name in memo then memo' == memo else memo' == memo[name := RolledNode(nodes[i], name)]
    ensures NodeMemo(nodes, roll, i + 1, memo')
  {
    var names := RollKeys(nodes, roll);
    FirstIndexExtend(names, i);
  }

  /** The state of `nodes.map(rollupNode)` after the first `i` leaves: the memo, and each leaf's memoised node. */
  ghost predicate NodeLoop(nodes: seq<Node>, roll: Node -> string, i: nat, memo: map<string, Node>, out: seq<Node>)
  {
    i <= |nodes| && NodeMemo(nodes, roll, i, memo) && |out| == i &&
    forall j {:trigger out[j]} :: 0 <= j < i ==> roll(nodes[j]) in memo && out[j] == memo[roll(nodes[j])]
  }

  /** One more leaf through `rollupNode` keeps the loop state. */
  lemma NodeLoopStep(
    nodes: seq<Node>, roll: Node -> string, i: nat, memo: map<string, Node>, out: seq<Node>,
    memo': map<string, Node>, r: Node)
    requires i < |nodes| && NodeLoop(nodes, roll, i, memo, out)
    requires var name := roll(nodes[i]);
      if name in memo then memo' == memo && r == memo[name]
      else memo' == memo[name := r] && r == RolledNode(nodes[i], name)
    ensures NodeLoop(nodes, roll, i + 1, memo', out + [r])
  {
    NodeMemoStep(nodes, roll, i, memo, memo');
    var out' := out + [r];
    forall j | 0 <= j < i + 1
      ensures roll(nodes[j]) in memo' && out'[j] == memo'[roll(nodes[j])]
    {
      if j < i {
        assert out'[j] == out[j] && roll(nodes[j]) in memo;
      }
    }
  }

  /** Once every leaf went through `rollupNode`, each leaf's memoised node is the rolled node of its name. */
  lemma NodeLoopDone(nodes: seq<Node>, roll: Node -> string, memo: map<string, Node>, out: seq<Node>)
    requires NodeLoop(nodes, roll, |nodes|, memo, out)
    ensures forall j :: 0 <= j < |nodes| ==> out[j] == RolledFor(nodes, roll, RollKeys(nodes, roll)[j])
  {
    var names := RollKeys(nodes, roll);
    assert names[..|nodes|] == names;
    forall j | 0 <= j < |nodes|
      ensures out[j] == RolledFor(nodes, roll, names[j])
    {
      assert names[j] == roll(nodes[j]) && out[j] == memo[names[j]];
    }
  }

  /** `nodes.map(rollupNode)` from an empty memo: the rolled node of every leaf's name, and the memo. */
  method RollupNodes(nodes: seq<Node>, folders: seq<string>) returns (nodeByKey: map<string, Node>, newNodes: seq<Node>)
    ensures NodeMemo(nodes, Roller(folders), |nodes|, nodeByKey)
    ensures |newNodes| == |nodes|
    ensures forall j :: 0 <= j < |nodes| ==> newNodes[j] == RolledFor(nodes, Roller(folders), RollKeys(nodes, Roller(folders))[j])
  {
    ghost var roll := Roller(folders);
    nodeByKey, newNodes := map[], [];
    var i := 0;
    while i < |nodes|
      invariant NodeLoop(nodes, roll, i, nodeByKey, newNodes)
    {
      var memo', r := RollupNode(nodeByKey, nodes[i], folders);
      assert roll(nodes[i]) == RollKey(nodes[i], folders);
      NodeLoopStep(nodes, roll, i, nodeByKey, newNodes, memo', r);
      nodeByKey := memo';
      newNodes := newNodes + [r];
      i := i + 1;
    }
    NodeLoopDone(nodes, roll, nodeByKey, newNodes);
  }

  /** Once every leaf is in the node memo, the memo holds the rolled node of every node id, keyed by its rolled name. */
  lemma MemoRolls(nodes: seq<Node>, roll: Node -> string, folders: seq<string>, memo: map<string, Node>, id: string)
    requires NamesBy(roll, folders) && NodeMemo(nodes, roll, |nodes|, memo)
    requires id in NodeById(nodes)
    ensures var name := RollKey(NodeById(nodes)[id], folders);
      name == roll(NodeById(nodes)[id]) && name in memo &&
      memo[name].key == name && memo[name].id == RolledId(nodes, roll, id)
  {
    ByIdRolls(nodes, roll, id);
    assert RollKeys(nodes, roll)[..|nodes|] == RollKeys(nodes, roll);
  }

  /**
   * `rollupEdge` for an edge whose ends are nodes: the rolled ends come from
   * the memo of rolled nodes; a key met before adds 1 to its stored edge's
   * weight, a new key stores a copy of the edge pointing at the rolled ends.
   */
  method RollupEdge(
    ghost nodes: seq<Node>, ghost roll: Node -> string, byId: map<string, Node>, nodeByKey: map<string, Node>,
    edgeByKey: map<string, Edge>, e: Edge, folders: seq<string>)
    returns (edgeByKey': map<string, Edge>, key: string)
    requires NamesBy(roll, folders)
    requires byId == NodeById(nodes) && NodeMemo(nodes, roll, |nodes|, nodeByKey)
    requires e.source in byId && e.target in byId
    ensures key == EdgeKey(e, byId, roll)
    ensures edgeByKey' == Stored(edgeByKey, key, Keyed(e, key, RolledId(nodes, roll, e.source), RolledId(nodes, roll, e.target)))
  {
    MemoRolls(nodes, roll, folders, nodeByKey, e.source);
    MemoRolls(nodes, roll, folders, nodeByKey, e.target);
    var _, src := RollupNode(nodeByKey, byId[e.source], folders);
    var _, dst := RollupNode(nodeByKey, byId[e.target], folders);
    key := src.key + " -> " + dst.key;
    assert src.id == RolledId(nodes, roll, e.source) && dst.id == RolledId(nodes, roll, e.target);
    edgeByKey' := Stored(edgeByKey, key, Keyed(e, key, src.id, dst.id));
  }

  /** The state of `edges.map(rollupEdge)` after the first `i` edges: their keys, rolled ends and the edge memo. */
  ghost predicate EdgeLoop(
    nodes: seq<Node>, roll: Node -> string, edges: seq<Edge>, i: nat,
    keys: seq<string>, sources: seq<string>, targets: seq<string>, memo: map<string, Edge>)
  {
    i <= |edges| && EndpointsKnown(edges[..i], NodeById(nodes)) &&
    keys == EdgeKeys(edges[..i], NodeById(nodes), roll) &&
    sources == SourceIds(nodes, edges[..i], roll) &&
    targets == TargetIds(nodes, edges[..i], roll) &&
    MergedMemo(edges[..i], keys, sources, targets, memo)
  }

  /** One more edge through `rollupEdge` keeps the loop state. */
  lemma EdgeLoopStep(
    nodes: seq<Node>, roll: Node -> string, edges: seq<Edge>, i: nat,
    keys: seq<string>, sources: seq<string>, targets: seq<string>, memo: map<string, Edge>,
    key: string, source: string, target: string, memo': map<string, Edge>)
    requires i < |edges| && EdgeLoop(nodes, roll, edges, i, keys, sources, targets, memo)
    requires edges[i].source in NodeById(nodes) && edges[i].target in NodeById(nodes)
    requires key == EdgeKey(edges[i], NodeById(nodes), roll)
    requires source == RolledId(nodes, roll, edges[i].source) && target == RolledId(nodes, roll, edges[i].target)
    requires memo' == Stored(memo, key, Keyed(edges[i], key, source, target))
    ensures EdgeLoop(nodes, roll, edges, i + 1, keys + [key], sources + [source], targets + [target], memo')
  {
    var byId := NodeById(nodes);
    var e := edges[i];
    assert EndpointsKnown(edges[..i + 1], byId) by {
      assert edges[..i + 1] == edges[..i] + [e];
    }
    EdgeKeysExtend(edges, byId, roll, i);
    SourceIdsExtend(nodes, edges, roll, i);
    TargetIdsExtend(nodes, edges, roll, i);
    MergedMemoStep(edges[..i], keys, sources, targets, memo, e, key, source, target, memo');
    assert edges[..i] + [e] == edges[..i + 1];
  }

  /**
   * `edges.map(rollupEdge)` once every leaf is in the node memo: the final
   * edge of every edge's key, or the error thrown at the first edge with an
   * end that is not a node's id.
   *
   * The source hands out the same memoised object for repeated keys and
   * bumps the weight on that shared object, so every entry of the returned
   * list shows the final weight of its key: the model records each edge's
   * key and reads the memo once the loop is done.
   */
  method RollupEdges(
    ghost nodes: seq<Node>, ghost roll: Node -> string, byId: map<string, Node>, nodeByKey: map<string, Node>,
    edges: seq<Edge>, folders: seq<string>)
    returns (res: Result<seq<Edge>>)
    requires NamesBy(roll, folders)
    requires byId == NodeById(nodes) && NodeMemo(nodes, roll, |nodes|, nodeByKey)
    ensures res.Success? <==> EndpointsKnown(edges, byId)
    ensures res.Success? ==>
      |res.value| == |edges| &&
      forall j :: 0 <= j < |edges| ==> res.value[j] == FinalEdge(nodes, edges, roll, EdgeKeys(edges, byId, roll)[j])
  {
    var edgeByKey: map<string, Edge> := map[];
    var keys: seq<string> := [];
    ghost var sources: seq<string> := [];
    ghost var targets: seq<string> := [];
    var i := 0;
    assert edges[..0] == [];
    while i < |edges|
      invariant EdgeLoop(nodes, roll, edges, i, keys, sources, targets, edgeByKey)
    {
      var e := edges[i];
      if e.source !in byId || e.target !in byId {
        return Failure("Cannot read properties of undefined (reading 'displayName')");
      }
      ghost var memo := edgeByKey;
      var key;
      edgeByKey, key := RollupEdge(nodes, roll, byId, nodeByKey, edgeByKey, e, folders);
      ghost var source, target := RolledId(nodes, roll, e.source), RolledId(nodes, roll, e.target);
      EdgeLoopStep(nodes, roll, edges, i, keys, sources, targets, memo, key, source, target, edgeByKey);
      keys, sources, targets := keys + [key], sources + [source], targets + [target];
      i := i + 1;
    }
    assert edges[..|edges|] == edges;
    return Success(seq(|edges|, j requires 0 <= j < |edges| => edgeByKey[keys[j]]));
  }

  /**
   * `rollupFolders`. An empty node list, or one whose first node is not a
   * file, comes back as it was given. Otherwise every node is replaced by
   * the rolled node of its name and every edge by the merged edge of its
   * rolled key; an edge with an end that is not a node's id makes the
   * rollup throw.
   */
  method RollupFolders(nodes: seq<Node>, edges: seq<Edge>, folders: seq<string>) returns (res: Result<Graph>)
    ensures Untouched(nodes) ==> res == Success(Graph(nodes, edges))
    ensures !Untouched(nodes) ==> (res.Success? <==> EndpointsKnown(edges, NodeById(nodes)))
    ensures !Untouched(nodes) && res.Success? ==> IsRollup(nodes, edges, Roller(folders), res.value)
  {
    if |nodes| == 0 {
      return Success(Graph(nodes, edges));
    }
    if nodes[0].kind != File {
      return Success(Graph(nodes, edges));
    }
    var byId := NodeById(nodes);
    var nodeByKey, newNodes := RollupNodes(nodes, folders);
    ghost var roll := Roller(folders);
    assert NamesBy(roll, folders);
    var newEdges := RollupEdges(nodes, roll, byId, nodeByKey, edges, folders);
    if newEdges.Failure? {
      return Failure(newEdges.error);
    }
    return Success(Graph(newNodes, newEdges.value));
  }

  /**
   * All leaves with the same rolled name share one rolled node, made from
   * the first of them: it carries that leaf's id.
   */
  lemma RollupSharesFirstLeaf(nodes: seq<Node>, edges: seq<Edge>, roll: Node -> string, g: Graph, i: nat)
    requires EndpointsKnown(edges, NodeById(nodes)) && IsRollup(nodes, edges, roll, g)
    requires i < |nodes|
    ensures var names := RollKeys(nodes, roll);
      exists f :: 0 <= f <= i && names[f] == names[i] &&
        (forall k :: 0 <= k < f ==> names[k] != names[i]) &&
        g.nodes[i].id == nodes[f].id && g.nodes[i] == g.nodes[f]
  {
    var names := RollKeys(nodes, roll);
    var f := FirstIndex(names, names[i]).value;
    assert FirstIndex(names, names[f]) == FirstIndex(names, names[i]);
    assert g.nodes[i] == RolledFor(nodes, roll, names[i]);
    assert g.nodes[f] == RolledFor(nodes, roll, names[f]);
  }

  /** Leaves with the same rolled name get the very same rolled node. */
  lemma RollupSameNameSameNode(nodes: seq<Node>, edges: seq<Edge>, roll: Node -> string, g: Graph, i: nat, j: nat)
    requires EndpointsKnown(edges, NodeById(nodes)) && IsRollup(nodes, edges, roll, g)
    requires i < |nodes| && j < |nodes|
    ensures var names := RollKeys(nodes, roll);
      names[i] == names[j] <==> g.nodes[i].key == g.nodes[j].key
    ensures RollKeys(nodes, roll)[i] == RollKeys(nodes, roll)[j] ==> g.nodes[i] == g.nodes[j]
  {
    var names := RollKeys(nodes, roll);
    assert g.nodes[i] == RolledFor(nodes, roll, names[i]);
    assert g.nodes[j] == RolledFor(nodes, roll, names[j]);
  }

  /**
   * A rolled edge runs between rolled nodes: those of the two ends of the
   * first edge with the same key.
   */
  lemma RollupEdgeEnds(nodes: seq<Node>, edges: seq<Edge>, roll: Node -> string, g: Graph, i: nat)
    requires EndpointsKnown(edges, NodeById(nodes)) && IsRollup(nodes, edges, roll, g)
    requires i < |edges|
    ensures var keys := EdgeKeys(edges, NodeById(nodes), roll);
      var f := FirstIndex(keys, keys[i]).value;
      g.edges[i].source == RolledId(nodes, roll, edges[f].source) &&
      g.edges[i].target == RolledId(nodes, roll, edges[f].target)
    ensures exists p, q ::
      0 <= p < |g.nodes| && 0 <= q < |g.nodes| && g.edges[i].source == g.nodes[p].id && g.edges[i].target == g.nodes[q].id
  {
    var byId := NodeById(nodes);
    var names := RollKeys(nodes, roll);
    var keys := EdgeKeys(edges, byId, roll);
    var e := edges[FirstIndex(keys, keys[i]).value];
    assert g.edges[i] == FinalEdge(nodes, edges, roll, keys[i]);
    var p := NodeByIdFound(nodes, e.source);
    var q := NodeByIdFound(nodes, e.target);
    assert g.nodes[p] == RolledFor(nodes, roll, names[p]);
    assert g.nodes[q] == RolledFor(nodes, roll, names[q]);
  }

  /** `s` holds no `>`. */
  predicate NoArrowHead(s: string) {
    forall k :: 0 <= k < |s| ==> s[k] != '>'
  }

  /** Keys `a -> b` of names without `>` determine both names. */
  lemma EdgeKeyDetermines(a: string, b: string, c: string, d: string)
    requires NoArrowHead(a) && NoArrowHead(b) && NoArrowHead(c) && NoArrowHead(d)
    requires a + " -> " + b == c + " -> " + d
    ensures a == c && b == d
  {
    var s := a + " -> " + b;
    assert s[|a| + 2] == '>';
    assert s[|c| + 2] == '>';
    assert |a| == |c|;
    assert a == s[..|a|] && c == s[..|c|];
    assert b == s[|a| + 4..] && d == s[|c| + 4..];
  }

  /**
   * When no rolled name holds a `>`, a rolled edge runs between the rolled
   * nodes of its own two ends, and an edge whose ends roll up to the same
   * name stays, as a self-loop.
   */
  lemma RollupEdgeOwnEnds(nodes: seq<Node>, edges: seq<Edge>, roll: Node -> string, g: Graph, i: nat)
    requires EndpointsKnown(edges, NodeById(nodes)) && IsRollup(nodes, edges, roll, g)
    requires forall name :: name in RollKeys(nodes, roll) ==> NoArrowHead(name)
    requires i < |edges|
    ensures g.edges[i].source == RolledId(nodes, roll, edges[i].source)
    ensures g.edges[i].target == RolledId(nodes, roll, edges[i].target)
    ensures var byId := NodeById(nodes);
      roll(byId[edges[i].source]) == roll(byId[edges[i].target]) ==> g.edges[i].source == g.edges[i].target
  {
    var byId := NodeById(nodes);
    var keys := EdgeKeys(edges, byId, roll);
    var f := FirstIndex(keys, keys[i]).value;
    RollupEdgeEnds(nodes, edges, roll, g, i);
    ByIdRolls(nodes, roll, edges[i].source);
    ByIdRolls(nodes, roll, edges[i].target);
    ByIdRolls(nodes, roll, edges[f].source);
    ByIdRolls(nodes, roll, edges[f].target);
    EdgeKeyDetermines(roll(byId[edges[i].source]), roll(byId[edges[i].target]),
      roll(byId[edges[f].source]), roll(byId[edges[f].target]));
  }

  /**
   * The weight of a rolled edge is the weight of the first edge with its
   * key plus one for each later edge with that key; it keeps that first
   * edge's snippets.
   */
  lemma RollupEdgeWeight(nodes: seq<Node>, edges: seq<Edge>, roll: Node -> string, g: Graph, i: nat)
    requires EndpointsKnown(edges, NodeById(nodes)) && IsRollup(nodes, edges, roll, g)
    requires i < |edges|
    ensures var keys := EdgeKeys(edges, NodeById(nodes), roll);
      var n := multiset(keys)[keys[i]];
      n >= 1 &&
      exists f :: 0 <= f <= i && keys[f] == keys[i] &&
        g.edges[i].weight == edges[f].weight + (n - 1) && g.edges[i].snippets == edges[f].snippets
  {
    var keys := EdgeKeys(edges, NodeById(nodes), roll);
    var f := FirstIndex(keys, keys[i]).value;
    assert keys[i] in multiset(keys);
    assert g.edges[i] == FinalEdge(nodes, edges, roll, keys[i]);
  }

  /** Edges with the same rolled key get the very same rolled edge. */
  lemma RollupSameKeySameEdge(nodes: seq<Node>, edges: seq<Edge>, roll: Node -> string, g: Graph, i: nat, j: nat)
    requires EndpointsKnown(edges, NodeById(nodes)) && IsRollup(nodes, edges, roll, g)
    requires i < |edges| && j < |edges|
    ensures var keys := EdgeKeys(edges, NodeById(nodes), roll);
      keys[i] == keys[j] <==> g.edges[i].key == g.edges[j].key
    ensures var keys := EdgeKeys(edges, NodeById(nodes), roll);
      keys[i] == keys[j] ==> g.edges[i] == g.edges[j]
  {
    var keys := EdgeKeys(edges, NodeById(nodes), roll);
    assert g.edges[i] == FinalEdge(nodes, edges, roll, keys[i]);
    assert g.edges[j] == FinalEdge(nodes, edges, roll, keys[j]);
  }
}
