/**
 * `getGraphFromState`: the graph the file explorer draws. Every node id is
 * replaced by the collapsed directory that holds it (the deepest one, as
 * the collapsed directories are tried longest first), nodes outside the
 * isolated directory are dropped, and the edges are re-pointed, stripped
 * of self-loops and of edges to dropped nodes, and merged per pair of
 * ends with their weights summed.
 */
module FileexplorerGraph {
  import opened Wrappers
  import opened Seqs
  import opened Strings
  import opened OrderedMaps
  import opened ClientGraph
  import GraphSlice

  /** The ids whose flag says collapsed, in the order of `keys`. */
  function CollapsedIds(keys: seq<string>, flags: map<string, bool>): (ids: seq<string>)
    ensures forall x :: x in ids <==> x in keys && x in flags && flags[x]
    ensures Distinct(keys) ==> Distinct(ids)
    decreases |keys|
  {
    if keys == [] then []
    else
      var tail := CollapsedIds(keys[1..], flags);
      assert Distinct(keys) ==> Distinct(keys[1..]) && keys[0] !in keys[1..];
      if keys[0] in flags && flags[keys[0]] then [keys[0]] + tail else tail
  }

  /** `allCollapsedDirectories`: the collapsed directories, longest first. */
  function AllCollapsed(flags: OMap<string, bool>): (dirs: seq<string>)
    requires flags.Valid()
    ensures LongestFirst(dirs) && Distinct(dirs)
    ensures forall x :: x in dirs <==> x in flags.entries && flags.entries[x]
  {
    var ids := CollapsedIds(flags.keys, flags.entries);
    SortByLengthDescElements(ids);
    SortByLengthDesc(ids)
  }

  /** `dir` starts with one of `roots`. */
  predicate UnderSome(dir: string, roots: seq<string>) {
    exists r :: r in roots && StartsWith(dir, r)
  }

  /** The inner loop: whether `dir` starts with any of the roots found so far. */
  method StartsWithSome(dir: string, roots: seq<string>) returns (found: bool)
    ensures found == UnderSome(dir, roots)
  {
    found := false;
    var j := 0;
    while j < |roots| && !found
      invariant 0 <= j <= |roots|
      invariant !found ==> forall k :: 0 <= k < j ==> !StartsWith(dir, roots[k])
      invariant found ==> UnderSome(dir, roots)
    {
      if StartsWith(dir, roots[j]) {
        found := true;
      }
      j := j + 1;
    }
  }

  /** A directory of a list longest first without repeats starts with no directory before it. */
  lemma NotUnderEarlier(all: seq<string>, i: nat)
    requires Distinct(all) && LongestFirst(all) && i < |all|
    ensures !UnderSome(all[i], all[..i])
  {
    forall k | 0 <= k < i ensures !StartsWith(all[i], all[k]) {
      assert JsLength(all[k]) >= JsLength(all[i]);
      if |all[k]| < |all[i]| {
        if StartsWith(all[i], all[k]) {
          ProperPrefixIsShorter(all[i], all[k]);
        }
      } else {
        assert all[k] != all[i];
      }
    }
    assert forall r :: r in all[..i] ==> exists k :: 0 <= k < i && all[k] == r;
  }

  /** Keeping `dir` as a root puts it, and all that lay under the roots before, under the roots. */
  lemma KeepRoot(roots: seq<string>, dir: string)
    ensures UnderSome(dir, roots + [dir])
    ensures forall d :: UnderSome(d, roots) ==> UnderSome(d, roots + [dir])
  {
    assert StartsWith(dir, dir);
    assert dir in roots + [dir];
  }

  /**
   * The loop that picks the "collapsed directory roots": a directory is
   * kept unless it starts with one kept before it. Every directory is kept
   * or lies under a kept one; and since the list is longest first without
   * repeats, no directory can start with an earlier one, so all of them are
   * kept, in order.
   */
  method CollapsedRoots(all: seq<string>) returns (roots: seq<string>)
    ensures forall r :: r in roots ==> r in all
    ensures forall d :: d in all ==> UnderSome(d, roots)
    ensures Distinct(all) && LongestFirst(all) ==> roots == all
  {
    roots := [];
    ghost var sorted := Distinct(all) && LongestFirst(all);
    var i := 0;
    while i < |all|
      invariant 0 <= i <= |all|
      invariant forall r :: r in roots ==> r in all[..i]
      invariant forall d :: d in all[..i] ==> UnderSome(d, roots)
      invariant sorted ==> roots == all[..i]
    {
      var dir := all[i];
      var under := StartsWithSome(dir, roots);
      if sorted {
        NotUnderEarlier(all, i);
      }
      assert all[..i + 1] == all[..i] + [dir];
      if !under {
        KeepRoot(roots, dir);
        roots := roots + [dir];
      }
      i := i + 1;
    }
    assert all[..i] == all;
  }

  /** `id.split("/").slice(0, -1).join("/")`: the path of the directory holding `id`. */
  function ParentPath(id: string): string {
    var parts := Split(id, "/");
    Join(parts[..|parts| - 1], "/")
  }

  /** The first of `dirs` that `s` starts with, if any. */
  function FirstPrefix(s: string, dirs: seq<string>): (r: Option<nat>)
    ensures r.Some? ==>
      r.value < |dirs| && StartsWith(s, dirs[r.value]) &&
      forall j :: 0 <= j < r.value ==> !StartsWith(s, dirs[j])
    ensures r.None? ==> forall j :: 0 <= j < |dirs| ==> !StartsWith(s, dirs[j])
    decreases |dirs|
  {
    if dirs == [] then None
    else if StartsWith(s, dirs[0]) then Some(0)
    else match FirstPrefix(s, dirs[1..])
      case Some(k) => Some(k + 1)
      case None => None
  }

  /** `findCollapsedRoot`: the first collapsed directory its parent path starts with, or the id itself. */
  function FindCollapsedRoot(roots: seq<string>, id: string): string {
    match FirstPrefix(ParentPath(id), roots)
    case Some(k) => roots[k]
    case None => id
  }

  /**
   * With the directories longest first, the id is replaced by the deepest
   * collapsed directory its parent path lies under; without one it stays.
   */
  lemma DeepestCollapsedWins(roots: seq<string>, id: string)
    requires LongestFirst(roots)
    ensures var r := FindCollapsedRoot(roots, id);
      (r in roots && StartsWith(ParentPath(id), r) &&
        forall d :: d in roots && StartsWith(ParentPath(id), d) ==> JsLength(d) <= JsLength(r)) ||
      (r == id && forall d :: d in roots ==> !StartsWith(ParentPath(id), d))
  {
  }

  /** `isolated === null || id.startsWith(isolated)` */
  predicate InIsolated(id: string, isolated: Option<string>) {
    isolated.None? || StartsWith(id, isolated.value)
  }

  /** The node with its id replaced. */
  function Renamed(n: Node, roots: seq<string>): Node {
    n.(id := FindCollapsedRoot(roots, n.id))
  }

  /** The nodes with their ids replaced, keeping those inside the isolated directory. */
  function RewrittenNodes(nodes: seq<Node>, roots: seq<string>, isolated: Option<string>): (r: seq<Node>)
    ensures forall n :: n in r ==> InIsolated(n.id, isolated)
    ensures forall n :: n in r ==> exists p :: 0 <= p < |nodes| && n == Renamed(nodes[p], roots)
    ensures forall p :: 0 <= p < |nodes| && InIsolated(Renamed(nodes[p], roots).id, isolated) ==>
      Renamed(nodes[p], roots) in r
    decreases |nodes|
  {
    if nodes == [] then []
    else
      var n := Renamed(nodes[0], roots);
      var tail := RewrittenNodes(nodes[1..], roots, isolated);
      assert forall p :: 1 <= p < |nodes| ==> nodes[p] == nodes[1..][p - 1];
      if InIsolated(n.id, isolated) then [n] + tail else tail
  }

  /** The edge with both ends replaced. */
  function Repointed(e: Edge, roots: seq<string>): Edge {
    e.(source := FindCollapsedRoot(roots, e.source), target := FindCollapsedRoot(roots, e.target))
  }

  /** A re-pointed edge survives when it is no self-loop and both its ends are kept nodes. */
  predicate Survives(e: Edge, kept: map<string, Node>) {
    e.source != e.target && e.source in kept && e.target in kept
  }

  /** The edges with both ends replaced, without self-loops and without ends outside `kept`. */
  function KeptEdges(edges: seq<Edge>, roots: seq<string>, kept: map<string, Node>): (r: seq<Edge>)
    ensures forall e :: e in r ==> Survives(e, kept)
    ensures forall e :: e in r ==> exists p :: 0 <= p < |edges| && e == Repointed(edges[p], roots)
    ensures forall p :: 0 <= p < |edges| && Survives(Repointed(edges[p], roots), kept) ==>
      Repointed(edges[p], roots) in r
    decreases |edges|
  {
    if edges == [] then []
    else
      var e := Repointed(edges[0], roots);
      var tail := KeptEdges(edges[1..], roots, kept);
      assert forall p :: 1 <= p < |edges| ==> edges[p] == edges[1..][p - 1];
      if Survives(e, kept) then [e] + tail else tail
  }

  // ---------------------------------------------------------------------
  // Merging parallel edges, by a key computed from each edge
  // ---------------------------------------------------------------------

  /** The key parallel edges are merged by: `${source}-${target}`. */
  function PairKey(e: Edge): string {
    e.source + "-" + e.target
  }

  /** A key that tells apart every pair of ends. */
  function EndsKey(e: Edge): (string, string) {
    (e.source, e.target)
  }

  /** Edges with the same key have the same ends. */
  ghost predicate SeparatesEnds<K>(key: Edge -> K) {
    forall a: Edge, b: Edge :: key(a) == key(b) ==> a.source == b.source && a.target == b.target
  }

  /** The key does not depend on the weight, which merging changes. */
  ghost predicate IgnoresWeight<K>(key: Edge -> K) {
    forall e: Edge, w: int :: key(e.(weight := w)) == key(e)
  }

  /** Both keys ignore the weight. */
  lemma KeysIgnoreWeight()
    ensures IgnoresWeight(PairKey) && IgnoresWeight(EndsKey)
  {
  }

  /** Some edge of `es` has the key. */
  predicate HasKey<K(==)>(es: seq<Edge>, key: Edge -> K, k: K) {
    exists j :: 0 <= j < |es| && key(es[j]) == k
  }

  /** The sum of the weights of the edges of `es` with the key. */
  function SumWeights<K(==)>(es: seq<Edge>, key: Edge -> K, k: K): int
    decreases |es|
  {
    if es == [] then 0
    else SumWeights(es[..|es| - 1], key, k) + if key(es[|es| - 1]) == k then es[|es| - 1].weight else 0
  }

  /** Without an edge of that key the sum is zero. */
  lemma {:induction false} SumWeightsAbsent<K>(es: seq<Edge>, key: Edge -> K, k: K)
    requires !HasKey(es, key, k)
    ensures SumWeights(es, key, k) == 0
    decreases |es|
  {
    if es != [] {
      var init := es[..|es| - 1];
      assert forall j :: 0 <= j < |init| ==> init[j] == es[j];
      SumWeightsAbsent(init, key, k);
    }
  }

  /** The first edge of `es` with the key. */
  function FirstWithKey<K(==)>(es: seq<Edge>, key: Edge -> K, k: K): (e: Edge)
    requires HasKey(es, key, k)
    ensures e in es && key(e) == k
    decreases |es|
  {
    var init := es[..|es| - 1];
    if HasKey(init, key, k) then
      assert forall j :: 0 <= j < |init| ==> init[j] == es[j];
      FirstWithKey(init, key, k)
    else es[|es| - 1]
  }

  /** No edge before the one `FirstWithKey` picks has the key. */
  lemma {:induction false} FirstWithKeyIsFirst<K>(es: seq<Edge>, key: Edge -> K, k: K) returns (p: nat)
    requires HasKey(es, key, k)
    ensures p < |es| && es[p] == FirstWithKey(es, key, k)
    ensures forall j :: 0 <= j < p ==> key(es[j]) != k
    decreases |es|
  {
    var init := es[..|es| - 1];
    if HasKey(init, key, k) {
      p := FirstWithKeyIsFirst(init, key, k);
      assert forall j :: 0 <= j < p ==> init[j] == es[j];
    } else {
      p := |es| - 1;
      assert forall j :: 0 <= j < p ==> init[j] == es[j];
    }
  }

  /** What the loop stores under a key: the first edge with that key, carrying the summed weight. */
  function MergedEdge<K(==)>(es: seq<Edge>, key: Edge -> K, k: K): Edge
    requires HasKey(es, key, k)
  {
    FirstWithKey(es, key, k).(weight := SumWeights(es, key, k))
  }

  /** The sum of all weights. */
  function TotalWeight(es: seq<Edge>): int
    decreases |es|
  {
    if es == [] then 0 else TotalWeight(es[..|es| - 1]) + es[|es| - 1].weight
  }

  /** Replacing one edge changes the total by the difference of the two weights. */
  lemma {:induction false} TotalWeightUpdate(es: seq<Edge>, p: nat, e: Edge)
    requires p < |es|
    ensures TotalWeight(es[p := e]) == TotalWeight(es) - es[p].weight + e.weight
    decreases |es|
  {
    var n := |es| - 1;
    var es' := es[p := e];
    if p < n {
      assert es'[..n] == es[..n][p := e];
      TotalWeightUpdate(es[..n], p, e);
    } else {
      assert es'[..n] == es[..n];
    }
  }

  /** Appending an edge adds its weight. */
  lemma TotalWeightAppend(es: seq<Edge>, e: Edge)
    ensures TotalWeight(es + [e]) == TotalWeight(es) + e.weight
  {
    assert (es + [e])[..|es|] == es;
  }

  /** One turn of the merge loop, on the specification side. */
  lemma MergeStep<K>(es: seq<Edge>, key: Edge -> K, e: Edge, k: K)
    ensures HasKey(es + [e], key, k) <==> HasKey(es, key, k) || key(e) == k
    ensures SumWeights(es + [e], key, k) == SumWeights(es, key, k) + if key(e) == k then e.weight else 0
    ensures HasKey(es, key, k) ==>
      MergedEdge(es + [e], key, k) == MergedEdge(es, key, k).(weight := SumWeights(es + [e], key, k))
    ensures !HasKey(es, key, k) && key(e) == k ==> MergedEdge(es + [e], key, k) == e
  {
    var es' := es + [e];
    assert es'[..|es|] == es;
    assert es'[..|es'| - 1] == es;
    assert forall j :: 0 <= j < |es| ==> es'[j] == es[j];
    if !HasKey(es, key, k) {
      SumWeightsAbsent(es, key, k);
    }
    if HasKey(es', key, k) && !HasKey(es, key, k) {
      var j :| 0 <= j < |es'| && key(es'[j]) == k;
      assert j == |es|;
    }
    if HasKey(es, key, k) {
      var j :| 0 <= j < |es| && key(es[j]) == k;
      assert key(es'[j]) == k;
    }
    if key(e) == k {
      assert key(es'[|es|]) == k;
    }
  }

  /** `m` holds, under each key of `es`, the merged edge of that key, and nothing else. */
  ghost predicate Merges<K(!new)>(m: OMap<K, Edge>, es: seq<Edge>, key: Edge -> K) {
    m.Valid() &&
    (forall k :: k in m.entries <==> HasKey(es, key, k)) &&
    (forall k {:trigger MergedEdge(es, key, k)} :: k in m.entries ==> m.entries[k] == MergedEdge(es, key, k))
  }

  /** `Merges`, and the stored edges carry the whole weight of `es`. */
  ghost predicate MergesAll<K(!new)>(m: OMap<K, Edge>, es: seq<Edge>, key: Edge -> K) {
    Merges(m, es, key) && TotalWeight(m.Values()) == TotalWeight(es)
  }

  /** A turn of the loop that stores the first edge of a key keeps `MergesAll`. */
  lemma TurnNew<K(!new)>(m: OMap<K, Edge>, es: seq<Edge>, key: Edge -> K, e: Edge)
    requires MergesAll(m, es, key) && key(e) !in m.entries
    ensures MergesAll(m.Put(key(e), e), es + [e], key)
  {
    TotalWeightAppend(es, e);
    MergeNew(m, es, key, e);
    PutNewWeight(m, key(e), e);
  }

  /** A turn of the loop that adds to a stored edge keeps `MergesAll`. */
  lemma TurnOver<K(!new)>(m: OMap<K, Edge>, es: seq<Edge>, key: Edge -> K, e: Edge)
    requires MergesAll(m, es, key) && key(e) in m.entries
    ensures var stored := m.entries[key(e)];
      MergesAll(m.Put(key(e), stored.(weight := stored.weight + e.weight)), es + [e], key)
  {
    MergeOver(m, es, key, e);
    AddWeight(m, es, key(e), e);
  }

  /** Adding an edge's weight to a stored one keeps the stored total equal to the input's. */
  lemma AddWeight<K(!new)>(m: OMap<K, Edge>, es: seq<Edge>, k: K, e: Edge)
    requires m.Valid() && k in m.entries && TotalWeight(m.Values()) == TotalWeight(es)
    ensures var stored := m.entries[k];
      TotalWeight(m.Put(k, stored.(weight := stored.weight + e.weight)).Values()) == TotalWeight(es + [e])
  {
    var stored := m.entries[k];
    TotalWeightAppend(es, e);
    PutOverWeight(m, k, stored.(weight := stored.weight + e.weight));
  }

  /** Storing the first edge of a key keeps `Merges`. */
  lemma MergeNew<K(!new)>(m: OMap<K, Edge>, es: seq<Edge>, key: Edge -> K, e: Edge)
    requires Merges(m, es, key) && key(e) !in m.entries
    ensures Merges(m.Put(key(e), e), es + [e], key)
  {
    var m' := m.Put(key(e), e);
    forall k ensures k in m'.entries <==> HasKey(es + [e], key, k) {
      MergeStep(es, key, e, k);
    }
    forall k | k in m'.entries ensures m'.entries[k] == MergedEdge(es + [e], key, k) {
      MergeStep(es, key, e, k);
    }
  }

  /** Adding a later edge's weight to the stored one keeps `Merges`. */
  lemma MergeOver<K(!new)>(m: OMap<K, Edge>, es: seq<Edge>, key: Edge -> K, e: Edge)
    requires Merges(m, es, key) && key(e) in m.entries
    ensures var stored := m.entries[key(e)];
      Merges(m.Put(key(e), stored.(weight := stored.weight + e.weight)), es + [e], key)
  {
    var stored := m.entries[key(e)];
    var m' := m.Put(key(e), stored.(weight := stored.weight + e.weight));
    forall k ensures k in m'.entries <==> HasKey(es + [e], key, k) {
      MergeStep(es, key, e, k);
    }
    forall k | k in m'.entries ensures m'.entries[k] == MergedEdge(es + [e], key, k) {
      MergeStep(es, key, e, k);
      if k == key(e) {
        assert stored == MergedEdge(es, key, k);
      }
    }
  }

  /** Storing under a new key appends the value, adding its weight to the total. */
  lemma PutNewWeight<K(!new)>(m: OMap<K, Edge>, k: K, e: Edge)
    requires m.Valid() && k !in m.entries
    ensures TotalWeight(m.Put(k, e).Values()) == TotalWeight(m.Values()) + e.weight
  {
    var vs := m.Values();
    assert m.Put(k, e).Values() == vs + [e];
    assert (vs + [e])[..|vs|] == vs;
  }

  /** Storing over a key replaces its weight in the total. */
  lemma PutOverWeight<K(!new)>(m: OMap<K, Edge>, k: K, e: Edge)
    requires m.Valid() && k in m.entries
    ensures TotalWeight(m.Put(k, e).Values()) == TotalWeight(m.Values()) - m.entries[k].weight + e.weight
  {
    var r := m.Put(k, e);
    var p :| 0 <= p < |m.keys| && m.keys[p] == k;
    assert r.Values() == m.Values()[p := e] by {
      forall j | 0 <= j < |m.keys| ensures r.Values()[j] == m.Values()[p := e][j] {
        if j != p {
          assert m.keys[j] != k;
        }
      }
    }
    TotalWeightUpdate(m.Values(), p, e);
  }

  /** Before the loop, the empty map merges no edges. */
  lemma MergesNothing<K(!new)>(kept: seq<Edge>, key: Edge -> K)
    ensures MergesAll(Empty(), kept[..0], key)
  {
    assert kept[..0] == [];
  }

  /** `TurnNew` for the `i`-th edge of the loop. */
  lemma TurnNewAt<K(!new)>(m: OMap<K, Edge>, kept: seq<Edge>, i: nat, key: Edge -> K)
    requires i < |kept| && MergesAll(m, kept[..i], key) && key(kept[i]) !in m.entries
    ensures MergesAll(m.Put(key(kept[i]), kept[i]), kept[..i + 1], key)
  {
    assert kept[..i + 1] == kept[..i] + [kept[i]];
    TurnNew(m, kept[..i], key, kept[i]);
  }

  /** `TurnOver` for the `i`-th edge of the loop. */
  lemma TurnOverAt<K(!new)>(m: OMap<K, Edge>, kept: seq<Edge>, i: nat, key: Edge -> K)
    requires i < |kept| && MergesAll(m, kept[..i], key) && key(kept[i]) in m.entries
    ensures var stored := m.entries[key(kept[i])];
      MergesAll(m.Put(key(kept[i]), stored.(weight := stored.weight + kept[i].weight)), kept[..i + 1], key)
  {
    assert kept[..i + 1] == kept[..i] + [kept[i]];
    TurnOver(m, kept[..i], key, kept[i]);
  }

  /**
   * The loop over the surviving edges: the first edge of each key is
   * stored, and each later one adds its weight to it. Each stored edge is
   * the first of its key with the weights of all edges of that key summed,
   * and the stored edges carry the whole weight of the input.
   */
  method MergeEdges<K(==,!new)>(kept: seq<Edge>, key: Edge -> K) returns (merged: OMap<K, Edge>)
    ensures merged.Valid()
    ensures forall k :: k in merged.entries <==> HasKey(kept, key, k)
    ensures forall k :: k in merged.entries ==> merged.entries[k] == MergedEdge(kept, key, k)
    ensures TotalWeight(merged.Values()) == TotalWeight(kept)
  {
    merged := Empty();
    MergesNothing(kept, key);
    var i := 0;
    while i < |kept|
      invariant 0 <= i <= |kept|
      invariant MergesAll(merged, kept[..i], key)
    {
      var edge := kept[i];
      var k := key(edge);
      if k !in merged.entries {
        TurnNewAt(merged, kept, i, key);
        merged := merged.Put(k, edge);
      } else {
        var stored := merged.entries[k];
        TurnOverAt(merged, kept, i, key);
        merged := merged.Put(k, stored.(weight := stored.weight + edge.weight));
      }
      i := i + 1;
    }
    assert kept[..i] == kept;
  }

  // ---------------------------------------------------------------------
  // getGraphFromState
  // ---------------------------------------------------------------------

  /** The surviving nodes by their new id, later nodes overwriting earlier ones with the same id. */
  function ProjectedNodes(flags: OMap<string, bool>, isolated: Option<string>, nodes: seq<Node>): OMap<string, Node>
    requires flags.Valid()
  {
    GraphSlice.FromEntries(RewrittenNodes(nodes, AllCollapsed(flags), isolated), GraphSlice.NodeEntryKey)
  }

  /** The re-pointed edges that survive, before merging. */
  function ProjectedEdges(flags: OMap<string, bool>, isolated: Option<string>, nodes: seq<Node>, edges: seq<Edge>): seq<Edge>
    requires flags.Valid()
  {
    KeptEdges(edges, AllCollapsed(flags), ProjectedNodes(flags, isolated, nodes).entries)
  }

  /** Every edge of `out` is the merged edge of its key in `es`. */
  ghost predicate MergedFrom<K>(out: seq<Edge>, es: seq<Edge>, key: Edge -> K) {
    forall e :: e in out ==> HasKey(es, key, key(e)) && e == MergedEdge(es, key, key(e))
  }

  /** Some node has the id. */
  predicate HasNode(nodes: seq<Node>, id: string) {
    exists n :: n in nodes && n.id == id
  }

  /** Some edge has the key. */
  predicate HasEdgeWithKey<K(==)>(out: seq<Edge>, key: Edge -> K, k: K) {
    exists o :: o in out && key(o) == k
  }

  /**
   * The graph of `getGraphFromState` with the parallel edges merged by
   * `key`: every node carries its new id, once per id; every edge joins
   * two different listed nodes, is the only one of its key, stands for
   * every surviving edge of that key, and carries the summed weight of the
   * edges merged into it.
   */
  method Project<K(==,!new)>(flags: OMap<string, bool>, isolated: Option<string>, nodes: seq<Node>, edges: seq<Edge>, key: Edge -> K)
    returns (g: Graph)
    requires flags.Valid() && IgnoresWeight(key)
    ensures g.nodes == ProjectedNodes(flags, isolated, nodes).Values()
    ensures forall i, j :: 0 <= i < j < |g.nodes| ==> g.nodes[i].id != g.nodes[j].id
    ensures forall n :: n in g.nodes ==> InIsolated(n.id, isolated)
    ensures forall p :: 0 <= p < |nodes| && InIsolated(Renamed(nodes[p], AllCollapsed(flags)).id, isolated) ==>
      HasNode(g.nodes, Renamed(nodes[p], AllCollapsed(flags)).id)
    ensures forall e :: e in g.edges ==>
      e.source != e.target && HasNode(g.nodes, e.source) && HasNode(g.nodes, e.target)
    ensures forall i, j :: 0 <= i < j < |g.edges| ==> key(g.edges[i]) != key(g.edges[j])
    ensures MergedFrom(g.edges, ProjectedEdges(flags, isolated, nodes, edges), key)
    ensures forall e :: e in ProjectedEdges(flags, isolated, nodes, edges) ==> HasEdgeWithKey(g.edges, key, key(e))
    ensures TotalWeight(g.edges) == TotalWeight(ProjectedEdges(flags, isolated, nodes, edges))
  {
    var all := AllCollapsed(flags);
    var roots := CollapsedRoots(all);
    var newNodes := GraphSlice.FromEntries(RewrittenNodes(nodes, roots, isolated), GraphSlice.NodeEntryKey);
    assert roots == all;
    assert newNodes == ProjectedNodes(flags, isolated, nodes);
    var kept := KeptEdges(edges, roots, newNodes.entries);
    assert kept == ProjectedEdges(flags, isolated, nodes, edges);
    var merged := MergeEdges(kept, key);
    g := Graph(newNodes.Values(), merged.Values());
    NodesListed(newNodes);
    EdgesListed(merged, kept, key);
  }

  /** `getGraphFromState` as written: parallel edges merged by `${source}-${target}`. */
  method GetGraphFromState(flags: OMap<string, bool>, isolated: Option<string>, nodes: seq<Node>, edges: seq<Edge>)
    returns (g: Graph)
    requires flags.Valid()
    ensures g.nodes == ProjectedNodes(flags, isolated, nodes).Values()
    ensures forall i, j :: 0 <= i < j < |g.nodes| ==> g.nodes[i].id != g.nodes[j].id
    ensures forall n :: n in g.nodes ==> InIsolated(n.id, isolated)
    ensures forall p :: 0 <= p < |nodes| && InIsolated(Renamed(nodes[p], AllCollapsed(flags)).id, isolated) ==>
      HasNode(g.nodes, Renamed(nodes[p], AllCollapsed(flags)).id)
    ensures forall e :: e in g.edges ==>
      e.source != e.target && HasNode(g.nodes, e.source) && HasNode(g.nodes, e.target)
    ensures forall i, j :: 0 <= i < j < |g.edges| ==> PairKey(g.edges[i]) != PairKey(g.edges[j])
    ensures MergedFrom(g.edges, ProjectedEdges(flags, isolated, nodes, edges), PairKey)
    ensures forall e :: e in ProjectedEdges(flags, isolated, nodes, edges) ==> HasEdgeWithKey(g.edges, PairKey, PairKey(e))
    ensures TotalWeight(g.edges) == TotalWeight(ProjectedEdges(flags, isolated, nodes, edges))
  {
    KeysIgnoreWeight();
    g := Project(flags, isolated, nodes, edges, PairKey);
  }

  /**
   * The `${source}-${target}` key does not tell apart an edge from "x-y"
   * to "z" and one from "x" to "y-z": merged, the second one's weight goes
   * to an edge with the first one's ends, and its own ends are lost.
   */
  lemma PairKeyMergesDistinctEnds()
    ensures var a := Edge("x-y", "z", 1, [], None);
      var b := Edge("x", "y-z", 1, [], None);
      PairKey(a) == PairKey(b) && EndsKey(a) != EndsKey(b) &&
      HasKey([a, b], PairKey, PairKey(b)) && MergedEdge([a, b], PairKey, PairKey(b)) == a.(weight := 2)
  {
    var a := Edge("x-y", "z", 1, [], None);
    var b := Edge("x", "y-z", 1, [], None);
    assert PairKey(a) == "x-y-z" == PairKey(b);
    MergeStep([a], PairKey, b, PairKey(b));
    MergeStep([], PairKey, a, PairKey(b));
    assert [a, b] == [a] + [b];
    assert [a] == [] + [a];
  }

  /** The ends key tells every pair of ends apart. */
  lemma EndsKeySeparates()
    ensures SeparatesEnds(EndsKey)
  {
  }

  /**
   * `getGraphFromState` merging parallel edges by their pair of ends:
   * every pair of ends that survives appears exactly once, with the
   * weights of all the surviving edges between those ends summed.
   */
  method GetGraphFromStateByEnds(flags: OMap<string, bool>, isolated: Option<string>, nodes: seq<Node>, edges: seq<Edge>)
    returns (g: Graph)
    requires flags.Valid()
    ensures g.nodes == ProjectedNodes(flags, isolated, nodes).Values()
    ensures forall i, j :: 0 <= i < j < |g.nodes| ==> g.nodes[i].id != g.nodes[j].id
    ensures forall n :: n in g.nodes ==> InIsolated(n.id, isolated)
    ensures forall p :: 0 <= p < |nodes| && InIsolated(Renamed(nodes[p], AllCollapsed(flags)).id, isolated) ==>
      HasNode(g.nodes, Renamed(nodes[p], AllCollapsed(flags)).id)
    ensures forall e :: e in g.edges ==>
      e.source != e.target && HasNode(g.nodes, e.source) && HasNode(g.nodes, e.target)
    ensures forall i, j :: 0 <= i < j < |g.edges| ==>
      (g.edges[i].source, g.edges[i].target) != (g.edges[j].source, g.edges[j].target)
    ensures forall e :: e in ProjectedEdges(flags, isolated, nodes, edges) ==>
      exists o :: (o in g.edges && o.source == e.source && o.target == e.target &&
        o.weight == SumWeights(ProjectedEdges(flags, isolated, nodes, edges), EndsKey, EndsKey(e)))
    ensures forall o :: o in g.edges ==>
      exists e :: (e in ProjectedEdges(flags, isolated, nodes, edges) &&
        o == e.(weight := SumWeights(ProjectedEdges(flags, isolated, nodes, edges), EndsKey, EndsKey(e))))
  {
    KeysIgnoreWeight();
    g := Project(flags, isolated, nodes, edges, EndsKey);
    var kept := ProjectedEdges(flags, isolated, nodes, edges);
    forall e | e in kept
      ensures exists o :: (o in g.edges && o.source == e.source && o.target == e.target &&
        o.weight == SumWeights(kept, EndsKey, EndsKey(e)))
    {
      assert HasEdgeWithKey(g.edges, EndsKey, EndsKey(e));
      var o :| o in g.edges && EndsKey(o) == EndsKey(e);
      assert o == MergedEdge(kept, EndsKey, EndsKey(o));
    }
    forall o | o in g.edges
      ensures exists e :: e in kept && o == e.(weight := SumWeights(kept, EndsKey, EndsKey(e)))
    {
      var e := FirstWithKey(kept, EndsKey, EndsKey(o));
      assert o == MergedEdge(kept, EndsKey, EndsKey(o));
    }
  }

  /** The values of a table keyed by node id list each id once, and every stored id. */
  lemma NodesListed(m: OMap<string, Node>)
    requires m.Valid() && forall k :: k in m.entries ==> m.entries[k].id == k
    ensures forall i, j :: 0 <= i < j < |m.Values()| ==> m.Values()[i].id != m.Values()[j].id
    ensures forall n :: n in m.Values() ==> n.id in m.entries
    ensures forall k :: k in m.entries ==> HasNode(m.Values(), k)
  {
    var vs := m.Values();
    forall k | k in m.entries ensures HasNode(vs, k) {
      var p :| 0 <= p < |m.keys| && m.keys[p] == k;
      assert vs[p] == m.entries[k];
    }
  }

  /** The merged table lists each key once, every edge being the merged edge of its own key, and every key. */
  lemma EdgesListed<K(!new)>(m: OMap<K, Edge>, kept: seq<Edge>, key: Edge -> K)
    requires IgnoresWeight(key) && m.Valid()
    requires forall k :: k in m.entries <==> HasKey(kept, key, k)
    requires forall k :: k in m.entries ==> m.entries[k] == MergedEdge(kept, key, k)
    ensures forall i, j :: 0 <= i < j < |m.Values()| ==> key(m.Values()[i]) != key(m.Values()[j])
    ensures MergedFrom(m.Values(), kept, key)
    ensures forall e :: e in kept ==> HasEdgeWithKey(m.Values(), key, key(e))
  {
    var vs := m.Values();
    forall e | e in vs ensures HasKey(kept, key, key(e)) && e == MergedEdge(kept, key, key(e)) {
      var p :| 0 <= p < |vs| && vs[p] == e;
      ValuesAreStored(m, p);
    }
    forall e | e in kept ensures HasEdgeWithKey(vs, key, key(e)) {
      var j :| 0 <= j < |kept| && kept[j] == e;
      assert HasKey(kept, key, key(e));
      var p :| 0 <= p < |m.keys| && m.keys[p] == key(e);
      assert vs[p] == m.entries[key(e)];
    }
  }
}
