/**
 * The state of the file explorer and its reducers: the selection, the
 * isolated directory, the directory tree with its table of collapsed
 * flags, the set of file ids, and the loading status. The tree is rebuilt
 * from the graph's node ids when the graph arrives.
 */
module FileexplorerSlice {
  import opened Wrappers
  import opened Seqs
  import opened Strings
  import opened OrderedMaps
  import opened ClientGraph
  import opened FileexplorerTree
  import GraphSlice

  datatype LoadStatus = IdleStatus | LoadingStatus | Succeeded | FailedStatus

  /** The directories above a node id: its segments but the last, joined one more at a time. */
  function AncestorIds(nodeId: string): (ids: seq<string>)
    ensures |ids| == |Split(nodeId, "/")| - 1
  {
    var parts := Split(nodeId, "/");
    seq(|parts| - 1, i requires 0 <= i < |parts| - 1 => Join(parts[..i + 1], "/"))
  }

  /**
   * The loop of `internalExpandAllDirectoriesTillFile` on its draft of the
   * flag table: `root` and then each directory above the node id, top
   * down, is marked expanded; the first one without an entry stops it,
   * with `ok` false.
   */
  method ExpandTill(flags: OMap<string, bool>, nodeId: string) returns (ok: bool, draft: OMap<string, bool>)
    requires flags.Valid() && Root in flags.entries
    ensures draft.Valid() && draft.keys == flags.keys && draft.entries.Keys == flags.entries.Keys
    ensures ok <==> forall a :: a in AncestorIds(nodeId) ==> a in flags.entries
    ensures ok ==> forall x :: x in draft.entries ==>
      draft.entries[x] == if x == Root || x in AncestorIds(nodeId) then false else flags.entries[x]
  {
    var parts := Split(nodeId, "/");
    var above := parts[..|parts| - 1];
    ghost var ancestors := AncestorIds(nodeId);
    draft := flags.Put(Root, false);
    var i := 0;
    while i < |above|
      invariant 0 <= i <= |above|
      invariant draft.Valid() && draft.keys == flags.keys
      invariant draft.entries.Keys == flags.entries.Keys
      invariant forall a :: a in ancestors[..i] ==> a in flags.entries
      invariant forall x :: x in draft.entries ==>
        draft.entries[x] == if x == Root || x in ancestors[..i] then false else flags.entries[x]
    {
      var id := Join(above[..i + 1], "/");
      assert above[..i + 1] == parts[..i + 1];
      assert id == ancestors[i];
      if id !in draft.entries {
        return false, draft;
      }
      assert id in flags.entries;
      ExpandStep(flags, draft, ancestors[..i], id);
      draft := draft.Put(id, false);
      assert ancestors[..i + 1] == ancestors[..i] + [id];
      i := i + 1;
    }
    assert ancestors[..i] == ancestors;
    return true, draft;
  }

  /** Marking one more directory expanded extends the set of directories the draft has cleared. */
  lemma ExpandStep(flags: OMap<string, bool>, draft: OMap<string, bool>, cleared: seq<string>, id: string)
    requires draft.Valid() && id in draft.entries && draft.entries.Keys == flags.entries.Keys
    requires forall x :: x in draft.entries ==>
      draft.entries[x] == if x == Root || x in cleared then false else flags.entries[x]
    ensures forall x :: x in draft.Put(id, false).entries ==>
      draft.Put(id, false).entries[x] == if x == Root || x in cleared + [id] then false else flags.entries[x]
  {
  }

  /** Every directory of a tree strictly below `dir` is expanded when all of `ids` are. */
  lemma {:induction false} OpenWhenExpanded(dir: Directory, path: seq<string>, flags: OMap<string, bool>, ids: set<string>)
    requires !IsCollapsed(flags, dir.id) && SubdirsIn(dir, ids)
    requires forall x :: x in ids ==> !IsCollapsed(flags, x)
    requires Lookup(dir, path).Some?
    ensures OpenPath(dir, path, flags)
    decreases |path|
  {
    if path != [] {
      var k := Child(dir.directories, path[0]);
      var sub := dir.directories[k];
      assert AllIn(sub, ids);
      OpenWhenExpanded(sub, path[1..], flags, ids);
    }
  }

  class FileexplorerState {
    /** Focused by the arrow keys but not clicked. */
    var preselected: Option<string>
    var selected: Option<string>
    var isolated: Option<string>
    var rootDirectory: Directory
    /** `isCollapsed` of every directory id, in insertion order. */
    var directories: OMap<string, bool>
    /** The ids registered as files. */
    var files: set<string>
    var status: LoadStatus

    /** The flag table is well formed and always has an entry for the top directory. */
    ghost predicate Valid()
      reads this
    {
      directories.Valid() && Root in directories.entries
    }

    /** The initial state: nothing selected, an empty expanded top directory, idle. */
    constructor()
      ensures Valid()
      ensures preselected == None && selected == None && isolated == None
      ensures rootDirectory == EmptyRoot()
      ensures directories.entries == map[Root := false] && files == {} && status == IdleStatus
    {
      preselected, selected, isolated := None, None, None;
      rootDirectory := EmptyRoot();
      directories := Empty<string, bool>().Put(Root, false);
      files := {};
      status := IdleStatus;
    }

    /** `internalSetPreselected` */
    method SetPreselected(id: string)
      modifies this`preselected
      ensures preselected == Some(id)
    {
      preselected := Some(id);
    }

    /** `internalSetSelected` */
    method SetSelected(id: Option<string>)
      modifies this`selected
      ensures selected == id
    {
      selected := id;
    }

    /** `internalSetIsolated` */
    method SetIsolated(id: Option<string>)
      modifies this`isolated
      ensures isolated == id
    {
      isolated := id;
    }

    /**
     * `internalCollapseDirectory`: sets the flag of that one directory. A
     * directory without an entry makes the reducer throw, and then nothing
     * changes; `ok` says whether it had one.
     */
    method CollapseDirectory(id: string) returns (ok: bool)
      requires Valid()
      modifies this`directories
      ensures Valid()
      ensures ok == (id in old(directories.entries))
      ensures directories.keys == old(directories.keys)
      ensures directories.entries == if ok then old(directories.entries)[id := true] else old(directories.entries)
    {
      ok := id in directories.entries;
      if ok {
        directories := directories.Put(id, true);
      }
    }

    /** `internalExpandDirectory`: clears the flag of that one directory, as `CollapseDirectory` sets it. */
    method ExpandDirectory(id: string) returns (ok: bool)
      requires Valid()
      modifies this`directories
      ensures Valid()
      ensures ok == (id in old(directories.entries))
      ensures directories.keys == old(directories.keys)
      ensures directories.entries == if ok then old(directories.entries)[id := false] else old(directories.entries)
    {
      ok := id in directories.entries;
      if ok {
        directories := directories.Put(id, false);
      }
    }

    /**
     * `internalExpandAllDirectoriesTillFile`: expands the top directory and
     * every directory above the node id. When one of those directories has
     * no entry the reducer throws part-way, and its draft is dropped:
     * nothing changes.
     */
    method ExpandAllDirectoriesTillFile(nodeId: string) returns (ok: bool)
      requires Valid()
      modifies this`directories
      ensures Valid()
      ensures ok <==> forall a :: a in AncestorIds(nodeId) ==> a in old(directories.entries)
      ensures directories.keys == old(directories.keys)
      ensures ok ==> forall x :: x in directories.entries ==>
        directories.entries[x] == if x == Root || x in AncestorIds(nodeId) then false else old(directories.entries[x])
      ensures !ok ==> directories == old(directories)
    {
      var done, draft := ExpandTill(directories, nodeId);
      ok := done;
      if ok {
        directories := draft;
      }
    }

    /** `scheduleGraph.pending` */
    method ScheduleGraphPending()
      modifies this`status
      ensures status == LoadingStatus
    {
      status := LoadingStatus;
    }

    /** `scheduleGraph.rejected` */
    method ScheduleGraphRejected()
      modifies this`status
      ensures status == FailedStatus
    {
      status := FailedStatus;
    }

    /**
     * `hydrateRootDirectory`: builds a new tree from the node ids, each id
     * a file of the directory its segments but the last name. Every
     * directory it creates gets a flag entry saying expanded (an entry a
     * directory already had is overwritten), and every id is registered as
     * a file. `created` lists the created directory ids.
     */
    method HydrateRootDirectory(ids: seq<string>) returns (tree: Directory, ghost created: seq<string>)
      requires Valid()
      modifies this`directories, this`files
      ensures Valid()
      ensures Hydrated(tree, ids, created)
      ensures forall x :: x in files <==> x in old(files) || x in ids
      ensures ExpandedOnly(old(directories), directories, created)
    {
      tree := EmptyRoot();
      created := [];
      var n := 0;
      HydratedEmpty();
      while n < |ids|
        invariant 0 <= n <= |ids|
        invariant Valid()
        invariant Hydrated(tree, ids[..n], created)
        invariant forall x :: x in files <==> x in old(files) || x in ids[..n]
        invariant ExpandedOnly(old(directories), directories, created)
      {
        var node := ids[n];
        ghost var before := directories;
        ghost var made;
        tree, made := HydrateNode(tree, node, ids[..n], created);
        ExpandedOnlyChains(old(directories), before, directories, created, made);
        created := created + made;
        assert ids[..n + 1] == ids[..n] + [node];
        n := n + 1;
      }
      assert ids[..n] == ids;
    }

    /**
     * One id of hydration: placed in the tree, the directories created for
     * it marked expanded, and the id registered as a file.
     */
    method HydrateNode(tree: Directory, node: string, ghost done: seq<string>, ghost created: seq<string>)
      returns (tree': Directory, ghost made: seq<string>)
      requires Valid() && Hydrated(tree, done, created)
      modifies this`directories, this`files
      ensures Valid()
      ensures Hydrated(tree', done + [node], created + made)
      ensures files == old(files) + {node}
      ensures ExpandedOnly(old(directories), directories, made)
    {
      var parts := Split(node, "/");
      var placed := Place(tree, parts, 0, node);
      PlaceStep(tree, parts, node, done, created);
      MarkExpanded(placed.1);
      files := files + {node};
      tree', made := placed.0, placed.1;
    }

    /** The flag writes of hydration: each of the ids is marked expanded, in order. */
    method MarkExpanded(ids: seq<string>)
      requires Valid()
      modifies this`directories
      ensures Valid()
      ensures ExpandedOnly(old(directories), directories, ids)
    {
      var j := 0;
      while j < |ids|
        invariant 0 <= j <= |ids|
        invariant Valid()
        invariant ExpandedOnly(old(directories), directories, ids[..j])
      {
        assert ids[..j + 1] == ids[..j] + [ids[j]];
        directories := directories.Put(ids[j], false);
        j := j + 1;
      }
      assert ids[..j] == ids;
    }

    /**
     * `checkGraphStatus.fulfilled`: only `Done` does anything. The status
     * becomes `succeeded` and the tree is rebuilt from the ids of the
     * graph's nodes. A `Done` without a graph makes the reducer throw when
     * it reads `graph.nodes` of the missing graph (the `!` only silences
     * the type checker), and then nothing changes; `ok` is false then.
     */
    method CheckGraphStatusFulfilled(response: GraphSlice.CheckGraphStatusResponse) returns (ok: bool)
      requires Valid()
      modifies this`status, this`rootDirectory, this`directories, this`files
      ensures Valid()
      ensures ok == !(response.status == GraphSlice.Done && response.graph.None?)
      ensures response.status != GraphSlice.Done || !ok ==>
        status == old(status) && rootDirectory == old(rootDirectory) &&
        directories == old(directories) && files == old(files)
      ensures response.status == GraphSlice.Done && ok ==>
        var ids := GraphSlice.FromEntries(response.graph.value.nodes, GraphSlice.NodeEntryKey).keys;
        status == Succeeded &&
        (exists created :: Hydrated(rootDirectory, ids, created) &&
          ExpandedOnly(old(directories), directories, created)) &&
        files == old(files) + (set p | 0 <= p < |response.graph.value.nodes| :: response.graph.value.nodes[p].id) &&
        Distinct(AllFiles(rootDirectory)) && (forall f :: f in AllFiles(rootDirectory) <==> f in ids) &&
        (!IsCollapsed(directories, Root) ==> forall j :: 0 <= j < |ids| ==> ids[j] in Linearize(rootDirectory, directories))
    {
      if response.status != GraphSlice.Done {
        return true;
      }
      if response.graph.None? {
        return false;
      }
      Rebuild(response.graph.value.nodes);
      return true;
    }

    /** The `Done` path with a graph: `succeeded`, and the tree hydrated from the ids of the nodes, by id. */
    method Rebuild(graphNodes: seq<Node>)
      requires Valid()
      modifies this`status, this`rootDirectory, this`directories, this`files
      ensures Valid()
      ensures var ids := GraphSlice.FromEntries(graphNodes, GraphSlice.NodeEntryKey).keys;
        status == Succeeded &&
        (exists created :: Hydrated(rootDirectory, ids, created) &&
          ExpandedOnly(old(directories), directories, created)) &&
        files == old(files) + (set p | 0 <= p < |graphNodes| :: graphNodes[p].id) &&
        Distinct(AllFiles(rootDirectory)) && (forall f :: f in AllFiles(rootDirectory) <==> f in ids) &&
        (!IsCollapsed(directories, Root) ==> forall j :: 0 <= j < |ids| ==> ids[j] in Linearize(rootDirectory, directories))
    {
      var ids := GraphSlice.FromEntries(graphNodes, GraphSlice.NodeEntryKey).keys;
      status := Succeeded;
      ghost var created;
      rootDirectory, created := HydrateRootDirectory(ids);
      RebuiltListsAll(graphNodes, rootDirectory, created, directories, files);
      HydratedFilesOnce(rootDirectory, ids, created);
      NodeKeysAreIds(graphNodes);
      FilesGrowBy(old(files), files, ids, set p | 0 <= p < |graphNodes| :: graphNodes[p].id);
    }
  }

  /**
   * What hydration guarantees of the tree it returns: the top directory is
   * `root`, every directory has the id and depth of its path, every node id
   * lies in the directory its path names, the files of the whole tree are
   * the ids and nothing else, each as often as it was hydrated, and every
   * directory below the top is one of `created`.
   */
  ghost predicate Hydrated(tree: Directory, ids: seq<string>, created: seq<string>) {
    tree.id == Root && tree.name == Root && Shaped(tree, []) &&
    (forall j :: 0 <= j < |ids| ==> Placed(tree, ids[j])) &&
    multiset(AllFiles(tree)) == multiset(ids) &&
    SubdirsIn(tree, set x | x in created)
  }

  /** The empty top directory is the hydration of no ids. */
  lemma HydratedEmpty()
    ensures Hydrated(EmptyRoot(), [], [])
  {
    assert AllFiles(EmptyRoot()) == [];
  }

  /**
   * Hydrating ids without repeats, such as the keys of the node record,
   * gives a tree in which every file is one of the ids, every id is a
   * file, and no file occurs twice.
   */
  lemma HydratedFilesOnce(tree: Directory, ids: seq<string>, created: seq<string>)
    requires Hydrated(tree, ids, created) && Distinct(ids)
    ensures Distinct(AllFiles(tree))
    ensures forall f :: f in AllFiles(tree) <==> f in ids
  {
    PermutationKeepsDistinct(ids, AllFiles(tree));
    forall f ensures f in AllFiles(tree) <==> f in ids {
      assert f in AllFiles(tree) <==> f in multiset(AllFiles(tree));
      assert f in ids <==> f in multiset(ids);
    }
  }

  /**
   * The flag table `after` is `before` with each of `created` marked
   * expanded, and nothing else changed.
   */
  ghost predicate ExpandedOnly(before: OMap<string, bool>, after: OMap<string, bool>, created: seq<string>) {
    after.Valid() &&
    (forall x :: x in created ==> x in after.entries && !after.entries[x]) &&
    (forall x :: x in after.entries <==> x in before.entries || x in created) &&
    (forall x :: x in before.entries && x !in created ==> after.entries[x] == before.entries[x])
  }

  lemma ExpandedOnlyChains(a: OMap<string, bool>, b: OMap<string, bool>, c: OMap<string, bool>, xs: seq<string>, ys: seq<string>)
    requires ExpandedOnly(a, b, xs) && ExpandedOnly(b, c, ys)
    ensures ExpandedOnly(a, c, xs + ys)
  {
  }

  /**
   * After hydration, with the top directory expanded, the listing of the
   * explorer shows every node id: every directory hydration created is
   * expanded.
   */
  lemma HydratedListed(tree: Directory, ids: seq<string>, created: seq<string>, flags: OMap<string, bool>)
    requires Hydrated(tree, ids, created)
    requires forall x :: x in created ==> x in flags.entries && !flags.entries[x]
    ensures !IsCollapsed(flags, Root) ==> forall j :: 0 <= j < |ids| ==> ids[j] in Linearize(tree, flags)
  {
    if !IsCollapsed(flags, Root) {
      forall j | 0 <= j < |ids| ensures ids[j] in Linearize(tree, flags) {
        var parts := Split(ids[j], "/");
        var path := parts[..|parts| - 1];
        assert Placed(tree, ids[j]);
        OpenWhenExpanded(tree, path, flags, set x | x in created);
        ListedIfOpen(tree, path, flags, ids[j]);
      }
    }
  }

  /** After the rebuild every node's id is a file, and with `root` expanded every id is listed. */
  lemma RebuiltListsAll(graphNodes: seq<Node>, tree: Directory, created: seq<string>, flags: OMap<string, bool>, files: set<string>)
    requires var ids := GraphSlice.FromEntries(graphNodes, GraphSlice.NodeEntryKey).keys;
      Hydrated(tree, ids, created) && (forall x :: x in ids ==> x in files)
    requires forall x :: x in created ==> x in flags.entries && !flags.entries[x]
    ensures forall p :: 0 <= p < |graphNodes| ==> graphNodes[p].id in files
    ensures var ids := GraphSlice.FromEntries(graphNodes, GraphSlice.NodeEntryKey).keys;
      !IsCollapsed(flags, Root) ==> forall j :: 0 <= j < |ids| ==> ids[j] in Linearize(tree, flags)
  {
    var nodes := GraphSlice.FromEntries(graphNodes, GraphSlice.NodeEntryKey);
    assert forall p :: 0 <= p < |graphNodes| ==> GraphSlice.NodeEntryKey(graphNodes[p]) in nodes.entries;
    HydratedListed(tree, nodes.keys, created, flags);
  }

  /** The keys of the node record built from the nodes are exactly the ids of the nodes. */
  lemma NodeKeysAreIds(graphNodes: seq<Node>)
    ensures forall x :: x in GraphSlice.FromEntries(graphNodes, GraphSlice.NodeEntryKey).keys <==>
      x in (set p | 0 <= p < |graphNodes| :: graphNodes[p].id)
  {
    var nodes := GraphSlice.FromEntries(graphNodes, GraphSlice.NodeEntryKey);
    forall x ensures x in nodes.keys <==> x in (set p | 0 <= p < |graphNodes| :: graphNodes[p].id) {
      if x in nodes.keys {
        var p :| 0 <= p < |graphNodes| && graphNodes[p] == nodes.entries[x];
        assert GraphSlice.NodeEntryKey(graphNodes[p]) == x;
      }
      if x in (set p | 0 <= p < |graphNodes| :: graphNodes[p].id) {
        var p :| 0 <= p < |graphNodes| && graphNodes[p].id == x;
        assert GraphSlice.NodeEntryKey(graphNodes[p]) in nodes.entries;
      }
    }
  }

  /** Registering every id of `ids` adds exactly the set `ids` names. */
  lemma FilesGrowBy(before: set<string>, after: set<string>, ids: seq<string>, added: set<string>)
    requires forall x :: x in after <==> x in before || x in ids
    requires forall x :: x in ids <==> x in added
    ensures after == before + added
  {
  }

  /** One turn of hydration: the tree keeps its shape and its placed ids, gains the new one, and adds only created directories. */
  lemma PlaceStep(tree: Directory, parts: seq<string>, node: string, done: seq<string>, created: seq<string>)
    requires parts == Split(node, "/")
    requires Hydrated(tree, done, created)
    ensures var placed := Place(tree, parts, 0, node);
      Hydrated(placed.0, done + [node], created + placed.1)
  {
    var placed := Place(tree, parts, 0, node);
    assert parts[..0] == [];
    PlaceShaped(tree, parts, 0, node);
    PlaceFiles(tree, parts, 0, node);
    assert parts[0..|parts| - 1] == parts[..|parts| - 1];
    forall j | 0 <= j < |done| ensures Placed(placed.0, done[j]) {
      var ps := Split(done[j], "/");
      PlaceKeeps(tree, parts, 0, node, ps[..|ps| - 1]);
    }
    var all := set x | x in created + placed.1;
    forall k | 0 <= k < |tree.directories| ensures AllIn(tree.directories[k], all) {
      AllInGrows(tree.directories[k], (set x | x in created), all);
    }
    PlaceSubdirsIn(tree, parts, 0, node, all);
    PlaceAddsOneFile(tree, parts, 0, node);
    assert multiset(done + [node]) == multiset(done) + multiset{node};
    var grown := done + [node];
    assert forall j :: 0 <= j < |grown| ==> Placed(placed.0, grown[j]) by {
      forall j | 0 <= j < |grown| ensures Placed(placed.0, grown[j]) {
        if j < |done| { assert grown[j] == done[j]; } else { assert grown[j] == node; }
      }
    }
  }
}
