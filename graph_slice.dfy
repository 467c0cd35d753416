/**
 * The web view's copy of the graph and the state of the request that
 * produced it: the nodes and edges by key, the symbols and references, the
 * expanded folders the rollup honours (kept longest first), the language,
 * and the loading status.
 */
module GraphSlice {
  import opened Wrappers
  import opened Seqs
  import opened Strings
  import opened OrderedMaps
  import opened ClientGraph

  /** The stage the server reports for a scheduled graph. */
  datatype ScheduleStatus = Unknown | Done | Cloning | Indexing | Error | Started

  datatype Language = Python | Javascript | Typescript

  /** The loading status of the graph. */
  datatype Status = Initial | Idle | Loading | Failed

  /** What `checkGraphStatus` resolves to; every part but the status may be `null`. */
  datatype CheckGraphStatusResponse = CheckGraphStatusResponse(
    status: ScheduleStatus, graph: Option<Graph>, language: Option<string>,
    selectedFolder: Option<string>, symbolsAndReferences: Option<SymbolsAndReferences>)

  /** What `scheduleGraph` resolves to; the language may arrive as `null`. */
  datatype ScheduleGraphResponse = ScheduleGraphResponse(statusKey: string, language: Option<Language>)

  /**
   * `Object.fromEntries(xs.map(x => [key(x), x]))`: one entry per distinct
   * key, and no key that no element has.
   */
  function FromEntries<T>(xs: seq<T>, key: T -> string): (m: OMap<string, T>)
    ensures m.Valid()
    ensures forall i :: 0 <= i < |xs| ==> key(xs[i]) in m.entries
    ensures forall k :: k in m.entries ==> key(m.entries[k]) == k && m.entries[k] in xs
    decreases |xs|
  {
    if xs == [] then Empty()
    else
      var init := FromEntries(xs[..|xs| - 1], key);
      assert forall i :: 0 <= i < |xs| - 1 ==> xs[..|xs| - 1][i] == xs[i];
      init.Put(key(xs[|xs| - 1]), xs[|xs| - 1])
  }

  /** Of several elements with the same key, the last one is the entry kept. */
  lemma {:induction false} FromEntriesLastWins<T>(xs: seq<T>, key: T -> string, i: nat)
    requires i < |xs|
    requires forall j :: i < j < |xs| ==> key(xs[j]) != key(xs[i])
    ensures FromEntries(xs, key).entries[key(xs[i])] == xs[i]
    decreases |xs|
  {
    if i < |xs| - 1 {
      var init := xs[..|xs| - 1];
      assert init[i] == xs[i];
      FromEntriesLastWins(init, key, i);
    }
  }

  /** The key of a node in the state: its id. */
  function NodeEntryKey(n: Node): string {
    n.id
  }

  /** The key of an edge in the state: the source id and the target id, concatenated. */
  function EdgeEntryKey(e: Edge): string {
    e.source + e.target
  }

  function SymbolEntryKey(s: CgSymbol): string {
    s.id
  }

  function ReferenceEntryKey(r: CgReference): string {
    r.id
  }

  /**
   * `addExpandedFolders`: the old and the new folders together, each once,
   * longest first.
   */
  function AddFolders(folders: seq<string>, added: seq<string>): (r: seq<string>)
    ensures Distinct(r)
    ensures LongestFirst(r)
    ensures forall f :: f in r <==> f in folders || f in added
  {
    var all := Dedup(folders + added);
    SortByLengthDescElements(all);
    SortByLengthDesc(all)
  }

  /** Whether some prefix of the list is a prefix of `folder`: `prefixes.some(p => folder.startsWith(p))`. */
  predicate UnderAny(folder: string, prefixes: seq<string>) {
    exists p :: p in prefixes && StartsWith(folder, p)
  }

  /**
   * `removeExpandedFolders`: drops every folder under any of the given
   * prefixes, sub-folders included, and keeps the others in their order.
   */
  function RemoveFolders(folders: seq<string>, prefixes: seq<string>): (r: seq<string>)
    ensures forall f :: f in r <==> f in folders && !UnderAny(f, prefixes)
    ensures |r| <= |folders|
    decreases |folders|
  {
    if folders == [] then []
    else
      var tail := RemoveFolders(folders[1..], prefixes);
      if UnderAny(folders[0], prefixes) then tail else [folders[0]] + tail
  }

  /** Removing folders keeps the rest in order, so a list longest first stays longest first, without repeats. */
  lemma {:induction false} RemoveFoldersKeepsOrder(folders: seq<string>, prefixes: seq<string>)
    ensures LongestFirst(folders) ==> LongestFirst(RemoveFolders(folders, prefixes))
    ensures Distinct(folders) ==> Distinct(RemoveFolders(folders, prefixes))
    decreases |folders|
  {
    if folders != [] {
      var tail := folders[1..];
      RemoveFoldersKeepsOrder(tail, prefixes);
      var r := RemoveFolders(folders, prefixes);
      var rt := RemoveFolders(tail, prefixes);
      if !UnderAny(folders[0], prefixes) {
        assert r == [folders[0]] + rt;
        if LongestFirst(folders) {
          assert LongestFirst(tail);
          forall j | 1 <= j < |r| ensures JsLength(r[0]) >= JsLength(r[j]) {
            assert r[j] in tail;
          }
        }
        if Distinct(folders) {
          assert Distinct(tail);
          forall j | 1 <= j < |r| ensures r[0] != r[j] {
            assert r[j] in tail;
          }
        }
      } else {
        assert LongestFirst(folders) ==> LongestFirst(tail);
        assert Distinct(folders) ==> Distinct(tail);
      }
    }
  }

  class DepgraphState {
    var nodes: OMap<string, Node>
    var edges: OMap<string, Edge>
    var expandedFolders: seq<string>
    var language: Option<Language>
    var symbols: OMap<string, CgSymbol>
    var references: OMap<string, CgReference>
    var status: Status
    var scheduleGraphStatus: ScheduleStatus
    var statusKey: Option<string>

    /** The tables are well formed and the expanded folders are sorted longest first. */
    ghost predicate Valid()
      reads this
    {
      nodes.Valid() && edges.Valid() && symbols.Valid() && references.Valid() &&
      LongestFirst(expandedFolders)
    }

    /** The initial state: nothing loaded, status `initial`. */
    constructor()
      ensures Valid()
      ensures nodes == Empty() && edges == Empty() && symbols == Empty() && references == Empty()
      ensures expandedFolders == [] && language == None
      ensures status == Initial && scheduleGraphStatus == Unknown && statusKey == None
    {
      nodes, edges := Empty(), Empty();
      expandedFolders := [];
      language := None;
      symbols, references := Empty(), Empty();
      status, scheduleGraphStatus, statusKey := Initial, Unknown, None;
    }

    /** `setGraphLanguage` */
    method SetGraphLanguage(l: Language)
      modifies this`language
      ensures language == Some(l)
    {
      language := Some(l);
    }

    /** `addExpandedFolders`: the union of the old and the new folders, each once, longest first. */
    method AddExpandedFolders(added: seq<string>)
      requires Valid()
      modifies this`expandedFolders
      ensures Valid()
      ensures expandedFolders == AddFolders(old(expandedFolders), added)
    {
      expandedFolders := AddFolders(expandedFolders, added);
    }

    /** `removeExpandedFolders`: every folder under one of the prefixes is dropped, the rest keep their order. */
    method RemoveExpandedFolders(prefixes: seq<string>)
      requires Valid()
      modifies this`expandedFolders
      ensures Valid()
      ensures expandedFolders == RemoveFolders(old(expandedFolders), prefixes)
    {
      RemoveFoldersKeepsOrder(expandedFolders, prefixes);
      expandedFolders := RemoveFolders(expandedFolders, prefixes);
    }

    /** `scheduleGraph.pending`: loading, with no request key yet. */
    method ScheduleGraphPending()
      modifies this`status, this`statusKey
      ensures status == Loading && statusKey == None
    {
      status, statusKey := Loading, None;
    }

    /** `scheduleGraph.rejected`: failed, and the request key is forgotten. */
    method ScheduleGraphRejected()
      modifies this`status, this`statusKey
      ensures status == Failed && statusKey == None
    {
      status, statusKey := Failed, None;
    }

    /**
     * `scheduleGraph.fulfilled`: still loading, now with the key to poll;
     * the language changes only when the response names one.
     */
    method ScheduleGraphFulfilled(response: ScheduleGraphResponse)
      modifies this`status, this`statusKey, this`language
      ensures status == Loading && statusKey == Some(response.statusKey)
      ensures language == if response.language.Some? then response.language else old(language)
    {
      status := Loading;
      statusKey := Some(response.statusKey);
      if response.language.Some? {
        language := response.language;
      }
    }

    /**
     * `checkGraphStatus.fulfilled`: `Done` makes the graph idle and `Error`
     * failed, both forgetting the request key, while the other stages leave
     * both as they were. A graph in the response replaces the nodes (by id)
     * and the edges (by source and target id); a selected folder joins the
     * expanded folders, with no check for repeats; symbols and references
     * in the response replace the stored ones (by id).
     */
    method CheckGraphStatusFulfilled(response: CheckGraphStatusResponse)
      requires Valid()
      modifies this`status, this`statusKey, this`nodes, this`edges, this`expandedFolders,
        this`symbols, this`references
      ensures Valid()
      ensures (status, statusKey) == match response.status
        case Done => (Idle, None)
        case Error => (Failed, None)
        case _ => (old(status), old(statusKey))
      ensures nodes == if response.graph.Some? then FromEntries(response.graph.value.nodes, NodeEntryKey) else old(nodes)
      ensures edges == if response.graph.Some? then FromEntries(response.graph.value.edges, EdgeEntryKey) else old(edges)
      ensures expandedFolders == match response.selectedFolder
        case Some(f) => SortByLengthDesc(old(expandedFolders) + [f])
        case None => old(expandedFolders)
      ensures symbols ==
        if response.symbolsAndReferences.Some? then FromEntries(response.symbolsAndReferences.value.symbols, SymbolEntryKey)
        else old(symbols)
      ensures references ==
        if response.symbolsAndReferences.Some? then FromEntries(response.symbolsAndReferences.value.references, ReferenceEntryKey)
        else old(references)
    {
      SettleStatus(response.status);
      ReplaceGraph(response.graph);
      AddSelectedFolder(response.selectedFolder);
      ReplaceSymbolsAndReferences(response.symbolsAndReferences);
    }

    /** `Done` makes the graph idle and `Error` failed, both forgetting the request key. */
    method SettleStatus(reported: ScheduleStatus)
      requires Valid()
      modifies this`status, this`statusKey
      ensures Valid()
      ensures (status, statusKey) == match reported
        case Done => (Idle, None)
        case Error => (Failed, None)
        case _ => (old(status), old(statusKey))
    {
      if reported == Done {
        status, statusKey := Idle, None;
      }
      if reported == Error {
        status, statusKey := Failed, None;
      }
    }

    /** The nodes by id and the edges by source and target id, later entries overwriting earlier ones. */
    method ReplaceGraph(graph: Option<Graph>)
      requires Valid()
      modifies this`nodes, this`edges
      ensures Valid()
      ensures nodes == if graph.Some? then FromEntries(graph.value.nodes, NodeEntryKey) else old(nodes)
      ensures edges == if graph.Some? then FromEntries(graph.value.edges, EdgeEntryKey) else old(edges)
    {
      if graph.Some? {
        nodes := FromEntries(graph.value.nodes, NodeEntryKey);
        edges := FromEntries(graph.value.edges, EdgeEntryKey);
      }
    }

    /** `expandedFolders.push(folder)` then the sort, longest first. */
    method AddSelectedFolder(folder: Option<string>)
      requires Valid()
      modifies this`expandedFolders
      ensures Valid()
      ensures expandedFolders == match folder
        case Some(f) => SortByLengthDesc(old(expandedFolders) + [f])
        case None => old(expandedFolders)
    {
      if folder.Some? {
        expandedFolders := SortByLengthDesc(expandedFolders + [folder.value]);
      }
    }

    /** The symbols and the references by id. */
    method ReplaceSymbolsAndReferences(sr: Option<SymbolsAndReferences>)
      requires Valid()
      modifies this`symbols, this`references
      ensures Valid()
      ensures symbols == if sr.Some? then FromEntries(sr.value.symbols, SymbolEntryKey) else old(symbols)
      ensures references == if sr.Some? then FromEntries(sr.value.references, ReferenceEntryKey) else old(references)
    {
      if sr.Some? {
        symbols := FromEntries(sr.value.symbols, SymbolEntryKey);
        references := FromEntries(sr.value.references, ReferenceEntryKey);
      }
    }
  }
}
