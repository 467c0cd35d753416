# callgraph.dev core in Dafny

This project models the core of callgraph.dev and proves properties of the model. callgraph.dev is a VS Code extension with a web front end. It draws call graphs, type hierarchies and file-dependency graphs of a code base.

**Back end.** A language server answers questions about symbols: which symbols a file declares, what a symbol calls, what calls it, its supertypes and subtypes, and where it is referenced. The back end turns these answers into a deduplicated graph.
- The `GraphBuilder` keeps keyed tables of nodes, edges, symbols and references.
- `merge` joins two graphs.
- `retry` repeats a failing query a bounded number of times.
- Two symbol walkers follow a relation recursively from one symbol: the call graph both ways, and the type hierarchy up and down.
- Three per-file builders add one file's symbols and their direct relations to the builder.

**Front end.** Redux slices hold the downloaded graph and the state of the user interface.
- The cytoscape slice rolls file nodes up into folders.
- The file explorer turns the node ids into a directory tree. It lists that tree for keyboard navigation and projects the graph onto its collapsed directories.
- Small slices hold the context menu, the tooltip and the loading bar of the command palette.

## How the source is represented

- **JavaScript `Map`s and object records** are `OrderedMaps.OMap`: a map plus the list of its keys in insertion order. `Values()` lists the values in that order.
- **Random ids.** Ids come from a counter `nextId` that every new record takes and raises. So ids are distinct, while the source's random ids are only very likely distinct.
- **The language server** is a set of functions from a location to an `Answer`: a value, `undefined`, or a thrown error.
- **The cancellation token** is a `CancellationToken` object. It counts its polls, and from a fixed poll number on every poll reports cancellation. `NeverCancelled()` says that no poll so far has seen it.
- **Async functions** run as ordinary sequential calls.
- **Immer reducers** are methods of one class per slice, and each slice is modelled on its own. A reducer that throws part-way leaves its own slice as it was, because Immer drops the draft. Such a method returns `ok == false` and changes nothing in its slice. What the throw does to the other slices is under "## Left out".
- **Classes and methods.** The builder, the walkers, the per-file builders, `retry`, `merge`, the rollup and the collapsed-directory projection are methods over classes, maps and sequences, as the source is. Each method is proved against a specification function or predicate. The lemmas prove that function's properties.

**Two behaviours of the code worth stating.**
- The folder rollup keeps self-loops. An edge between two files of the same folder becomes an edge from the folder to itself, because the rollup in `frontend/src/features/cytoscape/cytoscapeSlice.ts:397-418` never drops an edge whose two ends roll up to one folder. `CytoscapeSlice.RollupEdgeOwnEnds` proves the self-loop.
- `graphSlice` declares a field `scheduleGraphStatus`, but no reducer ever changes it. The model keeps it at its initial value `Unknown`.

**The `||` key split.** `verify` finds the endpoints of an edge by splitting the edge key `srcKey||dstKey` on `"||"`. It therefore succeeds only for well-behaved keys:
- When no path or name contains `|` and no name is empty, every key splits back into its two node keys, and `graph()` returns exactly the stored nodes and edges. `Graph.NodeKeySafe`, `Graph.EdgeKeySplits` and `Graph.GraphSucceedsWhenKeysSafe` prove this.
- An empty display name breaks it. For a path without `|`, the node key is `path|`, the edge key from it is `path|||dst`, and its first `||` comes one character too early. `Graph.EmptyNameEdgeFailsVerify` proves that `graph()` then throws, whatever the other end. This is recorded under "## Findings".

## Model

| member | source | states |
|---|---|---|
| Graph.StripFilePrefix | backend/src/utils/graph.ts:132-148 | Without a root, or when the path does not start with the root, the path is returned whole. Otherwise the path is the root, then one `/` if one follows it, then the result. |
| Graph.FilterByPathMeansUnder | backend/src/utils/graph.ts:150-158 | A path passes a filter exactly when it is the filter followed by something. |
| Graph.InsertNode | backend/src/utils/graph.ts:236-253 | Storing a node adds its key `filepath\|displayName` and changes no stored node. It keeps the node table well formed and uses at most one fresh id. |
| Graph.InsertEdge | backend/src/utils/graph.ts:282-297 | Storing an edge adds its key and changes no stored edge. It uses at most one fresh id. |
| Graph.InsertEndpoints | backend/src/utils/graph.ts:268-281 | Upserting both endpoints adds exactly their two keys and changes no stored node. |
| Graph.NodeStored | backend/src/utils/graph.ts:229-254 | `addNode` keeps the builder invariant: keys match records, ids are distinct and below the counter, and every edge joins stored nodes. |
| Graph.EdgeStored | backend/src/utils/graph.ts:282-297 | Creating an edge between two stored nodes keeps the builder invariant. |
| Graph.InsertFirst | backend/src/utils/graph.ts:335-337 | Storing under a key only if it is absent adds the key and changes no stored record. |
| Graph.GraphBuilder.constructor | backend/src/utils/graph.ts:223-227 | The builder starts with four empty tables. |
| Graph.GraphBuilder.AddNode | backend/src/utils/graph.ts:229-254 | The returned node is the stored node of its key. On a repeat call it is the old node unchanged, so the new type, line and column are ignored. Otherwise it is a new node with the given fields, `hidden = false` and a fresh id. No other table changes. |
| Graph.GraphBuilder.AddEdge | backend/src/utils/graph.ts:256-298 | Both endpoints are upserted, and the edge key is `srcKey\|\|dstKey`. The returned edge is stored under that key, has weight 1 and no snippets, and on a repeat call is the old edge. A new edge points at the two endpoints' node ids. Exactly those node and edge keys are added. |
| Graph.GraphBuilder.StoreEdge | backend/src/utils/graph.ts:282-297 | The edge lookup-or-insert of `addEdge`: the table becomes `InsertEdge` of the old one. |
| Graph.GraphBuilder.CreateEdge | backend/src/utils/graph.ts:286-297 | A new edge stored under a free key keeps the builder valid and changes no node. |
| Graph.FirstUnresolved | backend/src/utils/graph.ts:308-319 | It returns nothing exactly when every edge key splits into two stored node keys. Otherwise it returns an edge whose key does not, and every edge before it resolves. |
| Graph.GraphBuilder.Verify | backend/src/utils/graph.ts:308-319 | The loop reports the first edge, in table order, whose key does not resolve. |
| Graph.GraphBuilder.GetGraph | backend/src/utils/graph.ts:300-319 | `graph()` fails as `verify` does, with the message `Edge <key> references non-existent nodes <source> and <target>` for the first such edge. Otherwise it lists the stored nodes and edges in insertion order. |
| Graph.NodeKeySafe | backend/src/utils/graph.ts:236 | A path and a non-empty name without `\|` give a key without `\|\|` that does not end in `\|`. |
| Graph.EdgeKeySplits | backend/src/utils/graph.ts:282-310 | Two such keys joined by `\|\|` split back into exactly those two keys. |
| Graph.GraphSucceedsWhenKeysSafe | backend/src/utils/graph.ts:300-319 | When every node key is safe, `graph()` succeeds with exactly the stored nodes and edges. |
| Graph.NodeKeysHoldBar | backend/src/utils/graph.ts:236 | Every stored node key `fsPath\|name` holds a `\|`. |
| Graph.EmptyNameKeyDoesNotResolve | backend/src/utils/graph.ts:308-312 | In any valid node table, for any path without `\|` and any other end, the edge key from the node with that path and an empty name splits first into the bare path, which is no stored node key. |
| Graph.EmptyNameEdgeFailsVerify | backend/src/utils/graph.ts:300-319 | As written: if an edge from such a node is stored, `graph()` throws, although the builder made the edge from two stored nodes. |
| Graph.FirstDangling | backend/src/utils/graph.ts:307-319 | It returns nothing exactly when every edge's source and target are ids of stored nodes. Otherwise it returns an edge with a missing end, and every edge before it has both. |
| Graph.GraphByIdsAcceptsBuilt | backend/src/utils/graph.ts:300-319 | Corrected: when `verify` checks the ends by id, `graph()` succeeds on every builder state with exactly the stored nodes and edges, whatever the names and paths. |
| Graph.GraphBuilder.AddSymbol | backend/src/utils/graph.ts:321-339 | The symbol is built fresh with key `fsPath\|name` and a fresh id. It is stored only if its key is new. Nothing else changes. |
| Graph.ReturnedSymbolStoredIffNew | backend/src/utils/graph.ts:326-338 | The returned symbol's id is the stored one exactly when its key was new. |
| Graph.GraphBuilder.AddReference | backend/src/utils/graph.ts:341-354 | The reference is built fresh with key `fsPath\|line` and the symbol's id. It is stored only if its key is new. Nothing else changes. |
| Graph.ReturnedReferenceStoredIffNew | backend/src/utils/graph.ts:342-353 | The returned reference's id is the stored one exactly when its key was new. |
| Graph.FirstRecordWins | backend/src/utils/graph.ts:335-337 | Over a run of inserts, the first record of a new key is the one stored. |
| Graph.KeptOnceStored | backend/src/utils/graph.ts:350-352 | A stored record is never replaced by later inserts. |
| Graph.GraphBuilder.GetSymbolsAndReferences | backend/src/utils/graph.ts:356-361 | It lists every stored symbol and reference once, in insertion order. |
| Graph.Merge | backend/src/utils/graph.ts:195-221 | The merged graph is the node table keyed by id (graph1's nodes, then graph2's), and the edge table of graph1's edges bumped by graph2's edges. |
| Graph.StoreNodes | backend/src/utils/graph.ts:198-203 | The node loops compute `PutNodes`. |
| Graph.StoreEdges | backend/src/utils/graph.ts:205-207 | The first edge loop computes `PutEdges`. |
| Graph.StoreOrBumpEdges | backend/src/utils/graph.ts:208-215 | The second edge loop computes `BumpEdges`. |
| Graph.PutNodesLastWins | backend/src/utils/graph.ts:198-203 | After the loop, an id holds the last node with that id, or its old node if there is none. |
| Graph.MergeNodes | backend/src/utils/graph.ts:196-203 | An id holds graph2's last node of that id, or else graph1's. |
| Graph.BumpEdgesWeights | backend/src/utils/graph.ts:208-215 | A stored edge gains exactly 1 per graph2 edge with its id. A new id stores the first such edge, raised by the number of its repeats. |
| Graph.BumpEdgeGet | backend/src/utils/graph.ts:209-214 | One step adds 1 to an existing edge of the id, or else inserts the edge. |
| Graph.MergeEdgeWeight | backend/src/utils/graph.ts:205-215 | In `merge`, graph1's edge ends with its weight plus the count of graph2's edges with its id. The weights of those edges are not added. |
| OrderedMaps.Put | backend/src/utils/graph.ts:224-227 | `Map.set`: the new entry is in the map. A new key goes last and a present key keeps its place. |
| OrderedMaps.ValuesAreStored | backend/src/utils/graph.ts:302-303 | `Array.from(map.values())` lists the stored values in key order. |
| Oracle.CancellationToken.IsCancellationRequested | backend/src/commands/callgraph/computeCallgraphForSymbol.ts:64-66 | Each poll is counted, and it reports cancellation exactly from the token's cancelling poll on. |
| Oracle.CancellationToken.constructor | backend/src/commands/callgraph/computeCallgraphForSymbol.ts:64-66 | A fresh token has not been polled, and cancels from the given poll on. |
| Retry.FirstValueFrom | backend/src/utils/retry.ts:10-18 | The attempt found produced a value and lies in range. |
| Retry.FirstValueFromIsFirst | backend/src/utils/retry.ts:10-18 | No earlier attempt produced a value. When none is found, no attempt did. |
| Retry.MoreAttemptsKeepFirst | backend/src/utils/retry.ts:12-15 | Allowing more attempts does not change the first success. |
| Retry.Retry | backend/src/utils/retry.ts:2-20 | It returns the first value, after exactly that many calls, or `undefined` after `max(maxRetries, 0)` calls. Errors count as failures. A wait of `delay` follows every failed call, the last one included. |
| Retry.RetryWithDefaults | backend/src/utils/retry.ts:7 | With the defaults, there are at most two calls, 100 ms waits, and a value exactly when one of the first two calls produced it. |
| Walks.AddWalkEdge | backend/src/commands/callgraph/computeCallgraphForSymbol.ts:118-129 | An edge between the current item and a neighbour, in the walk's direction, adds exactly that edge key and both node keys. |
| Walks.AddSymbolEdge | backend/src/commands/callgraph/computeCallgraphForSymbol.ts:118-129 | `addEdge` between two symbol nodes adds exactly their edge key and both node keys. |
| Walks.UnpreparedAddsNothing | backend/src/commands/callgraph/computeCallgraphForSymbol.ts:69-79 | A location where prepare finds nothing, or throws, contributes no edge and no node. |
| Walks.DoneIsComplete | backend/src/commands/callgraph/computeCallgraphForSymbol.ts:207-245 | Once the loop has handled every neighbour, the location is complete: each neighbour that passes the filter has its edge and was walked or cannot be prepared. |
| CallgraphForSymbol.Walk | backend/src/commands/callgraph/computeCallgraphForSymbol.ts:52-248 | A location walked before cancellation is visited once prepare finds it. The walk adds only the edges and nodes of prepared, newly visited locations, and nothing when the token was already cancelled or prepare failed. Without cancellation every newly visited location is complete. It terminates because the visited set grows inside a finite set of locations. |
| CallgraphForSymbol.Follow | backend/src/commands/callgraph/computeCallgraphForSymbol.ts:207-245 | Without cancellation, a neighbour that passes the filter gets its edge and ends up visited, unless prepare fails for it. Only edges are added. `stop` means a poll saw cancellation. A poll that sees cancellation at the start of a turn stops it and adds no node and no edge. |
| CallgraphForSymbol.ComputeCallgraphForSymbol | backend/src/commands/callgraph/computeCallgraphForSymbol.ts:8-50 | Edges are only ever added. The new ones belong to the walked callees (outgoing calls) and the walked callers (incoming calls). Without cancellation a preparable seed is walked both ways, and both walks are complete. |
| TypeHierarchyForSymbol.Walk | backend/src/commands/typehierarchy/computeTypeHierarchyForSymbol.ts:50-225 | The same growth and completeness as the call walk, without a visited set. It adds nothing when cancelled at entry or when prepare fails. From a prepared type that is its own filtered supertype (or subtype) it returns only after a poll has seen cancellation. |
| TypeHierarchyForSymbol.Follow | backend/src/commands/typehierarchy/computeTypeHierarchyForSymbol.ts:191-222 | Without cancellation, a neighbour that passes the filter gets its edge and is reached, unless prepare fails for it. With no visited set, it is walked again even when reached before, so a neighbour at the walk's own location ends only with cancellation. `stop` means a poll saw cancellation. A poll that sees cancellation at the start of a turn stops it and adds no node and no edge. |
| TypeHierarchyForSymbol.WalkVisited | backend/src/commands/typehierarchy/computeTypeHierarchyForSymbol.ts:137-225 | Corrected: the type walk with a visited set. It ends on any finite closed hierarchy whatever the token does, has the call walk's growth and completeness, and a type whose neighbours all lie at walked locations costs at most one poll plus one per neighbour. |
| TypeHierarchyForSymbol.FollowVisited | backend/src/commands/typehierarchy/computeTypeHierarchyForSymbol.ts:191-222 | Corrected: a neighbour at a visited location gets its edge but costs one poll and no walk. A poll that sees cancellation at the start of a turn stops it and adds no node and no edge. |
| TypeHierarchyForSymbol.SelfSupertypeIsOwnNeighbour | backend/src/commands/typehierarchy/computeTypeHierarchyForSymbol.ts:177-221 | On the hierarchy where the type at a location is its own only supertype, that type is its own filtered neighbour and the one location is closed. |
| TypeHierarchyForSymbol.SelfSupertypeWalks | backend/src/commands/typehierarchy/computeTypeHierarchyForSymbol.ts:137-225 | On that hierarchy, the supertype walk as written ends with a poll that saw cancellation for every budget, and the walk with a visited set ends without one when the budget is two polls or more. |
| TypeHierarchyForSymbol.ComputeTypeHierarchyForSymbol | backend/src/commands/typehierarchy/computeTypeHierarchyForSymbol.ts:8-48 | Edges are only ever added. The new ones belong to the walked supertypes and subtypes. Without cancellation a preparable seed is walked both ways, and both walks are complete. |
| FileBuilders.FirstSymbol | backend/src/commands/callgraph/computeCallgraphForFile.ts:43-55 | The symbol found is one of the file's symbols and has the key asked for. |
| FileBuilders.AddSymbolNodes | backend/src/commands/callgraph/computeCallgraphForFile.ts:43-55 | The node loop adds exactly the symbols' keys, or a subset when cancelled. Each new key holds the node of its first symbol. Edges are untouched. |
| FileBuilders.AddTargetEdge | backend/src/commands/callgraph/computeCallgraphForFile.ts:94-105 | One call edge from the symbol to its target adds exactly that edge key and both node keys, and changes no stored node. |
| FileBuilders.AddTargetEdges | backend/src/commands/callgraph/computeCallgraphForFile.ts:82-106 | For one symbol, it adds an edge to each target whose file and uri pass the filter. When not cancelled it adds exactly those. |
| FileBuilders.AddAllTargetEdges | backend/src/commands/callgraph/computeCallgraphForFile.ts:58-107 | The edge loop adds exactly the edges of all symbols. A symbol whose query fails or answers `undefined` contributes none. A cancelled run adds a subset. Stored nodes are kept. |
| FileBuilders.SymbolNodesStayFirst | backend/src/commands/callgraph/computeCallgraphForFile.ts:42-107 | Nodes come before edges: after the edge loop, every new symbol key still holds its symbol's node. |
| CallgraphForFile.ComputeCallgraphForFile | backend/src/commands/callgraph/computeCallgraphForFile.ts:12-118 | Cancellation at entry, or a symbol query that throws or answers `undefined`, leaves the builder as it was. Progress is reported once, exactly when the symbols were listed and no poll saw cancellation, with the stripped path. Then exactly the symbol nodes and the filtered call edges are added, with each symbol's node built from its first symbol. Symbols have no kind filter. |
| TypeHierarchyForFile.TypeSymbols | backend/src/commands/typehierarchy/computeTypeHierarchyForFile.ts:44 | The kept symbols are exactly the classes, interfaces and type parameters. |
| TypeHierarchyForFile.TypeSymbolsKeepsTypes | backend/src/commands/typehierarchy/computeTypeHierarchyForFile.ts:44 | A list of type-like symbols is kept whole and in order. |
| TypeHierarchyForFile.TypeSymbolsAppend | backend/src/commands/typehierarchy/computeTypeHierarchyForFile.ts:44 | Filtering distributes over concatenation, so the order is kept. |
| TypeHierarchyForFile.ComputeTypeHierarchyForFile | backend/src/commands/typehierarchy/computeTypeHierarchyForFile.ts:13-123 | It is the call-graph builder over the type-like symbols only, with supertype edges. Progress is reported even when no symbol is type-like. |
| FileHierarchyForFile.AddFileEdge | backend/src/commands/filehierarchy/computeFileHierarchyForFile.ts:96-107 | A file-to-file edge from the referencing file to the declaring file, with both file nodes. |
| FileHierarchyForFile.AddReferences | backend/src/commands/filehierarchy/computeFileHierarchyForFile.ts:80-108 | Every reference is recorded. An edge is added only for a different file that passes the filter. When not cancelled, exactly those are added. |
| FileHierarchyForFile.AddReferencesOf | backend/src/commands/filehierarchy/computeFileHierarchyForFile.ts:60-108 | A failing or `undefined` reference query adds nothing for that symbol. |
| FileHierarchyForFile.AddAllSymbols | backend/src/commands/filehierarchy/computeFileHierarchyForFile.ts:54-109 | The run adds exactly all symbols' keys, references, file edges and file nodes, or a subset when cancelled. Stored nodes are kept. |
| FileHierarchyForFile.ComputeFileHierarchyForFile | backend/src/commands/filehierarchy/computeFileHierarchyForFile.ts:12-120 | Cancellation or a filtered-out file changes nothing. Otherwise the file node (stripped name, line and column 0) exists even without symbols. Progress is reported exactly when the file passes, the symbols were listed and no poll saw cancellation. |
| Seqs.Dedup | frontend/src/features/graph/graphSlice.ts:125-127 | `[...new Set(xs)]`: the same elements, each once. |
| Strings.JoinSplit | frontend/src/features/cytoscape/cytoscapeSlice.ts:301-305 | Joining the parts of a split restores the string. |
| Strings.KeepSegments | frontend/src/features/cytoscape/cytoscapeSlice.ts:368-371 | Keeping the first n segments gives a prefix, which is the whole path exactly when there are at most n segments. |
| Strings.JsLength | frontend/src/features/graph/graphSlice.ts:128 | `length` counts UTF-16 code units: one or two per character, and exactly one per character when none lies outside the Basic Multilingual Plane. |
| Strings.ProperPrefixIsShorter | frontend/src/features/graph/graphSlice.ts:128 | A proper prefix has fewer code units, so a folder sorted longest first still comes before its own prefixes. |
| Strings.SortByLengthDesc | frontend/src/features/graph/graphSlice.ts:128 | The result is sorted longest first, by `length` in UTF-16 code units. |
| Strings.SortComparesCodeUnits | frontend/src/features/graph/graphSlice.ts:128 | An emoji and `"ab"` both have `length` 2, so the sort keeps `["\u{1F600}", "ab"]` in that order, although the emoji is one character. |
| Strings.SortByLengthDescPermutes | frontend/src/features/graph/graphSlice.ts:128 | The sort is a permutation. |
| Strings.SortByLengthDescElements | frontend/src/features/graph/graphSlice.ts:181 | The sort keeps the same elements, and keeps them distinct if they were. |
| GraphSlice.FromEntries | frontend/src/features/graph/graphSlice.ts:172-177 | `Object.fromEntries`: every entry's key is present, each key holds an entry with that key, and no other entry. |
| GraphSlice.FromEntriesLastWins | frontend/src/features/graph/graphSlice.ts:175-177 | A key holds the last entry with that key. So edges keyed `source+target` overwrite earlier ones. |
| GraphSlice.AddFolders | frontend/src/features/graph/graphSlice.ts:124-129 | The result is exactly the union of old and new folders, without duplicates, longest first. |
| GraphSlice.RemoveFolders | frontend/src/features/graph/graphSlice.ts:130-134 | It keeps exactly the folders that start with no payload string, so sub-folders go too. |
| GraphSlice.RemoveFoldersKeepsOrder | frontend/src/features/graph/graphSlice.ts:130-134 | It keeps the order and the distinctness of the rest. |
| GraphSlice.DepgraphState.constructor | frontend/src/features/graph/graphSlice.ts:35-45 | The initial state: empty tables, no language, status `initial`. |
| GraphSlice.DepgraphState.SetGraphLanguage | frontend/src/features/graph/graphSlice.ts:121-123 | Sets the language. |
| GraphSlice.DepgraphState.AddExpandedFolders | frontend/src/features/graph/graphSlice.ts:124-129 | The expanded folders become `AddFolders` of the old ones. |
| GraphSlice.DepgraphState.RemoveExpandedFolders | frontend/src/features/graph/graphSlice.ts:130-134 | The expanded folders become `RemoveFolders` of the old ones. |
| GraphSlice.DepgraphState.ScheduleGraphPending | frontend/src/features/graph/graphSlice.ts:138-141 | Status becomes `loading` and statusKey null. |
| GraphSlice.DepgraphState.ScheduleGraphRejected | frontend/src/features/graph/graphSlice.ts:142-145 | Status becomes `failed` and statusKey null. |
| GraphSlice.DepgraphState.ScheduleGraphFulfilled | frontend/src/features/graph/graphSlice.ts:146-157 | Status becomes `loading` with the statusKey set. The language changes only when it is given. |
| GraphSlice.DepgraphState.SettleStatus | frontend/src/features/graph/graphSlice.ts:162-169 | `Done` gives `idle`, `Error` gives `failed`, both with statusKey null. Any other status leaves both unchanged. |
| GraphSlice.DepgraphState.ReplaceGraph | frontend/src/features/graph/graphSlice.ts:170-178 | A graph replaces the nodes, keyed by id, and the edges, keyed by `source+target`. |
| GraphSlice.DepgraphState.AddSelectedFolder | frontend/src/features/graph/graphSlice.ts:179-182 | A selected folder is appended without dedup, and the list is re-sorted longest first. |
| GraphSlice.DepgraphState.ReplaceSymbolsAndReferences | frontend/src/features/graph/graphSlice.ts:183-196 | Symbols and references are replaced, keyed by id. |
| GraphSlice.DepgraphState.CheckGraphStatusFulfilled | frontend/src/features/graph/graphSlice.ts:158-197 | The four steps in order: status, graph, selected folder, symbols and references. The folders stay sorted longest first. |
| CytoscapeSlice.GetFolderNameIsParent | frontend/src/features/cytoscape/cytoscapeSlice.ts:297-307 | A single segment is returned unchanged. Otherwise the result ends in `/`, is a prefix of the name with its trailing `/` removed, and only the last segment follows it. |
| CytoscapeSlice.FirstMatch | frontend/src/features/cytoscape/cytoscapeSlice.ts:363-373 | It finds the first expanded folder, in list order, that is a prefix of the name. When there is none, no folder is a prefix. |
| CytoscapeSlice.RollupDisplayName | frontend/src/features/cytoscape/cytoscapeSlice.ts:362-375 | The rolled name is a prefix of the name. It is the name itself exactly when the name has no more segments than are kept. |
| CytoscapeSlice.LongestMatchDecides | frontend/src/features/cytoscape/cytoscapeSlice.ts:362-373 | With the folders longest first, the deciding folder is the longest matching one in code units, and it extends every other match. |
| CytoscapeSlice.KeepsAtLeastTwo | frontend/src/features/cytoscape/cytoscapeSlice.ts:367-374 | At least two segments are kept. |
| CytoscapeSlice.RolledNodeShape | frontend/src/features/cytoscape/cytoscapeSlice.ts:384-391 | A rolled node keeps id, path and position and takes the rolled name as key. It is a folder, with `/` appended, exactly when the name got shorter. Otherwise it is the node with its key set. |
| CytoscapeSlice.NodeById | frontend/src/features/cytoscape/cytoscapeSlice.ts:358 | Every node's id is a key, and each key holds a node of that id. |
| CytoscapeSlice.NodeByIdLastWins | frontend/src/features/cytoscape/cytoscapeSlice.ts:358 | An id holds the last node with that id. |
| CytoscapeSlice.RollupNode | frontend/src/features/cytoscape/cytoscapeSlice.ts:377-394 | A memo hit returns the stored node unchanged. A miss builds the rolled node and stores it. |
| CytoscapeSlice.RollupNodes | frontend/src/features/cytoscape/cytoscapeSlice.ts:396 | Each output node is the memo's node for its rolled name, which is the node built from the first leaf with that name. |
| CytoscapeSlice.RollupEdge | frontend/src/features/cytoscape/cytoscapeSlice.ts:398-419 | The key is `srcKey -> dstKey`. The first edge of a key is stored as a copy pointing at the rolled ids. A repeat adds 1 to the stored edge. |
| CytoscapeSlice.RollupEdges | frontend/src/features/cytoscape/cytoscapeSlice.ts:421 | It fails exactly when some edge has an end that is no node's id. Otherwise every output edge is the final memo edge of its key. |
| CytoscapeSlice.RollupFolders | frontend/src/features/cytoscape/cytoscapeSlice.ts:345-425 | Without nodes, or when the first node is not a file, the inputs come back unchanged. Otherwise the result is the rollup, or an error exactly when an edge end is unknown. |
| CytoscapeSlice.RollupSharesFirstLeaf | frontend/src/features/cytoscape/cytoscapeSlice.ts:377-396 | Every output node is the one built from the first leaf with its rolled name, and has that leaf's id. |
| CytoscapeSlice.RollupSameNameSameNode | frontend/src/features/cytoscape/cytoscapeSlice.ts:377-396 | Two leaves get the same node exactly when they get the same rolled name. |
| CytoscapeSlice.RollupEdgeEnds | frontend/src/features/cytoscape/cytoscapeSlice.ts:398-421 | Every output edge joins two output nodes, namely the rolled nodes of the first edge with its key. |
| CytoscapeSlice.EdgeKeyDetermines | frontend/src/features/cytoscape/cytoscapeSlice.ts:401 | Names without `>` are recovered from their `a -> b` key. |
| CytoscapeSlice.RollupEdgeOwnEnds | frontend/src/features/cytoscape/cytoscapeSlice.ts:398-421 | With such names, each output edge joins its own edge's rolled ends. Two ends in one folder give a self-loop, which is kept. |
| CytoscapeSlice.RollupEdgeWeight | frontend/src/features/cytoscape/cytoscapeSlice.ts:402-406 | An edge's weight is the first edge's weight plus 1 per repeat of its key. Its snippets are the first edge's. |
| CytoscapeSlice.RollupSameKeySameEdge | frontend/src/features/cytoscape/cytoscapeSlice.ts:398-421 | Two input edges share an output edge exactly when their keys are equal. |
| FileexplorerTree.Linearize | frontend/src/features/fileexplorer/fileexplorerSlice.ts:104-117 | The listing starts with the directory's id. A collapsed directory lists only its id. |
| FileexplorerTree.ListedIfOpen | frontend/src/features/fileexplorer/fileexplorerSlice.ts:104-117 | A file is listed when every directory on its path is expanded. |
| FileexplorerTree.IndexOf | frontend/src/features/fileexplorer/fileexplorerSlice.ts:124 | `indexOf` gives the first occurrence, or -1 exactly when the id is absent. |
| FileexplorerTree.Next | frontend/src/features/fileexplorer/fileexplorerSlice.ts:120-126 | The result is the id or a listed entry. An absent id gives the first entry, and the last entry gives itself. |
| FileexplorerTree.Prev | frontend/src/features/fileexplorer/fileexplorerSlice.ts:129-135 | The result is the id or a listed entry. An absent id and the first entry give themselves. |
| FileexplorerTree.NextPrevInverse | frontend/src/features/fileexplorer/fileexplorerSlice.ts:120-135 | In a listing without repeats, next gives the following entry and prev undoes it. |
| FileexplorerTree.Child | frontend/src/features/fileexplorer/fileexplorerSlice.ts:393 | `fs.directories[name]` finds the subdirectory of that name, or reports that there is none. |
| FileexplorerTree.Place | frontend/src/features/fileexplorer/fileexplorerSlice.ts:385-410 | Placing a node keeps the directory's id, name and depth. |
| FileexplorerTree.PlaceShaped | frontend/src/features/fileexplorer/fileexplorerSlice.ts:393-407 | Every directory keeps id = its path prefix and depth = its segment count. |
| FileexplorerTree.PlaceFiles | frontend/src/features/fileexplorer/fileexplorerSlice.ts:388-391 | The node becomes a file of the directory its parent path names. |
| FileexplorerTree.FlattenAppend | frontend/src/features/fileexplorer/fileexplorerSlice.ts:396-401 | Flattening one more list appends it. |
| FileexplorerTree.FlattenUpdate | frontend/src/features/fileexplorer/fileexplorerSlice.ts:401-406 | Replacing one list by one with some more elements adds exactly those to the flattened list, counted with repeats. |
| FileexplorerTree.AllFilesUpdate | frontend/src/features/fileexplorer/fileexplorerSlice.ts:406 | Replacing a sub-directory by one with some more files adds exactly those to the files of the tree. |
| FileexplorerTree.AllFilesAppend | frontend/src/features/fileexplorer/fileexplorerSlice.ts:401 | Adding a sub-directory adds exactly its files to the files of the tree. |
| FileexplorerTree.AllFilesAddFile | frontend/src/features/fileexplorer/fileexplorerSlice.ts:389 | `fs.files.push(node)` appends the node to the files of the tree. |
| FileexplorerTree.PlaceAddsOneFile | frontend/src/features/fileexplorer/fileexplorerSlice.ts:385-410 | Placing a node adds exactly that node to the files of the tree, once, and no other file. |
| FileexplorerTree.PlaceKeeps | frontend/src/features/fileexplorer/fileexplorerSlice.ts:385-410 | Placing keeps every directory and file already in the tree. |
| FileexplorerSlice.AncestorIds | frontend/src/features/fileexplorer/fileexplorerSlice.ts:343-350 | One id per proper ancestor: as many as the path has segments, minus one. |
| FileexplorerSlice.ExpandTill | frontend/src/features/fileexplorer/fileexplorerSlice.ts:341-351 | The loop sets the root and every ancestor to expanded. It succeeds exactly when all ancestors have flags, and leaves other flags as they were. |
| FileexplorerSlice.FileexplorerState.constructor | frontend/src/features/fileexplorer/fileexplorerSlice.ts:40-58 | The initial state: nothing selected, an empty root, only the root's flag (expanded), status `idle`. |
| FileexplorerSlice.FileexplorerState.SetPreselected | frontend/src/features/fileexplorer/fileexplorerSlice.ts:319-321 | Sets preselected. |
| FileexplorerSlice.FileexplorerState.SetSelected | frontend/src/features/fileexplorer/fileexplorerSlice.ts:322-324 | Sets selected. |
| FileexplorerSlice.FileexplorerState.SetIsolated | frontend/src/features/fileexplorer/fileexplorerSlice.ts:325-328 | Sets isolated. |
| FileexplorerSlice.FileexplorerState.CollapseDirectory | frontend/src/features/fileexplorer/fileexplorerSlice.ts:329-332 | Only the named directory's flag becomes collapsed. An unknown directory throws and changes nothing. |
| FileexplorerSlice.FileexplorerState.ExpandDirectory | frontend/src/features/fileexplorer/fileexplorerSlice.ts:333-336 | Only the named directory's flag becomes expanded. An unknown directory changes nothing. |
| FileexplorerSlice.FileexplorerState.ExpandAllDirectoriesTillFile | frontend/src/features/fileexplorer/fileexplorerSlice.ts:337-352 | The root and every proper ancestor become expanded, and nothing else changes. If an ancestor has no entry, nothing changes at all. |
| FileexplorerSlice.FileexplorerState.ScheduleGraphPending | frontend/src/features/fileexplorer/fileexplorerSlice.ts:355-357 | Status becomes `loading`. |
| FileexplorerSlice.FileexplorerState.ScheduleGraphRejected | frontend/src/features/fileexplorer/fileexplorerSlice.ts:358-360 | Status becomes `failed`. |
| FileexplorerSlice.FileexplorerState.HydrateNode | frontend/src/features/fileexplorer/fileexplorerSlice.ts:385-410 | One node is placed in the tree and registered as a file. The tree's files become the ids so far plus this one, and nothing else. Only the directories it creates are flagged, each expanded. |
| FileexplorerSlice.FileexplorerState.MarkExpanded | frontend/src/features/fileexplorer/fileexplorerSlice.ts:403-405 | Each given directory is set to expanded, and gets a flag if it had none. Every other flag stays as it was. |
| FileexplorerSlice.FileexplorerState.HydrateRootDirectory | frontend/src/features/fileexplorer/fileexplorerSlice.ts:375-412 | It builds a tree whose files are exactly the ids, each as often as it is given, each in the directory its path names. Exactly the ids are added to the registered files. Only the directories it creates get flags, all expanded. |
| FileexplorerSlice.FileexplorerState.CheckGraphStatusFulfilled | frontend/src/features/fileexplorer/fileexplorerSlice.ts:361-415 | A status other than `Done` changes nothing, and `Done` without a graph throws and changes nothing. Otherwise status is `succeeded` and the tree is rebuilt from the node ids. The registered files become the old ones plus exactly the node ids. The tree's files are exactly the node ids, each once, and while the root is expanded every id is listed. |
| FileexplorerSlice.FileexplorerState.Rebuild | frontend/src/features/fileexplorer/fileexplorerSlice.ts:366-414 | The rebuild after `Done`, with the same guarantees: files gain exactly the node ids, and the tree holds each id once and nothing else. |
| FileexplorerSlice.HydratedListed | frontend/src/features/fileexplorer/fileexplorerSlice.ts:375-414 | In a hydrated tree whose new directories are expanded, every id is listed while the root is expanded. |
| FileexplorerSlice.HydratedEmpty | frontend/src/features/fileexplorer/fileexplorerSlice.ts:378-384 | The empty root is the hydration of no ids. |
| FileexplorerSlice.HydratedFilesOnce | frontend/src/features/fileexplorer/fileexplorerSlice.ts:375-412 | Hydrating ids without repeats gives a tree whose files are exactly those ids, none twice. |
| FileexplorerSlice.NodeKeysAreIds | frontend/src/features/fileexplorer/fileexplorerSlice.ts:369-371 | The keys of `Object.fromEntries(graph.nodes.map(node => [node.id, node]))` are exactly the node ids. |
| FileexplorerSlice.FilesGrowBy | frontend/src/features/fileexplorer/fileexplorerSlice.ts:390 | Registering every id of a list adds exactly the set of those ids. |
| FileexplorerSlice.RebuiltListsAll | frontend/src/features/fileexplorer/fileexplorerSlice.ts:369-414 | After a rebuild every graph node is a file and, while the root is expanded, every id is listed. |
| FileexplorerSlice.OpenWhenExpanded | frontend/src/features/fileexplorer/fileexplorerSlice.ts:403-405 | If the root and every created directory are expanded, every path in the tree is open. |
| FileexplorerGraph.CollapsedIds | frontend/src/features/fileexplorer/fileexplorerSlice.ts:141-143 | It keeps exactly the collapsed directories, without repeats. |
| FileexplorerGraph.AllCollapsed | frontend/src/features/fileexplorer/fileexplorerSlice.ts:141-144 | The collapsed directories, each once, longest first. |
| FileexplorerGraph.StartsWithSome | frontend/src/features/fileexplorer/fileexplorerSlice.ts:150-155 | The inner loop finds whether the directory starts with some root found so far. |
| FileexplorerGraph.CollapsedRoots | frontend/src/features/fileexplorer/fileexplorerSlice.ts:147-159 | Every collapsed directory lies under a kept one. With distinct directories sorted longest first, every directory is kept. |
| FileexplorerGraph.NotUnderEarlier | frontend/src/features/fileexplorer/fileexplorerSlice.ts:148-158 | In that order, no directory starts with an earlier, longer one. |
| FileexplorerGraph.FirstPrefix | frontend/src/features/fileexplorer/fileexplorerSlice.ts:165-169 | It finds the first directory that is a prefix of the parent path, or there is none. |
| FileexplorerGraph.DeepestCollapsedWins | frontend/src/features/fileexplorer/fileexplorerSlice.ts:162-171 | An id is rewritten to the longest collapsed directory, in code units, that its parent path starts with, or kept when there is none. |
| FileexplorerGraph.RewrittenNodes | frontend/src/features/fileexplorer/fileexplorerSlice.ts:173-187 | Exactly the rewritten nodes inside `isolated` survive. |
| FileexplorerGraph.KeptEdges | frontend/src/features/fileexplorer/fileexplorerSlice.ts:189-203 | Exactly the re-pointed edges that are not self-edges and join two surviving nodes survive. |
| FileexplorerGraph.MergeEdges | frontend/src/features/fileexplorer/fileexplorerSlice.ts:205-213 | One edge per key: the first edge of the key, carrying the sum of the weights of that key. The total weight is kept. |
| FileexplorerGraph.Project | frontend/src/features/fileexplorer/fileexplorerSlice.ts:138-216 | Nodes are listed once per new id, all inside `isolated`, and each surviving node is listed. Edges join two different listed nodes, one per key, each merged from its key's surviving edges. The total weight is kept. |
| FileexplorerGraph.NodesListed | frontend/src/features/fileexplorer/fileexplorerSlice.ts:187-215 | `Object.values` of the node record lists each id once. |
| FileexplorerGraph.EdgesListed | frontend/src/features/fileexplorer/fileexplorerSlice.ts:205-215 | `Object.values` of the edge record lists one merged edge per key, and each surviving edge's key appears. |
| FileexplorerGraph.GetGraphFromState | frontend/src/features/fileexplorer/fileexplorerSlice.ts:138-216 | As written, edges are merged by the string `source-target`: one edge per such key, summed weights, total weight kept. The nodes are the projected node record's values: each new id once, all inside `isolated`, every surviving node listed. Every edge joins two different listed nodes. Every surviving projected edge's `source-target` key appears among the edges. |
| FileexplorerGraph.PairKeyMergesDistinctEnds | frontend/src/features/fileexplorer/fileexplorerSlice.ts:207 | The edges `x-y → z` and `x → y-z` share the key `x-y-z`, so the second is merged into the first. |
| FileexplorerGraph.EndsKeySeparates | frontend/src/features/fileexplorer/fileexplorerSlice.ts:207 | Keying by the pair (source, target) merges only edges with the same two ends. |
| FileexplorerGraph.GetGraphFromStateByEnds | frontend/src/features/fileexplorer/fileexplorerSlice.ts:138-216 | Corrected: one edge per (source, target) pair, each carrying the summed weight of the surviving edges with those ends. The nodes are as in `GetGraphFromState`, and every edge joins two different listed nodes. |
| ContextMenuSlice.CoreGroups | frontend/src/features/contextmenu/contextMenuSlice.ts:34-47 | "Graph" holds [Reveal all hidden nodes]. "Folder" holds [Collapse all folders, Expand all folders]. |
| ContextMenuSlice.NodeGroups | frontend/src/features/contextmenu/contextMenuSlice.ts:48-62 | "Graph" holds [Hide node]. "Folder" starts with Collapse enclosing folder, and has Expand folder and then Summarize API exactly when the target is a folder. |
| ContextMenuSlice.ContextMenuState.constructor | frontend/src/features/contextmenu/contextMenuSlice.ts:22-25 | No position and no groups. |
| ContextMenuSlice.ContextMenuState.ShowContextMenu | frontend/src/features/contextmenu/contextMenuSlice.ts:31-66 | The position is always set. The groups follow the target type, and an unknown type leaves them unchanged. |
| ContextMenuSlice.ContextMenuState.HideContextMenu | frontend/src/features/contextmenu/contextMenuSlice.ts:67-69 | Only the position is cleared. |
| ContextMenuSlice.ContextMenuState.SetOptionGroups | frontend/src/features/contextmenu/contextMenuSlice.ts:70-72 | Only the groups are replaced. |
| TooltipSlice.HasContents | frontend/src/features/tooltip/tooltipSlice.ts:50-58 | False exactly for a code view without snippets and for empty plain text. |
| TooltipSlice.TooltipState.constructor | frontend/src/features/tooltip/tooltipSlice.ts:11-17 | Hidden, with empty plain text. |
| TooltipSlice.TooltipState.ShowTooltip | frontend/src/features/tooltip/tooltipSlice.ts:35-39 | The payload becomes the details. The tooltip is hidden exactly when the payload is empty. |
| TooltipSlice.TooltipState.HideTooltip | frontend/src/features/tooltip/tooltipSlice.ts:40-46 | Whatever the state before, it equals the initial state, so hiding twice is hiding once. |
| CmdpalSlice.ProgressWidth | frontend/src/features/cmdpal/cmdpalSlice.ts:46-56 | Started, Cloning and Indexing give two, three and four sixths. Any other status keeps the width. |
| CmdpalSlice.CmdpalState.constructor | frontend/src/features/cmdpal/cmdpalSlice.ts:17-20 | Not focused, full width. |
| CmdpalSlice.CmdpalState.Focus | frontend/src/features/cmdpal/cmdpalSlice.ts:26-28 | Focused, width unchanged. |
| CmdpalSlice.CmdpalState.Blur | frontend/src/features/cmdpal/cmdpalSlice.ts:29-31 | Not focused, width unchanged. |
| CmdpalSlice.CmdpalState.SetLoadingBarWidth | frontend/src/features/cmdpal/cmdpalSlice.ts:32-37 | The width becomes the payload. |
| CmdpalSlice.CmdpalState.ScheduleGraphPending | frontend/src/features/cmdpal/cmdpalSlice.ts:40-42 | One sixth. |
| CmdpalSlice.CmdpalState.ScheduleGraphRejected | frontend/src/features/cmdpal/cmdpalSlice.ts:43-45 | Full width. |
| CmdpalSlice.CmdpalState.CheckGraphStatusFulfilled | frontend/src/features/cmdpal/cmdpalSlice.ts:46-56 | The width becomes `ProgressWidth` of the status, and focus is unchanged. |

## Left out

- The language-server queries (`getSymbols`, `prepareCallHierarchy`, `getIncomingCalls`, `getOutgoingCalls`, the type-hierarchy and reference queries) are calls into VS Code. They become parameters: functions from a position to an `Answer`.
- `getPosition`, `getLocation` and `getSymbolKind` only unwrap VS Code types. A symbol arrives with its position and kind already read.
- `getWorkspaceRoot`, `locationKey` and `expandSymbols` are not part of this model. The last two are never called.
- `generateRandomId` is random. A counter takes its place, so the model's ids are certainly distinct.
- Graph.Merge: `existingEdge.weight += 1` also changes graph1's own edge object. That aliasing is not modelled: graph1 is a value and keeps its weights.
- The progress `increment: 100 / totalFiles` is floating point. It is left out, and only the one report and its message are modelled.
- Progress messages with node names in the walkers, the logger and `console.time` are left out: they are output only.
- CallgraphForSymbol.Walk: the visited set holds locations, not their `JSON.stringify` text. Two locations are the same exactly when their file and position are.
- CallgraphForSymbol.Walk: termination is proved for walks inside a given finite set of locations closed under the filtered neighbours.
- TypeHierarchyForSymbol.Walk: in the model the token always cancels at some poll, and termination is proved by the polls left before it. The model does not cover a run on an acyclic hierarchy whose token never cancels. On a hierarchy where a type is its own supertype, the walk returns only after cancellation; this is recorded under "## Findings".
- Graph.GraphBuilder.GetGraph: the ids in the error message are the decimal digits of the counter that stands for the random ids.
- Retry.Retry: `maxRetries` and `delay` are integers, and the wait is recorded in `waited` instead of a timer.
- `isCallItemSymbol` is defined but never used, so it is left out.
- JavaScript objects list integer-like keys first, in numeric order. The model lists every key in insertion order, as a `Map` would.
- Keys that clash with `Object.prototype` (`constructor`, `__proto__`) are not modelled. So `directories[id]` of such an id counts as absent.
- The cytoscape drawing, layout, event handlers, tap and context thunks and `cytoscapeSummarizeAPI` work on the global `window.cy`. They are left out.
- `filterNodesByText` and `redrawGraph` work on `window.cy`, and `scheduleGraph` and `checkGraphStatus` are `fetch` calls. Only the reducers' responses to those requests are modelled.
- The file-explorer thunks (`selectFileOrDir`, `scrollFileIntoView`, `collapseDirectory`, the preselect thunks) dispatch actions or touch the DOM. Their reducers are modelled.
- The hydration is modelled on values: the tree is a `Directory` value rebuilt by `Place`, not a draft mutated in place.
- A directory's subdirectories are a sequence in insertion order with `name` as their key. An integer-like name would be ordered first by JavaScript. Two nodes with the same id collapse into one key before hydration.
- The slices are modelled one at a time, not as the one combined root reducer of `frontend/src/store.ts:32-45`. That reducer does not catch a throw. When one slice's reducer throws, the whole dispatch fails and no slice's update for that action lands. A `Done` response without a graph throws in the file explorer's reducer (`fileexplorerSlice.ts:367-370`). So graphSlice's own `Done` update, status `idle` and `statusKey` null, is lost for that action. GraphSlice.DepgraphState.CheckGraphStatusFulfilled and GraphSlice.DepgraphState.SettleStatus model that update as if it landed, and CmdpalSlice.CmdpalState.CheckGraphStatusFulfilled likewise models its width update.
- Array `sort` is the stable insertion sort `SortByLengthDesc`. Modern JavaScript engines sort stably too. Its key is `JsLength`, the UTF-16 `length`. The other string operations of the model compare strings or cut them at whole characters, such as after a matched prefix or at a `/` or `|`. They give the same answer in either unit, so they work on characters.
- CallgraphForFile.ComputeCallgraphForFile: the cancellation checks inside the query wrappers are not modelled. Each wrapper reads the token itself and returns `undefined` once it is cancelled (`backend/src/utils/vscodecmd/getOutgoingCalls.ts:13-15`, `31-33` and `38-40`, `getSymbols.ts:14-16`, `getReferences.ts:13-15`, `getSupertypes.ts:13-15` and `31-37`). The model's queries are functions of the position alone and never see the token. In the source, a cancellation that arrives during the last symbol's query makes that query `undefined`, the loop `continue`s, and progress is still reported at `computeCallgraphForFile.ts:109-112` with that symbol's edges missing. So reported progress does not prove that the last query finished. The clause saying that reported progress means the exact edge keys are present holds only because the model's queries ignore the token.
- TypeHierarchyForFile.ComputeTypeHierarchyForFile and FileHierarchyForFile.ComputeFileHierarchyForFile: the same holds for their supertype and reference queries. Their exactness on reported progress rests on queries that ignore the token.
- CallgraphForSymbol.Walk, TypeHierarchyForSymbol.Walk and TypeHierarchyForSymbol.WalkVisited: the same holds for `prepare` and the neighbour queries. In the source, a query cancelled after the walker's last poll is `undefined`. The walk can then end with no poll seeing cancellation and still miss that query's neighbours. The model's completeness clauses hold when no poll saw cancellation, and they rest on queries that ignore the token.

## Findings

| source | as written | input that shows it | evidently intended | confidence | as-written member | corrected member |
|---|---|---|---|---|---|---|
| frontend/src/features/fileexplorer/fileexplorerSlice.ts:207 | Parallel edges are merged under the key `${edge.source}-${edge.target}`. Ids that contain `-` can collide, and the edges of two different node pairs are then merged into one. | Edges `x-y → z` and `x → y-z`, each of weight 1, both have the key `x-y-z`. The result is one edge `x-y → z` of weight 2, and the edge into `y-z` is lost. | Merge only edges with the same source and the same target. | not executed; file and folder names with `-` are common | FileexplorerGraph.GetGraphFromState, FileexplorerGraph.PairKeyMergesDistinctEnds | FileexplorerGraph.GetGraphFromStateByEnds, FileexplorerGraph.EndsKeySeparates |
| backend/src/utils/graph.ts:308-312 | `verify` finds an edge's ends again by splitting its key on `\|\|`. A node key `fsPath\|name` with an empty name ends in `\|`, so the edge key from it holds `\|\|\|` and splits one character too early. `graph()` then throws on an edge the builder made from two stored nodes. | A symbol with the empty name in file `a`, with an edge to a node `b\|c`: the edge key `a\|\|\|b\|c` splits into `a` and `\|b\|c`, and no node has the key `a`. | Check that each edge's source and target exist as nodes, as the comment above `verify` says, by their ids. | not executed; needs a symbol with an empty name | Graph.EmptyNameEdgeFailsVerify, Graph.EmptyNameKeyDoesNotResolve | Graph.GraphByIdsAcceptsBuilt, Graph.FirstDangling |
| backend/src/commands/typehierarchy/computeTypeHierarchyForSymbol.ts:213-221 | The supertype walk, like the subtype walk at lines 123-131, recurses into every neighbour with no visited set. | A type whose supertype query lists the type itself: the supertype walk from it calls itself on the same location until a poll sees cancellation. | Thread a visited set as the call walks do, so that each location is walked once. | not executed; needs a language server that reports a cycle in a type hierarchy | TypeHierarchyForSymbol.Walk, TypeHierarchyForSymbol.SelfSupertypeWalks | TypeHierarchyForSymbol.WalkVisited, TypeHierarchyForSymbol.FollowVisited |
