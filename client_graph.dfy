/**
 * The graph as the web view receives it from the extension: nodes, edges
 * with code snippets, and the flattened symbols and references of the file
 * hierarchy.
 */
module ClientGraph {
  import opened Wrappers

  /** A node's `type`. */
  datatype NodeKind = File | Folder | Symbol

  /** A node: `key` is the backend's `filepath|displayName`, `displayName` the (stripped) path or symbol name. */
  datatype Node = Node(
    id: string, key: string, kind: NodeKind, displayName: string,
    filepath: string, lineno: int, colno: int)

  /** A line of code shown on an edge. */
  datatype Snippet = Snippet(lineno: Option<int>, text: string, displayName: string)

  /**
   * An edge between two node ids. `key` is absent on the edges the
   * extension sends and is set by the folder rollup.
   */
  datatype Edge = Edge(
    source: string, target: string, weight: int, snippets: seq<Snippet>,
    key: Option<string>)

  datatype Graph = Graph(nodes: seq<Node>, edges: seq<Edge>)

  /** A symbol of the file hierarchy, flattened. */
  datatype CgSymbol = CgSymbol(
    id: string, key: string, name: string, filepath: string,
    lineno: int, colno: int, kind: string)

  /** A reference to a symbol, flattened. */
  datatype CgReference = CgReference(
    id: string, key: string, symbolId: string, filepath: string,
    lineno: int, colno: int)

  datatype SymbolsAndReferences = SymbolsAndReferences(symbols: seq<CgSymbol>, references: seq<CgReference>)
}
