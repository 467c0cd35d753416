/**
 * `computeCallgraphForFile`: makes every symbol of one file a node, then
 * adds an edge from each symbol to each function it calls directly. The
 * callees' own calls are not queried.
 */
module CallgraphForFile {
  import opened Wrappers
  import opened Oracle
  import opened Graph
  import opened FileBuilders

  /** A callee becomes a node at the start of its whole range (`to.range.start`). */
  function CalleeAt(t: Item): Pos {
    t.rangeStart
  }

  /**
   * `computeCallgraphForFile` for `file`, where `symbols` is what
   * `getSymbols` answered and `calls` answers `getOutgoingCalls` at a
   * position of the file. `progress` is the message of the one progress
   * report, made only when the symbols were listed and no poll of the token
   * saw cancellation.
   */
  method ComputeCallgraphForFile(
    gb: GraphBuilder, file: string, symbols: Answer<seq<SymbolInfo>>, calls: Pos -> Answer<seq<Item>>,
    token: CancellationToken, root: Option<string>, filter: Option<string>)
    returns (progress: Option<string>)
    requires gb.Valid()
    modifies gb, token
    ensures gb.Valid()
    ensures progress.Some? <==> Listed(symbols) && token.NeverCancelled()
    ensures progress.Some? ==> progress.value == StripFilePrefix(file, root)
    ensures old(token.polls) >= token.cancelFrom || !Listed(symbols) ==>
      gb.nodesByKey == old(gb.nodesByKey) && gb.edgesByKey == old(gb.edgesByKey)
    ensures gb.symbolsByKey == old(gb.symbolsByKey) && gb.referencesByKey == old(gb.referencesByKey)
    ensures KeepsNodes(old(gb.nodesByKey), gb.nodesByKey)
    ensures var syms := SymbolsOf(symbols);
      old(gb.EdgeKeys()) <= gb.EdgeKeys() <= old(gb.EdgeKeys()) + AllEdges(file, syms, calls, filter) &&
      old(gb.NodeKeys()) <= gb.NodeKeys() <= old(gb.NodeKeys()) + SymbolKeys(file, syms) + AllTargets(file, syms, calls, filter)
    ensures var syms := SymbolsOf(symbols);
      progress.Some? ==>
        gb.EdgeKeys() == old(gb.EdgeKeys()) + AllEdges(file, syms, calls, filter) &&
        gb.NodeKeys() == old(gb.NodeKeys()) + SymbolKeys(file, syms) + AllTargets(file, syms, calls, filter) &&
        SymbolNodesFirst(old(gb.nodesByKey), gb.nodesByKey, file, syms)
  {
    progress := None;
    var cancelled := token.IsCancellationRequested();
    if cancelled {
      return;
    }
    if !Listed(symbols) {
      return;
    }
    var syms := symbols.value;
    var stop := AddSymbolNodes(gb, file, syms, token);
    if stop {
      return;
    }
    ghost var afterNodes := gb.nodesByKey;
    stop := AddAllTargetEdges(gb, file, syms, calls, CalleeAt, filter, token);
    if stop {
      return;
    }
    SymbolNodesStayFirst(old(gb.nodesByKey), afterNodes, gb.nodesByKey, file, syms);
    progress := Some(StripFilePrefix(file, root));
  }
}
