/**
 * `computeTypeHierarchyForFile`: keeps the classes, interfaces and type
 * parameters among the symbols of one file, makes each of them a node, then
 * adds an edge from each to each of its direct supertypes. The supertypes'
 * own supertypes are not queried.
 */
module TypeHierarchyForFile {
  import opened Wrappers
  import opened Oracle
  import opened Graph
  import opened FileBuilders

  /** `symbols.filter((s) => isTypeHierarchySymbol(s))`: the type-like symbols, in their order. */
  function TypeSymbols(syms: seq<SymbolInfo>): (r: seq<SymbolInfo>)
    ensures forall s :: s in r <==> s in syms && IsTypeHierarchySymbol(s.kind)
    ensures |r| <= |syms|
    decreases |syms|
  {
    if syms == [] then []
    else (if IsTypeHierarchySymbol(syms[0].kind) then [syms[0]] else []) + TypeSymbols(syms[1..])
  }

  /** The filter keeps a list made only of type-like symbols as it is. */
  lemma {:induction false} TypeSymbolsKeepsTypes(syms: seq<SymbolInfo>)
    requires forall i :: 0 <= i < |syms| ==> IsTypeHierarchySymbol(syms[i].kind)
    ensures TypeSymbols(syms) == syms
    decreases |syms|
  {
    if syms != [] {
      TypeSymbolsKeepsTypes(syms[1..]);
    }
  }

  /** The filter keeps the symbols of a concatenation in order: it is the concatenation of the filtered parts. */
  lemma {:induction false} TypeSymbolsAppend(a: seq<SymbolInfo>, b: seq<SymbolInfo>)
    ensures TypeSymbols(a + b) == TypeSymbols(a) + TypeSymbols(b)
    decreases |a|
  {
    if a != [] {
      assert (a + b)[1..] == a[1..] + b;
      TypeSymbolsAppend(a[1..], b);
    } else {
      assert a + b == b;
    }
  }

  /** A supertype becomes a node at the start of its name (`selectionRange.start`). */
  function SupertypeAt(t: Item): Pos {
    t.selectionStart
  }

  /**
   * `computeTypeHierarchyForFile` for `file`, where `symbols` is what
   * `getSymbols` answered and `supertypes` answers `getSupertypes` at a
   * position of the file. `progress` is the message of the one progress
   * report, made only when the symbols were listed and no poll of the token
   * saw cancellation, even when none of them is type-like.
   */
  method ComputeTypeHierarchyForFile(
    gb: GraphBuilder, file: string, symbols: Answer<seq<SymbolInfo>>, supertypes: Pos -> Answer<seq<Item>>,
    token: CancellationToken, root: Option<string>, filter: Option<string>)
    returns (progress: Option<string>)
    requires gb.Valid()
    modifies gb, token
    ensures gb.Valid()
    ensures progress.Some? <==> Listed(symbols) && token.NeverCancelled()
    ensures progress.Some? ==> progress.value == StripFilePrefix(file, root)
    ensures old(token.polls) >= token.cancelFrom || !Listed(symbols) ==>
      gb.nodesByKey == old(gb.nodesByKey) && gb.edgesByKey == old(gb.edgesByKey)
    ensures gb.symbolsByKey == old(gb.symbolsByKey) && gb.referencesByKey == old(gb.referencesByKey)
    ensures KeepsNodes(old(gb.nodesByKey), gb.nodesByKey)
    ensures var syms := TypeSymbols(SymbolsOf(symbols));
      old(gb.EdgeKeys()) <= gb.EdgeKeys() <= old(gb.EdgeKeys()) + AllEdges(file, syms, supertypes, filter) &&
      old(gb.NodeKeys()) <= gb.NodeKeys() <= old(gb.NodeKeys()) + SymbolKeys(file, syms) + AllTargets(file, syms, supertypes, filter)
    ensures var syms := TypeSymbols(SymbolsOf(symbols));
      progress.Some? ==>
        gb.EdgeKeys() == old(gb.EdgeKeys()) + AllEdges(file, syms, supertypes, filter) &&
        gb.NodeKeys() == old(gb.NodeKeys()) + SymbolKeys(file, syms) + AllTargets(file, syms, supertypes, filter) &&
        SymbolNodesFirst(old(gb.nodesByKey), gb.nodesByKey, file, syms)
  {
    progress := None;
    var cancelled := token.IsCancellationRequested();
    if cancelled {
      return;
    }
    if !Listed(symbols) {
      return;
    }
    var syms := TypeSymbols(symbols.value);
    var stop := AddSymbolNodes(gb, file, syms, token);
    if stop {
      return;
    }
    ghost var afterNodes := gb.nodesByKey;
    stop := AddAllTargetEdges(gb, file, syms, supertypes, SupertypeAt, filter, token);
    if stop {
      return;
    }
    SymbolNodesStayFirst(old(gb.nodesByKey), afterNodes, gb.nodesByKey, file, syms);
    progress := Some(StripFilePrefix(file, root));
  }
}
