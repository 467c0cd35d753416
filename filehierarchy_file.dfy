/**
 * `computeFileHierarchyForFile`: makes one file a node, records each of its
 * symbols and every reference to each symbol, and adds an edge from each
 * other file that references a symbol to the file that declares it.
 */
module FileHierarchyForFile {
  import opened Wrappers
  import opened Oracle
  import opened Graph
  import opened FileBuilders

  /** The key of the file node of `path`: its path and its path relative to the root. */
  function FileKey(path: string, root: Option<string>): string {
    NodeKey(path, StripFilePrefix(path, root))
  }

  /**
   * Apart from its id, `n` is the visible file node `addNode("file", …)`
   * makes for `path`: named by the path relative to the root, at line and
   * column 0.
   */
  predicate IsFileNode(n: Node, path: string, root: Option<string>) {
    n.(id := 0) == Node(0, FileKey(path, root), FileNode, StripFilePrefix(path, root), path, 0, 0, false)
  }

  /** The references the inner loop runs over for one symbol: none when the query answered `undefined` or threw. */
  function References(refs: Pos -> Answer<seq<Location>>, sym: SymbolInfo): seq<Location> {
    var a := refs(sym.position);
    if a.Value? then a.value else []
  }

  /** A reference adds an edge when it lies in another file and that file passes the filter. */
  predicate AddsEdge(file: string, r: Location, filter: Option<string>) {
    r.file != file && FilterByPath(r.file, filter)
  }

  /** The keys of the reference records of `rs`. */
  ghost function RefKeys(rs: seq<Location>): set<string> {
    set r | r in rs :: ReferenceKey(r.file, r.pos.line)
  }

  /** The edges the references `rs` add, each from the referencing file to `file`. */
  ghost function FileEdgesOf(file: string, rs: seq<Location>, root: Option<string>, filter: Option<string>): set<string> {
    set r | r in rs && AddsEdge(file, r, filter) :: EdgeKey(FileKey(r.file, root), FileKey(file, root))
  }

  /** The nodes of the referencing files those edges start from. */
  ghost function FileNodesOf(file: string, rs: seq<Location>, root: Option<string>, filter: Option<string>): set<string> {
    set r | r in rs && AddsEdge(file, r, filter) :: FileKey(r.file, root)
  }

  /** The reference keys of all the symbols `syms`. */
  ghost function AllRefKeys(syms: seq<SymbolInfo>, refs: Pos -> Answer<seq<Location>>): set<string> {
    set sym, r | sym in syms && r in References(refs, sym) :: ReferenceKey(r.file, r.pos.line)
  }

  /** The edges the references to all the symbols `syms` add. */
  ghost function AllFileEdges(
    file: string, syms: seq<SymbolInfo>, refs: Pos -> Answer<seq<Location>>, root: Option<string>, filter: Option<string>)
    : set<string>
  {
    set sym, r | sym in syms && r in References(refs, sym) && AddsEdge(file, r, filter) ::
      EdgeKey(FileKey(r.file, root), FileKey(file, root))
  }

  /** The nodes of the files those edges start from. */
  ghost function AllFileNodes(
    file: string, syms: seq<SymbolInfo>, refs: Pos -> Answer<seq<Location>>, root: Option<string>, filter: Option<string>)
    : set<string>
  {
    set sym, r | sym in syms && r in References(refs, sym) && AddsEdge(file, r, filter) :: FileKey(r.file, root)
  }

  lemma RefKeysStep(rs: seq<Location>, j: nat)
    requires j < |rs|
    ensures RefKeys(rs[..j + 1]) == RefKeys(rs[..j]) + {ReferenceKey(rs[j].file, rs[j].pos.line)}
  {
    assert rs[..j + 1] == rs[..j] + [rs[j]];
  }

  lemma FileEdgesStep(file: string, rs: seq<Location>, j: nat, root: Option<string>, filter: Option<string>)
    requires j < |rs|
    ensures FileEdgesOf(file, rs[..j + 1], root, filter) == FileEdgesOf(file, rs[..j], root, filter) +
      (if AddsEdge(file, rs[j], filter) then {EdgeKey(FileKey(rs[j].file, root), FileKey(file, root))} else {})
  {
    assert rs[..j + 1] == rs[..j] + [rs[j]];
  }

  lemma FileNodesStep(file: string, rs: seq<Location>, j: nat, root: Option<string>, filter: Option<string>)
    requires j < |rs|
    ensures FileNodesOf(file, rs[..j + 1], root, filter) == FileNodesOf(file, rs[..j], root, filter) +
      (if AddsEdge(file, rs[j], filter) then {FileKey(rs[j].file, root)} else {})
  {
    assert rs[..j + 1] == rs[..j] + [rs[j]];
  }

  lemma RefPrefix(file: string, rs: seq<Location>, j: nat, root: Option<string>, filter: Option<string>)
    requires j <= |rs|
    ensures RefKeys(rs[..j]) <= RefKeys(rs)
    ensures FileEdgesOf(file, rs[..j], root, filter) <= FileEdgesOf(file, rs, root, filter)
    ensures FileNodesOf(file, rs[..j], root, filter) <= FileNodesOf(file, rs, root, filter)
  {
    assert forall r :: r in rs[..j] ==> r in rs;
  }

  lemma AllRefKeysStep(syms: seq<SymbolInfo>, i: nat, refs: Pos -> Answer<seq<Location>>)
    requires i < |syms|
    ensures AllRefKeys(syms[..i + 1], refs) == AllRefKeys(syms[..i], refs) + RefKeys(References(refs, syms[i]))
  {
    assert syms[..i + 1] == syms[..i] + [syms[i]];
  }

  lemma AllFileEdgesStep(
    file: string, syms: seq<SymbolInfo>, i: nat, refs: Pos -> Answer<seq<Location>>, root: Option<string>, filter: Option<string>)
    requires i < |syms|
    ensures AllFileEdges(file, syms[..i + 1], refs, root, filter) ==
      AllFileEdges(file, syms[..i], refs, root, filter) + FileEdgesOf(file, References(refs, syms[i]), root, filter)
  {
    assert syms[..i + 1] == syms[..i] + [syms[i]];
  }

  lemma AllFileNodesStep(
    file: string, syms: seq<SymbolInfo>, i: nat, refs: Pos -> Answer<seq<Location>>, root: Option<string>, filter: Option<string>)
    requires i < |syms|
    ensures AllFileNodes(file, syms[..i + 1], refs, root, filter) ==
      AllFileNodes(file, syms[..i], refs, root, filter) + FileNodesOf(file, References(refs, syms[i]), root, filter)
  {
    assert syms[..i + 1] == syms[..i] + [syms[i]];
  }

  /**
   * One more part added to a set that grows part by part: `x` is `x0` with
   * the parts so far (`done`) added, `x2` lies between `x` and `x` with the
   * next part added, and `done + part` is within `all`.
   */
  lemma GrowByPart(x0: set<string>, x: set<string>, x2: set<string>, done: set<string>, part: set<string>,
    next: set<string>, all: set<string>, whole: bool)
    requires x == x0 + done && x <= x2 <= x + part
    requires next == done + part && next <= all
    requires whole ==> x2 == x + part
    ensures x0 <= x2 <= x0 + all
    ensures whole ==> x2 == x0 + next
  {
  }

  lemma AllRefPrefix(
    file: string, syms: seq<SymbolInfo>, i: nat, refs: Pos -> Answer<seq<Location>>, root: Option<string>, filter: Option<string>)
    requires i <= |syms|
    ensures SymbolKeys(file, syms[..i]) <= SymbolKeys(file, syms)
    ensures AllRefKeys(syms[..i], refs) <= AllRefKeys(syms, refs)
    ensures AllFileEdges(file, syms[..i], refs, root, filter) <= AllFileEdges(file, syms, refs, root, filter)
    ensures AllFileNodes(file, syms[..i], refs, root, filter) <= AllFileNodes(file, syms, refs, root, filter)
  {
    assert forall sym :: sym in syms[..i] ==> sym in syms;
  }

  /**
   * `gb.addEdge("file", from, strip(from), 0, 0, "file", to, strip(to), 0, 0)`:
   * the edge from the file node of `from` to the file node of `to`.
   */
  method AddFileEdge(gb: GraphBuilder, from: string, to: string, root: Option<string>)
    requires gb.Valid()
    modifies gb
    ensures gb.Valid()
    ensures gb.EdgeKeys() == old(gb.EdgeKeys()) + {EdgeKey(FileKey(from, root), FileKey(to, root))}
    ensures gb.NodeKeys() == old(gb.NodeKeys()) + {FileKey(from, root), FileKey(to, root)}
    ensures KeepsNodes(old(gb.nodesByKey), gb.nodesByKey)
    ensures gb.symbolsByKey == old(gb.symbolsByKey) && gb.referencesByKey == old(gb.referencesByKey)
  {
    var edge := gb.AddEdge(
      FileNode, from, StripFilePrefix(from, root), 0, 0,
      FileNode, to, StripFilePrefix(to, root), 0, 0);
  }

  /**
   * The edge, node and reference keys `e`, `n` and `r` are those of `e0`,
   * `n0` and `r0` with the references `rs[..j]` recorded and their edges to
   * `file`, whose node `n0` already holds, added.
   */
  ghost predicate RefsUpTo(
    e0: set<string>, n0: set<string>, r0: set<string>, e: set<string>, n: set<string>, r: set<string>,
    file: string, rs: seq<Location>, j: nat, root: Option<string>, filter: Option<string>)
    requires j <= |rs|
  {
    FileKey(file, root) in n0 &&
    e == e0 + FileEdgesOf(file, rs[..j], root, filter) &&
    n == n0 + FileNodesOf(file, rs[..j], root, filter) &&
    r == r0 + RefKeys(rs[..j])
  }

  /** The keys after one more reference of the inner loop. */
  lemma RefsUpToStep(
    e0: set<string>, n0: set<string>, r0: set<string>, e: set<string>, n: set<string>, r: set<string>,
    file: string, rs: seq<Location>, j: nat, root: Option<string>, filter: Option<string>)
    requires j < |rs| && RefsUpTo(e0, n0, r0, e, n, r, file, rs, j, root, filter)
    ensures var r2 := r + {ReferenceKey(rs[j].file, rs[j].pos.line)};
      if AddsEdge(file, rs[j], filter) then
        RefsUpTo(e0, n0, r0, e + {EdgeKey(FileKey(rs[j].file, root), FileKey(file, root))},
          n + {FileKey(rs[j].file, root), FileKey(file, root)}, r2, file, rs, j + 1, root, filter)
      else
        RefsUpTo(e0, n0, r0, e, n, r2, file, rs, j + 1, root, filter)
  {
    RefKeysStep(rs, j);
    FileEdgesStep(file, rs, j, root, filter);
    FileNodesStep(file, rs, j, root, filter);
  }

  /**
   * One turn of the inner loop after the poll: `gb.addReference(reference,
   * symbol)` for every reference, then the file edge when the reference lies
   * in another file that passes the filter.
   */
  method AddReferenceAt(
    gb: GraphBuilder, file: string, symbol: CgSymbol, rs: seq<Location>, j: nat, root: Option<string>,
    filter: Option<string>, ghost e0: set<string>, ghost n0: set<string>, ghost r0: set<string>)
    requires gb.Valid() && j < |rs|
    requires RefsUpTo(e0, n0, r0, gb.EdgeKeys(), gb.NodeKeys(), gb.referencesByKey.entries.Keys, file, rs, j, root, filter)
    modifies gb
    ensures gb.Valid()
    ensures RefsUpTo(e0, n0, r0, gb.EdgeKeys(), gb.NodeKeys(), gb.referencesByKey.entries.Keys, file, rs, j + 1, root, filter)
    ensures KeepsNodes(old(gb.nodesByKey), gb.nodesByKey)
    ensures gb.symbolsByKey == old(gb.symbolsByKey)
  {
    RefsUpToStep(e0, n0, r0, gb.EdgeKeys(), gb.NodeKeys(), gb.referencesByKey.entries.Keys, file, rs, j, root, filter);
    var reference := gb.AddReference(rs[j], symbol);
    if rs[j].file == file {
      return;
    }
    if !FilterByPath(rs[j].file, filter) {
      return;
    }
    AddFileEdge(gb, rs[j].file, file, root);
  }

  /**
   * The inner loop over the references to one symbol: polls the token
   * before each reference, records it and adds its file edge. The loop
   * records every reference and adds every edge, or a part of them when a
   * poll saw cancellation.
   */
  method AddReferences(
    gb: GraphBuilder, file: string, symbol: CgSymbol, rs: seq<Location>, root: Option<string>,
    filter: Option<string>, token: CancellationToken)
    returns (stop: bool)
    requires gb.Valid() && token.NeverCancelled()
    requires FileKey(file, root) in gb.NodeKeys()
    modifies gb, token
    ensures gb.Valid()
    ensures stop <==> !token.NeverCancelled()
    ensures old(gb.EdgeKeys()) <= gb.EdgeKeys() <= old(gb.EdgeKeys()) + FileEdgesOf(file, rs, root, filter)
    ensures old(gb.NodeKeys()) <= gb.NodeKeys() <= old(gb.NodeKeys()) + FileNodesOf(file, rs, root, filter)
    ensures old(gb.referencesByKey.entries.Keys) <= gb.referencesByKey.entries.Keys <=
      old(gb.referencesByKey.entries.Keys) + RefKeys(rs)
    ensures !stop ==>
      gb.EdgeKeys() == old(gb.EdgeKeys()) + FileEdgesOf(file, rs, root, filter) &&
      gb.NodeKeys() == old(gb.NodeKeys()) + FileNodesOf(file, rs, root, filter) &&
      gb.referencesByKey.entries.Keys == old(gb.referencesByKey.entries.Keys) + RefKeys(rs)
    ensures KeepsNodes(old(gb.nodesByKey), gb.nodesByKey)
    ensures gb.symbolsByKey == old(gb.symbolsByKey)
  {
    ghost var e0, n0, r0 := gb.EdgeKeys(), gb.NodeKeys(), gb.referencesByKey.entries.Keys;
    var j := 0;
    assert rs[..0] == [];
    while j < |rs|
      invariant 0 <= j <= |rs|
      invariant gb.Valid() && token.NeverCancelled()
      invariant RefsUpTo(e0, n0, r0, gb.EdgeKeys(), gb.NodeKeys(), gb.referencesByKey.entries.Keys, file, rs, j, root, filter)
      invariant KeepsNodes(old(gb.nodesByKey), gb.nodesByKey)
      invariant gb.symbolsByKey == old(gb.symbolsByKey)
    {
      var cancelled := token.IsCancellationRequested();
      if cancelled {
        RefPrefix(file, rs, j, root, filter);
        return true;
      }
      AddReferenceAt(gb, file, symbol, rs, j, root, filter, e0, n0, r0);
      j := j + 1;
    }
    assert rs[..j] == rs;
    return false;
  }

  /**
   * The reference query for `sym` and, when it answered, the inner loop over
   * the references with the record `symbol`; nothing when it answered
   * `undefined` or threw.
   */
  method AddReferencesOf(
    gb: GraphBuilder, file: string, sym: SymbolInfo, symbol: CgSymbol, refs: Pos -> Answer<seq<Location>>,
    root: Option<string>, filter: Option<string>, token: CancellationToken)
    returns (stop: bool)
    requires gb.Valid() && token.NeverCancelled()
    requires FileKey(file, root) in gb.NodeKeys()
    modifies gb, token
    ensures gb.Valid()
    ensures stop <==> !token.NeverCancelled()
    ensures var rs := References(refs, sym);
      old(gb.EdgeKeys()) <= gb.EdgeKeys() <= old(gb.EdgeKeys()) + FileEdgesOf(file, rs, root, filter) &&
      old(gb.NodeKeys()) <= gb.NodeKeys() <= old(gb.NodeKeys()) + FileNodesOf(file, rs, root, filter) &&
      old(gb.referencesByKey.entries.Keys) <= gb.referencesByKey.entries.Keys <=
        old(gb.referencesByKey.entries.Keys) + RefKeys(rs)
    ensures var rs := References(refs, sym);
      !stop ==>
        gb.EdgeKeys() == old(gb.EdgeKeys()) + FileEdgesOf(file, rs, root, filter) &&
        gb.NodeKeys() == old(gb.NodeKeys()) + FileNodesOf(file, rs, root, filter) &&
        gb.referencesByKey.entries.Keys == old(gb.referencesByKey.entries.Keys) + RefKeys(rs)
    ensures KeepsNodes(old(gb.nodesByKey), gb.nodesByKey)
    ensures gb.symbolsByKey == old(gb.symbolsByKey)
  {
    stop := false;
    var answer := refs(sym.position);
    if answer.Value? {
      stop := AddReferences(gb, file, symbol, answer.value, root, filter, token);
    } else {
      assert References(refs, sym) == [];
    }
  }

  /**
   * The edge, node, reference and symbol keys `e`, `n`, `r` and `s` are
   * those of `e0`, `n0`, `r0` and `s0` with the symbols `syms[..i]`, the
   * references to them and their file edges added.
   */
  ghost predicate AllRefsUpTo(
    e0: set<string>, n0: set<string>, r0: set<string>, s0: set<string>,
    e: set<string>, n: set<string>, r: set<string>, s: set<string>,
    file: string, syms: seq<SymbolInfo>, i: nat, refs: Pos -> Answer<seq<Location>>,
    root: Option<string>, filter: Option<string>)
    requires i <= |syms|
  {
    FileKey(file, root) in n0 &&
    e == e0 + AllFileEdges(file, syms[..i], refs, root, filter) &&
    n == n0 + AllFileNodes(file, syms[..i], refs, root, filter) &&
    r == r0 + AllRefKeys(syms[..i], refs) &&
    s == s0 + SymbolKeys(file, syms[..i])
  }

  /**
   * The keys lie between those before the loop and those after a full run
   * over all the symbols.
   */
  ghost predicate AllRefsWithin(
    e0: set<string>, n0: set<string>, r0: set<string>, s0: set<string>,
    e: set<string>, n: set<string>, r: set<string>, s: set<string>,
    file: string, syms: seq<SymbolInfo>, refs: Pos -> Answer<seq<Location>>,
    root: Option<string>, filter: Option<string>)
  {
    e0 <= e <= e0 + AllFileEdges(file, syms, refs, root, filter) &&
    n0 <= n <= n0 + AllFileNodes(file, syms, refs, root, filter) &&
    r0 <= r <= r0 + AllRefKeys(syms, refs) &&
    s0 <= s <= s0 + SymbolKeys(file, syms)
  }

  /** Part way through the symbols, the keys lie within those of a full run. */
  lemma AllRefsUpToWithin(
    e0: set<string>, n0: set<string>, r0: set<string>, s0: set<string>,
    e: set<string>, n: set<string>, r: set<string>, s: set<string>,
    file: string, syms: seq<SymbolInfo>, i: nat, refs: Pos -> Answer<seq<Location>>,
    root: Option<string>, filter: Option<string>)
    requires i <= |syms| && AllRefsUpTo(e0, n0, r0, s0, e, n, r, s, file, syms, i, refs, root, filter)
    ensures AllRefsWithin(e0, n0, r0, s0, e, n, r, s, file, syms, refs, root, filter)
  {
    AllRefPrefix(file, syms, i, refs, root, filter);
  }

  /**
   * After the symbol `syms[i]` and its references: all of them when the
   * inner loop ran to the end, some of them when it stopped.
   */
  lemma AllRefsUpToStep(
    e0: set<string>, n0: set<string>, r0: set<string>, s0: set<string>,
    e: set<string>, n: set<string>, r: set<string>, s: set<string>,
    file: string, syms: seq<SymbolInfo>, i: nat, refs: Pos -> Answer<seq<Location>>,
    root: Option<string>, filter: Option<string>,
    e2: set<string>, n2: set<string>, r2: set<string>, stop: bool)
    requires i < |syms| && AllRefsUpTo(e0, n0, r0, s0, e, n, r, s, file, syms, i, refs, root, filter)
    requires var rs := References(refs, syms[i]);
      e <= e2 <= e + FileEdgesOf(file, rs, root, filter) &&
      n <= n2 <= n + FileNodesOf(file, rs, root, filter) &&
      r <= r2 <= r + RefKeys(rs)
    requires !stop ==>
      var rs := References(refs, syms[i]);
      e2 == e + FileEdgesOf(file, rs, root, filter) &&
      n2 == n + FileNodesOf(file, rs, root, filter) &&
      r2 == r + RefKeys(rs)
    ensures var s2 := s + {SymbolKey(file, syms[i])};
      (!stop ==> AllRefsUpTo(e0, n0, r0, s0, e2, n2, r2, s2, file, syms, i + 1, refs, root, filter)) &&
      AllRefsWithin(e0, n0, r0, s0, e2, n2, r2, s2, file, syms, refs, root, filter)
  {
    var rs := References(refs, syms[i]);
    AllRefPrefix(file, syms, i + 1, refs, root, filter);
    AllFileEdgesStep(file, syms, i, refs, root, filter);
    GrowByPart(e0, e, e2, AllFileEdges(file, syms[..i], refs, root, filter), FileEdgesOf(file, rs, root, filter),
      AllFileEdges(file, syms[..i + 1], refs, root, filter), AllFileEdges(file, syms, refs, root, filter), !stop);
    AllFileNodesStep(file, syms, i, refs, root, filter);
    GrowByPart(n0, n, n2, AllFileNodes(file, syms[..i], refs, root, filter), FileNodesOf(file, rs, root, filter),
      AllFileNodes(file, syms[..i + 1], refs, root, filter), AllFileNodes(file, syms, refs, root, filter), !stop);
    AllRefKeysStep(syms, i, refs);
    GrowByPart(r0, r, r2, AllRefKeys(syms[..i], refs), RefKeys(rs),
      AllRefKeys(syms[..i + 1], refs), AllRefKeys(syms, refs), !stop);
    SymbolKeysStep(file, syms, i);
    GrowByPart(s0, s, s + {SymbolKey(file, syms[i])}, SymbolKeys(file, syms[..i]), {SymbolKey(file, syms[i])},
      SymbolKeys(file, syms[..i + 1]), SymbolKeys(file, syms), true);
  }

  /**
   * One turn of the symbol loop after the poll: `gb.addSymbol(symbol, file)`,
   * then the reference query and, when it answered, the inner loop over the
   * references with the record `addSymbol` returned.
   */
  method AddSymbolAt(
    gb: GraphBuilder, file: string, syms: seq<SymbolInfo>, i: nat, refs: Pos -> Answer<seq<Location>>,
    root: Option<string>, filter: Option<string>, token: CancellationToken,
    ghost e0: set<string>, ghost n0: set<string>, ghost r0: set<string>, ghost s0: set<string>)
    returns (stop: bool)
    requires gb.Valid() && token.NeverCancelled() && i < |syms|
    requires AllRefsUpTo(e0, n0, r0, s0, gb.EdgeKeys(), gb.NodeKeys(), gb.referencesByKey.entries.Keys,
      gb.symbolsByKey.entries.Keys, file, syms, i, refs, root, filter)
    modifies gb, token
    ensures gb.Valid()
    ensures stop <==> !token.NeverCancelled()
    ensures !stop ==> AllRefsUpTo(e0, n0, r0, s0, gb.EdgeKeys(), gb.NodeKeys(), gb.referencesByKey.entries.Keys,
      gb.symbolsByKey.entries.Keys, file, syms, i + 1, refs, root, filter)
    ensures AllRefsWithin(e0, n0, r0, s0, gb.EdgeKeys(), gb.NodeKeys(), gb.referencesByKey.entries.Keys,
      gb.symbolsByKey.entries.Keys, file, syms, refs, root, filter)
    ensures KeepsNodes(old(gb.nodesByKey), gb.nodesByKey)
  {
    ghost var e, n, r, s := gb.EdgeKeys(), gb.NodeKeys(), gb.referencesByKey.entries.Keys, gb.symbolsByKey.entries.Keys;
    var symbol := gb.AddSymbol(syms[i], file);
    assert token.NeverCancelled();
    stop := AddReferencesOf(gb, file, syms[i], symbol, refs, root, filter, token);
    AllRefsUpToStep(e0, n0, r0, s0, e, n, r, s, file, syms, i, refs, root, filter,
      gb.EdgeKeys(), gb.NodeKeys(), gb.referencesByKey.entries.Keys, stop);
  }

  /**
   * The symbol loop: polls the token before each symbol and records the
   * symbol, every reference to it and the file edges of those references.
   * A reference query that answered `undefined` or threw skips only that
   * symbol's references.
   */
  method AddAllSymbols(
    gb: GraphBuilder, file: string, syms: seq<SymbolInfo>, refs: Pos -> Answer<seq<Location>>,
    root: Option<string>, filter: Option<string>, token: CancellationToken)
    returns (stop: bool)
    requires gb.Valid() && token.NeverCancelled()
    requires FileKey(file, root) in gb.NodeKeys()
    modifies gb, token
    ensures gb.Valid()
    ensures stop <==> !token.NeverCancelled()
    ensures AllRefsWithin(old(gb.EdgeKeys()), old(gb.NodeKeys()), old(gb.referencesByKey.entries.Keys),
      old(gb.symbolsByKey.entries.Keys), gb.EdgeKeys(), gb.NodeKeys(), gb.referencesByKey.entries.Keys,
      gb.symbolsByKey.entries.Keys, file, syms, refs, root, filter)
    ensures !stop ==> AllRefsUpTo(old(gb.EdgeKeys()), old(gb.NodeKeys()), old(gb.referencesByKey.entries.Keys),
      old(gb.symbolsByKey.entries.Keys), gb.EdgeKeys(), gb.NodeKeys(), gb.referencesByKey.entries.Keys,
      gb.symbolsByKey.entries.Keys, file, syms, |syms|, refs, root, filter)
    ensures KeepsNodes(old(gb.nodesByKey), gb.nodesByKey)
  {
    ghost var e0, n0, r0, s0 := gb.EdgeKeys(), gb.NodeKeys(), gb.referencesByKey.entries.Keys, gb.symbolsByKey.entries.Keys;
    var i := 0;
    assert syms[..0] == [];
    while i < |syms|
      invariant 0 <= i <= |syms|
      invariant gb.Valid() && token.NeverCancelled()
      invariant AllRefsUpTo(e0, n0, r0, s0, gb.EdgeKeys(), gb.NodeKeys(), gb.referencesByKey.entries.Keys,
        gb.symbolsByKey.entries.Keys, file, syms, i, refs, root, filter)
      invariant KeepsNodes(old(gb.nodesByKey), gb.nodesByKey)
    {
      var cancelled := token.IsCancellationRequested();
      if cancelled {
        AllRefsUpToWithin(e0, n0, r0, s0, gb.EdgeKeys(), gb.NodeKeys(), gb.referencesByKey.entries.Keys,
          gb.symbolsByKey.entries.Keys, file, syms, i, refs, root, filter);
        return true;
      }
      stop := AddSymbolAt(gb, file, syms, i, refs, root, filter, token, e0, n0, r0, s0);
      if stop {
        return;
      }
      i := i + 1;
    }
    AllRefsUpToWithin(e0, n0, r0, s0, gb.EdgeKeys(), gb.NodeKeys(), gb.referencesByKey.entries.Keys,
      gb.symbolsByKey.entries.Keys, file, syms, i, refs, root, filter);
    return false;
  }

  /**
   * `computeFileHierarchyForFile` for `file`, where `symbols` is what
   * `getSymbols` answered and `refs` answers `getReferences` at a position
   * of the file. The file node is added as soon as the file passes the
   * filter, before the symbols are looked at. `progress` is the message of
   * the one progress report, made only when the file passed the filter, the
   * symbols were listed and no poll of the token saw cancellation.
   */
  method ComputeFileHierarchyForFile(
    gb: GraphBuilder, file: string, symbols: Answer<seq<SymbolInfo>>, refs: Pos -> Answer<seq<Location>>,
    token: CancellationToken, root: Option<string>, filter: Option<string>)
    returns (progress: Option<string>)
    requires gb.Valid()
    modifies gb, token
    ensures gb.Valid()
    ensures progress.Some? <==> FilterByPath(file, filter) && Listed(symbols) && token.NeverCancelled()
    ensures progress.Some? ==> progress.value == StripFilePrefix(file, root)
    ensures old(token.polls) >= token.cancelFrom || !FilterByPath(file, filter) ==>
      gb.nodesByKey == old(gb.nodesByKey) && gb.edgesByKey == old(gb.edgesByKey) &&
      gb.symbolsByKey == old(gb.symbolsByKey) && gb.referencesByKey == old(gb.referencesByKey)
    ensures old(token.polls) < token.cancelFrom && FilterByPath(file, filter) ==>
      var k := FileKey(file, root);
      k in gb.nodesByKey.entries && (k !in old(gb.nodesByKey.entries) ==> IsFileNode(gb.nodesByKey.entries[k], file, root))
    ensures KeepsNodes(old(gb.nodesByKey), gb.nodesByKey)
    ensures var syms := SymbolsOf(symbols);
      AllRefsWithin(old(gb.EdgeKeys()), old(gb.NodeKeys()) + {FileKey(file, root)}, old(gb.referencesByKey.entries.Keys),
        old(gb.symbolsByKey.entries.Keys), gb.EdgeKeys(), gb.NodeKeys() + {FileKey(file, root)},
        gb.referencesByKey.entries.Keys, gb.symbolsByKey.entries.Keys, file, syms, refs, root, filter)
    ensures var syms := SymbolsOf(symbols);
      progress.Some? ==> AllRefsUpTo(old(gb.EdgeKeys()), old(gb.NodeKeys()) + {FileKey(file, root)},
        old(gb.referencesByKey.entries.Keys), old(gb.symbolsByKey.entries.Keys), gb.EdgeKeys(), gb.NodeKeys(),
        gb.referencesByKey.entries.Keys, gb.symbolsByKey.entries.Keys, file, syms, |syms|, refs, root, filter)
  {
    progress := None;
    var cancelled := token.IsCancellationRequested();
    if cancelled {
      return;
    }
    if !FilterByPath(file, filter) {
      return;
    }
    var node := gb.AddNode(FileNode, file, StripFilePrefix(file, root), 0, 0);
    if !Listed(symbols) {
      return;
    }
    var stop := AddAllSymbols(gb, file, symbols.value, refs, root, filter, token);
    if stop {
      return;
    }
    progress := Some(StripFilePrefix(file, root));
  }
}
