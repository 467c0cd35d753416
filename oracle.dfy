/**
 * What the walkers and builders see of the editor: positions, locations,
 * hierarchy items, document symbols, the three possible outcomes of a
 * language-server query, and the cancellation token they poll.
 */
module Oracle {

  /** A zero-based line and character, `vscode.Position`. */
  datatype Pos = Pos(line: nat, character: nat)

  /** A file path and a position in it, `vscode.Location` reduced to its start. */
  datatype Location = Location(file: string, pos: Pos)

  /** A call- or type-hierarchy item: its name, file, and the starts of its full and its name range. */
  datatype Item = Item(name: string, file: string, rangeStart: Pos, selectionStart: Pos)

  /** Where the walkers continue from an item: its file at the start of its name. */
  function ItemLocation(it: Item): Location {
    Location(it.file, it.selectionStart)
  }

  /** `vscode.SymbolKind` */
  datatype SymbolKind =
    | FileKind | ModuleKind | NamespaceKind | PackageKind | ClassKind | MethodKind
    | PropertyKind | FieldKind | ConstructorKind | EnumKind | InterfaceKind
    | FunctionKind | VariableKind | ConstantKind | StringKind | NumberKind
    | BooleanKind | ArrayKind | ObjectKind | KeyKind | NullKind | EnumMemberKind
    | StructKind | EventKind | OperatorKind | TypeParameterKind

  /** A document symbol with the position the source takes for it (its name range start). */
  datatype SymbolInfo = SymbolInfo(name: string, kind: SymbolKind, position: Pos)

  /**
   * The outcome of one language-server query: a value, `undefined`, or a
   * thrown error.
   */
  datatype Answer<+T> = Value(value: T) | Undefined | Threw

  /** `answer || []`: an `undefined` answer counts as no results. */
  function ListOr<T>(a: Answer<seq<T>>): seq<T>
    requires !a.Threw?
  {
    if a.Value? then a.value else []
  }

  /**
   * A `vscode.CancellationToken`. Each read of `isCancellationRequested` is
   * a poll; once cancellation has been requested it stays requested, so the
   * token is described by the number of the first poll that sees it.
   */
  class CancellationToken {
    var polls: nat
    const cancelFrom: nat

    constructor(cancelFrom: nat)
      ensures polls == 0 && this.cancelFrom == cancelFrom
    {
      polls := 0;
      this.cancelFrom := cancelFrom;
    }

    /** `token.isCancellationRequested` */
    method IsCancellationRequested() returns (requested: bool)
      modifies this
      ensures polls == old(polls) + 1
      ensures requested <==> old(polls) >= cancelFrom
    {
      requested := polls >= cancelFrom;
      polls := polls + 1;
    }

    /** No poll so far has seen cancellation. */
    ghost predicate NeverCancelled()
      reads this
    {
      polls <= cancelFrom
    }

    /** How many more polls can still find cancellation not requested. */
    ghost function PollsLeft(): nat
      reads this
    {
      if polls <= cancelFrom then cancelFrom - polls else 0
    }
  }
}
