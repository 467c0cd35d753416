/**
 * The hover tooltip of the graph view: what it shows and whether it is
 * hidden. It is shown exactly when what it would show is not empty.
 */
module TooltipSlice {
  import opened ClientGraph

  /** The payload of `showTooltip`: code snippets, or plain text. */
  datatype Details = Codeviewer(snippets: seq<Snippet>) | Plaintext(text: string)

  /** The details the tooltip starts with and is reset to on `hideTooltip`. */
  const NoDetails: Details := Plaintext("")

  /**
   * `hasContents`: a code viewer needs at least one snippet, plain text a
   * non-empty string. The only payloads without contents are the empty
   * snippet list and the empty text.
   */
  function HasContents(details: Details): (r: bool)
    ensures !r <==> details == Codeviewer([]) || details == NoDetails
  {
    match details
    case Codeviewer(snippets) => |snippets| > 0
    case Plaintext(text) => text != ""
  }

  class TooltipState {
    var hidden: bool
    var details: Details

    /** The tooltip is hidden exactly when its details have nothing to show. */
    ghost predicate Valid()
      reads this
    {
      hidden <==> !HasContents(details)
    }

    /** The initial state: hidden, with empty plain text. */
    constructor()
      ensures Valid()
      ensures hidden && details == NoDetails
    {
      hidden := true;
      details := NoDetails;
    }

    /** `showTooltip`: stores the payload, hidden when it has no contents. */
    method ShowTooltip(payload: Details)
      modifies this
      ensures Valid()
      ensures details == payload
      ensures hidden <==> payload == Codeviewer([]) || payload == NoDetails
    {
      hidden := !HasContents(payload);
      details := payload;
    }

    /**
     * `hideTooltip`: whatever the state was, it becomes the initial state
     * again, so hiding twice is the same as hiding once.
     */
    method HideTooltip()
      modifies this
      ensures Valid()
      ensures hidden && details == NoDetails
    {
      hidden := true;
      details := NoDetails;
    }
  }
}
