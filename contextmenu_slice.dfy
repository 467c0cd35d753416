/**
 * The right-click menu of the graph view: where it is open, and which
 * groups of options it offers for the background or for a node.
 */
module ContextMenuSlice {
  import opened Wrappers

  /** A point on the screen. */
  datatype Position = Position(x: real, y: real)

  /** A titled group of option labels. */
  datatype OptionGroup = OptionGroup(title: string, options: seq<string>)

  /** What was right-clicked: the graph background (`core`), a node, or anything else. */
  datatype TargetType = Core | NodeTarget | Unknown(name: string)

  /** The options offered on the graph background. */
  function CoreGroups(): (groups: seq<OptionGroup>)
    ensures |groups| == 2
    ensures groups[0] == OptionGroup("Graph", ["Reveal all hidden nodes"])
    ensures groups[1] == OptionGroup("Folder", ["Collapse all folders", "Expand all folders"])
  {
    [ OptionGroup("Graph", ["Reveal all hidden nodes"]),
      OptionGroup("Folder", ["Collapse all folders", "Expand all folders"]) ]
  }

  /**
   * The options offered on a node: a folder node can also be expanded and
   * summarized, a file or symbol node cannot.
   */
  function NodeGroups(isFolder: bool): (groups: seq<OptionGroup>)
    ensures |groups| == 2
    ensures groups[0] == OptionGroup("Graph", ["Hide node"])
    ensures groups[1].title == "Folder"
    ensures |groups[1].options| >= 1 && groups[1].options[0] == "Collapse enclosing folder"
    ensures "Expand folder" in groups[1].options <==> isFolder
    ensures "Summarize API" in groups[1].options <==> isFolder
    ensures isFolder ==> groups[1].options == ["Collapse enclosing folder", "Expand folder", "Summarize API"]
    ensures !isFolder ==> groups[1].options == ["Collapse enclosing folder"]
  {
    var expand: seq<string> := if isFolder then ["Expand folder"] else [];
    var summarize: seq<string> := if isFolder then ["Summarize API"] else [];
    [ OptionGroup("Graph", ["Hide node"]),
      OptionGroup("Folder", ["Collapse enclosing folder"] + expand + summarize) ]
  }

  class ContextMenuState {
    /** Where the menu is open; `None` when it is closed. */
    var position: Option<Position>
    var optionGroups: seq<OptionGroup>

    /** The initial state: closed, with no options. */
    constructor()
      ensures position == None && optionGroups == []
    {
      position := None;
      optionGroups := [];
    }

    /**
     * `showContextMenu`: opens the menu at the given position with the
     * options for what was clicked; an unknown target keeps the options
     * the menu had.
     */
    method ShowContextMenu(at: Position, targetType: TargetType, isFolder: bool)
      modifies this
      ensures position == Some(at)
      ensures optionGroups == match targetType
        case Core => CoreGroups()
        case NodeTarget => NodeGroups(isFolder)
        case Unknown(_) => old(optionGroups)
    {
      position := Some(at);
      if targetType == Core {
        optionGroups := CoreGroups();
      } else if targetType == NodeTarget {
        optionGroups := NodeGroups(isFolder);
      }
    }

    /** `hideContextMenu`: closes the menu and keeps its options. */
    method HideContextMenu()
      modifies this
      ensures position == None && optionGroups == old(optionGroups)
    {
      position := None;
    }

    /** `setOptionGroups`: replaces the options and keeps the position. */
    method SetOptionGroups(groups: seq<OptionGroup>)
      modifies this
      ensures optionGroups == groups && position == old(position)
    {
      optionGroups := groups;
    }
  }
}
