/**
 * The command palette: whether it has the focus, and the width of the
 * loading bar that follows a repository through scheduling, cloning and
 * indexing.
 */
module CmdpalSlice {
  import opened GraphSlice

  /** The Tailwind width classes `w-1/6` .. `w-5/6` and `w-full`. */
  datatype Width = OneSixth | TwoSixths | ThreeSixths | FourSixths | FiveSixths | Full

  /** How many sixths of the bar a width fills. */
  function Sixths(w: Width): (n: nat)
    ensures 1 <= n <= 6
  {
    match w
    case OneSixth => 1
    case TwoSixths => 2
    case ThreeSixths => 3
    case FourSixths => 4
    case FiveSixths => 5
    case Full => 6
  }

  /**
   * The width `checkGraphStatus.fulfilled` moves the bar to: `Started`,
   * `Cloning` and `Indexing` are the second, third and fourth sixths; the
   * other statuses leave the bar where it is.
   */
  function ProgressWidth(status: ScheduleStatus, current: Width): (w: Width)
    ensures status == Started ==> Sixths(w) == 2
    ensures status == Cloning ==> Sixths(w) == 3
    ensures status == Indexing ==> Sixths(w) == 4
    ensures status !in {Started, Cloning, Indexing} ==> w == current
  {
    if status == Started then TwoSixths
    else if status == Cloning then ThreeSixths
    else if status == Indexing then FourSixths
    else current
  }

  class CmdpalState {
    var isFocused: bool
    var loadingBarWidth: Width

    /** The initial state: not focused, the bar full. */
    constructor()
      ensures !isFocused && loadingBarWidth == Full
    {
      isFocused := false;
      loadingBarWidth := Full;
    }

    /** `focusCommandPalette` */
    method Focus()
      modifies this
      ensures isFocused && loadingBarWidth == old(loadingBarWidth)
    {
      isFocused := true;
    }

    /** `blurCommandPalette` */
    method Blur()
      modifies this
      ensures !isFocused && loadingBarWidth == old(loadingBarWidth)
    {
      isFocused := false;
    }

    /** `setLoadingBarWidth` */
    method SetLoadingBarWidth(width: Width)
      modifies this
      ensures loadingBarWidth == width && isFocused == old(isFocused)
    {
      loadingBarWidth := width;
    }

    /** `scheduleGraph.pending`: the request went out, one sixth done. */
    method ScheduleGraphPending()
      modifies this
      ensures loadingBarWidth == OneSixth && isFocused == old(isFocused)
    {
      loadingBarWidth := OneSixth;
    }

    /** `scheduleGraph.rejected`: the bar is reset to full. */
    method ScheduleGraphRejected()
      modifies this
      ensures loadingBarWidth == Full && isFocused == old(isFocused)
    {
      loadingBarWidth := Full;
    }

    /** `checkGraphStatus.fulfilled`: the bar follows the reported stage. */
    method CheckGraphStatusFulfilled(status: ScheduleStatus)
      modifies this
      ensures loadingBarWidth == ProgressWidth(status, old(loadingBarWidth))
      ensures isFocused == old(isFocused)
    {
      if status == Started {
        loadingBarWidth := TwoSixths;
      } else if status == Cloning {
        loadingBarWidth := ThreeSixths;
      } else if status == Indexing {
        loadingBarWidth := FourSixths;
      }
    }
  }
}
