/**
 * Onboarding step 2, "Tell Us Your Interests": eight tiles that toggle in and
 * out of the selection; Next reports the selection as it is, even empty.
 */
module OnboardingStep2 {
  import opened Wrappers
  import opened Selection

  /** The tiles, in display order. */
  const InterestOptions: seq<string> := [
    "Are you shopping?", "Are you browsing?", "Vehicle Reviews", "Automotive News",
    "Car Comparisons", "Buying Guides", "Maintenance Tips", "Racing & Sports"]

  datatype Step2Event =
    | Next(interests: seq<string>)
    | Previous
    | Skip

  /** A selection the tiles alone can produce: distinct tiles, in the order they were picked. */
  ghost predicate FromTiles(selected: seq<string>) {
    Distinct(selected) && forall x :: x in selected ==> x in InterestOptions
  }

  class Step2 {
    const hasOnNext: bool
    const hasOnPrevious: bool
    const hasOnSkip: bool
    /** `selectedInterests` */
    var selected: seq<string>

    /** The selection starts from `initialData.interests`, or empty. */
    constructor(initial: Option<Option<seq<string>>>, hasOnNext: bool, hasOnPrevious: bool, hasOnSkip: bool)
      ensures this.hasOnNext == hasOnNext && this.hasOnPrevious == hasOnPrevious && this.hasOnSkip == hasOnSkip
      ensures selected == (if initial.Some? then initial.value.GetOr([]) else [])
    {
      this.hasOnNext, this.hasOnPrevious, this.hasOnSkip := hasOnNext, hasOnPrevious, hasOnSkip;
      selected := if initial.Some? then initial.value.GetOr([]) else [];
    }

    /**
     * A click on a tile: the selection stays a set of tiles when it started as
     * one, and the clicked tile flips while every other tile keeps its state.
     */
    method ClickTile(index: nat)
      requires index < |InterestOptions|
      modifies this`selected
      ensures selected == Toggle(old(selected), InterestOptions[index])
      ensures InterestOptions[index] in selected <==> InterestOptions[index] !in old(selected)
      ensures old(FromTiles(selected)) ==> FromTiles(selected)
    {
      ghost var before := selected;
      selected := Toggle(selected, InterestOptions[index]);
      if FromTiles(before) {
        ToggleKeepsDistinctSubset(before, InterestOptions[index], InterestOptions);
      }
    }

    /** Next is never disabled. */
    method ClickNext() returns (e: Option<Step2Event>)
      ensures e == (if hasOnNext then Some(Next(selected)) else None)
    {
      e := if hasOnNext then Some(Next(selected)) else None;
    }

    method ClickPrevious() returns (e: Option<Step2Event>)
      ensures e == (if hasOnPrevious then Some(Previous) else None)
    {
      e := if hasOnPrevious then Some(Previous) else None;
    }

    method ClickSkip() returns (e: Option<Step2Event>)
      ensures e == (if hasOnSkip then Some(Skip) else None)
    {
      e := if hasOnSkip then Some(Skip) else None;
    }
  }
}
