/**
 * The vehicle rating modal: ten stars, a hovered star that previews its
 * rating and label, a selected rating that RATE submits, and a cancel that
 * restores the rating the modal was opened with.
 */
module RatingModal {
  import opened Wrappers
  import opened JsString

  const StarCount: nat := 10

  /** The tooltip texts for ratings 1 to 10. */
  const RatingLabels: seq<string> := [
    "Awful – Never again",
    "Poor – Major regrets",
    "Below Average – Disappointed",
    "Fair – Just okay",
    "Average – Meets basic needs",
    "Decent – Would consider again",
    "Good – Happy overall",
    "Very Good – Impressive value",
    "Excellent – Love this car",
    "Perfect – Dream car!"]

  /** `ratingLabels[n]`: defined for the ratings 1 to 10 only. */
  function RatingLabel(n: int): (text: Option<string>)
    ensures text.Some? <==> 1 <= n <= StarCount
  {
    assert |RatingLabels| == StarCount;
    if 1 <= n <= StarCount then Some(RatingLabels[n - 1]) else None
  }

  /** What the modal reports to its parent. */
  datatype ModalEvent = Rate(rating: int) | Close

  function Max(a: int, b: int): int {
    if a >= b then a else b
  }

  /** `isSelected || (hoveredRating > 0 && isHovered)` for star `n`. */
  predicate IsActive(selected: int, hovered: int, n: int) {
    n <= selected || (hovered > 0 && n <= hovered)
  }

  /**
   * The lit stars are a prefix: star `n` is lit exactly when `n` is at most
   * the larger of the selected and the hovered rating.
   */
  lemma ActiveStarsArePrefix(selected: int, hovered: int, n: int)
    requires hovered >= 0 && n >= 1
    ensures IsActive(selected, hovered, n) <==> n <= Max(selected, hovered)
  {
  }

  /** `hoveredRating > 0 && starNumber === hoveredRating` */
  predicate ShowTooltip(hovered: int, n: int) {
    hovered > 0 && n == hovered
  }

  /** At most one star shows a tooltip; it is lit and names the hovered rating. */
  lemma OneTooltip(selected: int, hovered: int, n: int, m: int)
    requires ShowTooltip(hovered, n) && ShowTooltip(hovered, m)
    ensures n == m && IsActive(selected, hovered, n)
  {
  }

  /** The tooltip of a hovered star always has a label. */
  lemma TooltipHasLabel(hovered: int)
    requires 1 <= hovered <= StarCount
    ensures RatingLabel(hovered).Some?
  {
  }

  /** The large score: the selected rating when positive, else "0". */
  function ScoreText(selected: int): (t: string)
    ensures Number(t) == Some(Max(selected, 0))
    ensures selected > 0 ==> t == IntToString(selected)
    ensures selected <= 0 ==> t == "0"
  {
    if selected > 0 then
      NumberOfIntToString(selected);
      IntToString(selected)
    else
      NumberOfIntToString(0);
      assert IntToString(0) == "0";
      "0"
  }

  /** The star buttons' accessible names: "Rate 1 star", "Rate 2 stars", … */
  function StarAriaLabel(n: nat): (t: string)
    ensures |t| >= 10 && t[..5] == "Rate " && (n > 1 <==> t[|t| - 1] == 's')
    ensures var k := 5 + |Decimal(n)|;
            k <= |t| && t[5..k] == Decimal(n) && t[k..] == (if n > 1 then " stars" else " star")
  {
    var digits := Decimal(n);
    var suffix := if n > 1 then " stars" else " star";
    ThreePieces("Rate ", digits, suffix);
    "Rate " + digits + suffix
  }

  /** Reading the label's digits back as a number gives the star's rating. */
  lemma StarAriaLabelNamesRating(n: nat)
    ensures var k := 5 + |Decimal(n)|;
            k <= |StarAriaLabel(n)| && Number(StarAriaLabel(n)[5..k]) == Some(n)
  {
    assert IntToString(n) == Decimal(n);
    NumberOfIntToString(n);
  }

  class RatingModal {
    const isOpen: bool
    /** The `currentRating` prop, 0 when absent. */
    const currentRating: int
    /** `selectedRating` */
    var selected: int
    /** `hoveredRating`: 0, or the star under the pointer. */
    var hovered: int

    ghost predicate Valid()
      reads this
    {
      0 <= hovered <= StarCount
    }

    /** Nothing is rendered while closed, so no control can be used. */
    predicate Rendered() {
      isOpen
    }

    constructor(isOpen: bool, currentRating: Option<int>)
      ensures Valid()
      ensures this.isOpen == isOpen && this.currentRating == currentRating.GetOr(0)
      ensures selected == this.currentRating && hovered == 0
    {
      this.isOpen := isOpen;
      this.currentRating := currentRating.GetOr(0);
      selected := currentRating.GetOr(0);
      hovered := 0;
    }

    /** The tooltip text, if any star shows one. */
    function Tooltip(): (t: Option<string>)
      requires Valid()
      reads this
      ensures t.Some? <==> hovered > 0
      ensures t.Some? ==> t == RatingLabel(hovered)
    {
      if hovered > 0 then RatingLabel(hovered) else None
    }

    /** RATE is disabled only when the selected rating is exactly 0. */
    function SubmitEnabled(): bool
      reads this
    {
      selected != 0
    }

    method ClickStar(n: int)
      requires Valid() && Rendered() && 1 <= n <= StarCount
      modifies this`selected
      ensures Valid() && selected == n
    {
      selected := n;
    }

    method HoverStar(n: int)
      requires Valid() && Rendered() && 1 <= n <= StarCount
      modifies this`hovered
      ensures Valid() && hovered == n
      ensures Tooltip() == RatingLabel(n)
    {
      hovered := n;
    }

    method LeaveStar()
      requires Valid() && Rendered()
      modifies this`hovered
      ensures Valid() && hovered == 0 && Tooltip() == None
    {
      hovered := 0;
    }

    /** `handleSubmit` behind the RATE button: the rating, then a close request. */
    method Submit() returns (events: seq<ModalEvent>)
      requires Valid() && Rendered()
      ensures SubmitEnabled() ==> events == [Rate(selected), Close]
      ensures !SubmitEnabled() ==> events == []
    {
      events := [];
      if selected != 0 {
        events := [Rate(selected), Close];
      }
    }

    /** `handleCancel` (the close button): the rating goes back to the prop's. */
    method Cancel() returns (events: seq<ModalEvent>)
      requires Valid() && Rendered()
      modifies this`selected
      ensures Valid() && selected == currentRating && events == [Close]
    {
      selected := currentRating;
      events := [Close];
    }

    /** A click on the overlay cancels only when it hit the backdrop itself, not the dialog. */
    method ClickOverlay(onBackdrop: bool) returns (events: seq<ModalEvent>)
      requires Valid() && Rendered()
      modifies this`selected
      ensures Valid()
      ensures onBackdrop ==> selected == currentRating && events == [Close]
      ensures !onBackdrop ==> selected == old(selected) && events == []
    {
      events := [];
      if onBackdrop {
        events := Cancel();
      }
    }
  }
}
