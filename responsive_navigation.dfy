/**
 * The header's responsive navigation: on every resize the nav links are
 * measured, the ones that fit in the container (less a reserved margin) stay
 * visible, the rest go into a "More" overflow menu, and one more visible link
 * is demoted to make room for the "More" trigger.
 *
 * Measurement is an input: `linkWidths[i]` is the `offsetWidth` of the i-th
 * rendered nav link. `querySelectorAll` returns the rendered links as a
 * contiguous list, so the element for item `i` is missing exactly when
 * `i >= |linkWidths|`.
 */
module ResponsiveNavigation {
  import opened Wrappers

  datatype NavigationItem = NavigationItem(labelText: string, href: string)

  /** Space kept for the logo and the right-hand section. */
  const ReservedWidth: nat := 200
  /** Gap added to every measured link. */
  const ItemGap: nat := 24
  /** Approximate width of the "More" trigger. */
  const MoreButtonWidth: nat := 60

  function AvailableWidth(containerWidth: nat): int {
    containerWidth - ReservedWidth
  }

  /** Running total after the first `n` measured links: the sum of `width + 24`. */
  function Total(widths: seq<nat>, n: nat): nat
    requires n <= |widths|
  {
    if n == 0 then 0 else Total(widths, n - 1) + widths[n - 1] + ItemGap
  }

  /** How many of the first `n` measured links saw a running total within `available`. */
  function FitCount(widths: seq<nat>, n: nat, available: int): nat
    requires n <= |widths|
  {
    if n == 0 then 0
    else FitCount(widths, n - 1, available) + (if Total(widths, n) <= available then 1 else 0)
  }

  lemma {:induction false} TotalMonotone(widths: seq<nat>, i: nat, j: nat)
    requires i <= j <= |widths|
    ensures Total(widths, i) <= Total(widths, j)
    decreases j
  {
    if i < j {
      TotalMonotone(widths, i, j - 1);
    }
  }

  /**
   * Because the running total never decreases, the links counted by FitCount
   * are a prefix: the first FitCount totals fit, every later one does not.
   */
  lemma {:induction false} FitCountIsPrefix(widths: seq<nat>, n: nat, available: int)
    requires n <= |widths|
    ensures FitCount(widths, n, available) <= n
    ensures forall j :: 0 < j <= FitCount(widths, n, available) ==> Total(widths, j) <= available
    ensures forall j :: FitCount(widths, n, available) < j <= n ==> Total(widths, j) > available
    decreases n
  {
    if n > 0 {
      FitCountIsPrefix(widths, n - 1, available);
    }
  }

  /** If the next running total still fits, every earlier one fitted. */
  lemma FitsSoFar(widths: seq<nat>, n: nat, available: int)
    requires n < |widths|
    requires Total(widths, n + 1) <= available
    ensures FitCount(widths, n, available) == n
  {
    FitCountIsPrefix(widths, n, available);
  }

  /** Once something overflowed, the final total exceeds the available width. */
  lemma OverflowPersists(widths: seq<nat>, n: nat, available: int)
    requires n <= |widths|
    requires FitCount(widths, n, available) < n
    ensures Total(widths, n) > available
  {
    FitCountIsPrefix(widths, n, available);
  }

  function Min(a: nat, b: nat): nat {
    if a <= b then a else b
  }

  /** The number of items that have a rendered, measurable link. */
  function Measured(items: seq<NavigationItem>, widths: seq<nat>): nat {
    Min(|items|, |widths|)
  }

  datatype Layout = Layout(visible: seq<NavigationItem>, hidden: seq<NavigationItem>)

  /** The visible / hidden split of the measuring loop, before the "More" demotion. */
  function FirstPass(items: seq<NavigationItem>, widths: seq<nat>, available: int): Layout {
    var m := Measured(items, widths);
    var k := FitCount(widths, m, available);
    FitCountIsPrefix(widths, m, available);
    Layout(items[..k], items[k..m])
  }

  /**
   * The layout the hook settles on: whenever anything overflowed and something
   * is visible, the last visible item moves to the front of the hidden list.
   */
  function ComputeLayout(items: seq<NavigationItem>, widths: seq<nat>, available: int): (l: Layout)
    ensures |l.visible| <= Measured(items, widths)
    ensures |l.visible| > 0 ==> Total(widths, |l.visible|) <= available
    ensures |l.hidden| > 0 <==> Total(widths, Measured(items, widths)) > available && Measured(items, widths) > 0
  {
    var first := FirstPass(items, widths, available);
    var m := Measured(items, widths);
    FitCountIsPrefix(widths, m, available);
    if |first.hidden| > 0 then
      OverflowPersists(widths, m, available);
      if |first.visible| > 0 then
        var n := |first.visible|;
        Layout(first.visible[..n - 1], [first.visible[n - 1]] + first.hidden)
      else first
    else first
  }

  /**
   * The `totalWidth + moreButtonWidth > availableWidth` test is always true
   * when something is hidden: the total already exceeds the available width.
   */
  lemma MoreDemotionAlwaysFires(items: seq<NavigationItem>, widths: seq<nat>, available: int)
    requires |FirstPass(items, widths, available).hidden| > 0
    ensures Total(widths, Measured(items, widths)) + MoreButtonWidth > available
  {
    FitCountIsPrefix(widths, Measured(items, widths), available);
    OverflowPersists(widths, Measured(items, widths), available);
  }

  /**
   * Visible followed by hidden is exactly the measured items in order; items
   * without a rendered link appear in neither list; with every link rendered
   * the two lists partition all the items.
   */
  lemma LayoutSplitsItems(items: seq<NavigationItem>, widths: seq<nat>, available: int)
    ensures var l := ComputeLayout(items, widths, available);
            l.visible + l.hidden == items[..Measured(items, widths)]
    ensures |widths| >= |items| ==>
              var l := ComputeLayout(items, widths, available);
              l.visible + l.hidden == items
  {
    var first := FirstPass(items, widths, available);
    var m := Measured(items, widths);
    var k := FitCount(widths, m, available);
    FitCountIsPrefix(widths, m, available);
    assert first.visible + first.hidden == items[..m];
    if |first.hidden| > 0 && |first.visible| > 0 {
      var n := |first.visible|;
      assert first.visible[..n - 1] + ([first.visible[n - 1]] + first.hidden)
          == first.visible + first.hidden;
    }
    if |widths| >= |items| {
      assert items[..|items|] == items;
    }
  }

  /** If every measured link fits, nothing is hidden and all measured items are visible. */
  lemma EverythingFits(items: seq<NavigationItem>, widths: seq<nat>, available: int)
    requires Total(widths, Measured(items, widths)) <= available
    ensures ComputeLayout(items, widths, available) == Layout(items[..Measured(items, widths)], [])
  {
    var m := Measured(items, widths);
    FitCountIsPrefix(widths, m, available);
  }

  /**
   * On overflow with `k` items fitting, the first `k - 1` stay visible and the
   * hidden list starts with item `k - 1`; every visible item's running total fits.
   */
  lemma OverflowDemotesOne(items: seq<NavigationItem>, widths: seq<nat>, available: int)
    requires Measured(items, widths) > 0
    requires Total(widths, Measured(items, widths)) > available
    ensures var m := Measured(items, widths);
            var k := FitCount(widths, m, available);
            var l := ComputeLayout(items, widths, available);
            && k < m
            && (k > 0 ==> l == Layout(items[..k - 1], items[k - 1..m]))
            && (k == 0 ==> l == Layout([], items[..m]))
            && (forall j :: 0 < j <= |l.visible| ==> Total(widths, j) <= available)
  {
    var m := Measured(items, widths);
    var k := FitCount(widths, m, available);
    FitCountIsPrefix(widths, m, available);
    if k > 0 {
      assert items[..k][..k - 1] == items[..k - 1];
      assert [items[..k][k - 1]] + items[k..m] == items[k - 1..m];
    }
  }

  /** The measuring loop of `handleResize`: running totals decide visible or hidden. */
  method MeasureLinks(items: seq<NavigationItem>, widths: seq<nat>, available: int)
    returns (visible: seq<NavigationItem>, hidden: seq<NavigationItem>, totalWidth: nat)
    ensures Layout(visible, hidden) == FirstPass(items, widths, available)
    ensures totalWidth == Total(widths, Measured(items, widths))
  {
    totalWidth := 0;
    var visibleCount := 0;
    visible, hidden := [], [];
    var i := 0;
    while i < |items|
      invariant 0 <= i <= |items|
      invariant totalWidth == Total(widths, Min(i, |widths|))
      invariant FitCount(widths, Min(i, |widths|), available) <= Min(i, |widths|)
      invariant visible == items[..FitCount(widths, Min(i, |widths|), available)]
      invariant hidden == items[FitCount(widths, Min(i, |widths|), available)..Min(i, |widths|)]
      invariant visibleCount == |visible|
    {
      if i >= |widths| {
        // no rendered link for this item: skipped
        i := i + 1;
        continue;
      }
      assert Min(i, |widths|) == i && Min(i + 1, |widths|) == i + 1;
      var itemWidth := widths[i] + ItemGap;
      totalWidth := totalWidth + itemWidth;
      assert totalWidth == Total(widths, i + 1);
      var k := FitCount(widths, i, available);
      if totalWidth <= available {
        FitsSoFar(widths, i, available);
        assert FitCount(widths, i + 1, available) == i + 1;
        assert items[..i] + [items[i]] == items[..i + 1];
        visible := visible + [items[i]];
        visibleCount := visibleCount + 1;
      } else {
        assert FitCount(widths, i + 1, available) == k;
        assert items[k..i] + [items[i]] == items[k..i + 1];
        hidden := hidden + [items[i]];
      }
      i := i + 1;
    }
  }

  /** `handleResize`'s split: the measuring loop, followed by the "More" adjustment. */
  method Partition(items: seq<NavigationItem>, widths: seq<nat>, available: int)
    returns (visible: seq<NavigationItem>, hidden: seq<NavigationItem>)
    ensures Layout(visible, hidden) == ComputeLayout(items, widths, available)
  {
    var totalWidth;
    visible, hidden, totalWidth := MeasureLinks(items, widths, available);
    if |hidden| > 0 {
      MoreDemotionAlwaysFires(items, widths, available);
      if totalWidth + MoreButtonWidth > available && |visible| > 0 {
        var lastVisible := visible[|visible| - 1];
        visible := visible[..|visible| - 1];
        hidden := [lastVisible] + hidden;
      }
    }
  }

  /** The state kept by `useResponsiveNavigation`. */
  class NavigationBar {
    const items: seq<NavigationItem>
    var visible: seq<NavigationItem>
    var hidden: seq<NavigationItem>

    /** Before the first measurement every item is visible. */
    constructor(items: seq<NavigationItem>)
      ensures this.items == items && visible == items && hidden == []
    {
      this.items := items;
      visible := items;
      hidden := [];
    }

    /**
     * `handleResize`: `containerWidth` is the nav element's `offsetWidth`, or
     * `None` when the element is not mounted. Without the element or without
     * any rendered link the state is left as it was.
     */
    method HandleResize(containerWidth: Option<nat>, linkWidths: seq<nat>)
      modifies this`visible, this`hidden
      ensures containerWidth == None || |linkWidths| == 0 ==>
                visible == old(visible) && hidden == old(hidden)
      ensures containerWidth != None && |linkWidths| > 0 ==>
                Layout(visible, hidden)
                == ComputeLayout(items, linkWidths, AvailableWidth(containerWidth.value))
    {
      if containerWidth == None {
        return;
      }
      var availableWidth := AvailableWidth(containerWidth.value);
      if |linkWidths| == 0 {
        return;
      }
      visible, hidden := Partition(items, linkWidths, availableWidth);
    }
  }
}
