/**
 * The profile page's completion card: progress over the four onboarding
 * steps, one step at a time expanded into an edit form, and a save per step
 * that reports the form's values to the page and collapses the step.
 */
module ProfileCompletionCard {
  import opened Wrappers
  import opened Selection
  import opened ProfileTypes

  datatype OnboardingStatus = OnboardingStatus(step1: bool, step2: bool, step3: bool, step4: bool)

  /** The optional onboarding answers the card starts its forms from. */
  datatype OnboardingData = OnboardingData(
    name: Option<string>,
    location: Option<string>,
    interests: Option<seq<string>>,
    vehicleType: Option<Ownership>,
    vehicle: Option<string>,
    newsletters: Option<seq<string>>)

  /** The `onboardingData = {}` default. */
  const NoData := OnboardingData(None, None, None, None, None, None)

  /** What a save reports through the matching `onUpdateStepN` callback. */
  datatype CardEvent =
    | UpdateStep1(name: string, location: string)
    | UpdateStep2(interests: seq<string>)
    | UpdateStep3(vehicleType: Ownership, vehicle: string)
    | UpdateStep4(newsletters: seq<string>)

  const TotalSteps: nat := 4

  predicate IsStep(n: int) {
    1 <= n <= TotalSteps
  }

  /** The `completed` flag of step `n`. */
  function StepCompleted(status: OnboardingStatus, n: int): bool
    requires IsStep(n)
  {
    if n == 1 then status.step1
    else if n == 2 then status.step2
    else if n == 3 then status.step3
    else status.step4
  }

  function Count(b: bool): nat {
    if b then 1 else 0
  }

  /** How many of the steps 1 to `k` are flagged completed. */
  function CompletedAmong(status: OnboardingStatus, k: nat): nat
    requires k <= TotalSteps
  {
    if k == 0 then 0 else CompletedAmong(status, k - 1) + Count(StepCompleted(status, k))
  }

  /** `completedCount`: the number of steps whose flag is set. */
  function CompletedCount(status: OnboardingStatus): (c: nat)
    ensures c == CompletedAmong(status, TotalSteps)
    ensures c <= TotalSteps
    ensures c == TotalSteps <==> forall n :: IsStep(n) ==> StepCompleted(status, n)
    ensures c == 0 <==> forall n :: IsStep(n) ==> !StepCompleted(status, n)
  {
    assert StepCompleted(status, 1) == status.step1 && StepCompleted(status, 2) == status.step2;
    assert StepCompleted(status, 3) == status.step3 && StepCompleted(status, 4) == status.step4;
    assert CompletedAmong(status, 1) == Count(status.step1);
    assert CompletedAmong(status, 2) == CompletedAmong(status, 1) + Count(status.step2);
    assert CompletedAmong(status, 3) == CompletedAmong(status, 2) + Count(status.step3);
    assert CompletedAmong(status, 4) == CompletedAmong(status, 3) + Count(status.step4);
    Count(status.step1) + Count(status.step2) + Count(status.step3) + Count(status.step4)
  }

  /**
   * `(completedCount / totalSteps) * 100`. With four steps the quotient is
   * exact, so `Math.round` shows the same number.
   */
  function ProgressPercentage(status: OnboardingStatus): (p: nat)
    ensures p * TotalSteps == CompletedCount(status) * 100
    ensures p <= 100
  {
    CompletedCount(status) * 25
  }

  predicate IsFullyComplete(status: OnboardingStatus) {
    CompletedCount(status) == TotalSteps
  }

  /**
   * The card renders nothing once every step is completed, so whenever it is
   * on screen its progress is one of 0, 25, 50 or 75 percent.
   */
  lemma ShownProgress(status: OnboardingStatus)
    requires !IsFullyComplete(status)
    ensures var p := ProgressPercentage(status);
            p < 100 && (p == 0 || p == 25 || p == 50 || p == 75)
  {
  }

  /** The status with step `n` flagged completed. */
  function MarkCompleted(status: OnboardingStatus, n: int): (r: OnboardingStatus)
    requires IsStep(n)
    ensures StepCompleted(r, n)
    ensures forall m :: IsStep(m) && m != n ==> StepCompleted(r, m) == StepCompleted(status, m)
  {
    if n == 1 then status.(step1 := true)
    else if n == 2 then status.(step2 := true)
    else if n == 3 then status.(step3 := true)
    else status.(step4 := true)
  }

  /** Completing any step that was not yet completed adds exactly a quarter. */
  lemma CompletingAStep(status: OnboardingStatus, n: int)
    requires IsStep(n) && !StepCompleted(status, n)
    ensures CompletedCount(MarkCompleted(status, n)) == CompletedCount(status) + 1
    ensures ProgressPercentage(MarkCompleted(status, n)) == ProgressPercentage(status) + 25
  {
  }

  /** `handleToggleStep`: a step's button collapses it when expanded, else expands it (collapsing any other). */
  function ToggleExpanded(expanded: Option<int>, n: int): (r: Option<int>)
    ensures r == Some(n) <==> expanded != Some(n)
    ensures r != Some(n) ==> r == None
  {
    if expanded == Some(n) then None else Some(n)
  }

  /** Pressing the same step's button twice returns to the collapsed state, or to that step. */
  lemma ToggleTwice(expanded: Option<int>, n: int)
    ensures ToggleExpanded(ToggleExpanded(expanded, n), n)
            == (if expanded == Some(n) then Some(n) else None)
  {
  }

  /** The text of a step's button. */
  function StepButtonLabel(expanded: Option<int>, n: int, completed: bool): (text: string)
    ensures expanded == Some(n) ==> text == "Cancel"
    ensures expanded != Some(n) && completed ==> text == "Edit"
    ensures expanded != Some(n) && !completed ==> text == "Complete →"
  {
    if expanded == Some(n) then "Cancel"
    else if completed then "Edit"
    else "Complete →"
  }

  /** At most one step's button reads "Cancel": the expanded one. */
  lemma OneCancelButton(expanded: Option<int>, status: OnboardingStatus, n: int, m: int)
    requires IsStep(n) && IsStep(m) && n != m
    requires StepButtonLabel(expanded, n, StepCompleted(status, n)) == "Cancel"
    ensures StepButtonLabel(expanded, m, StepCompleted(status, m)) != "Cancel"
    ensures expanded == Some(n)
  {
  }

  /** The eight interests offered in the step 2 form. */
  const InterestOptions: seq<string> := [
    "Are you shopping?", "Are you browsing?", "Vehicle Reviews", "Automotive News",
    "Car Comparisons", "Buying Guides", "Maintenance Tips", "Racing & Sports"]

  /** The newsletter ids offered in the step 4 form. */
  const NewsletterIds: seq<string> := ["motortrend", "hotrod"]

  /**
   * A selection made only with the form's checkboxes: duplicate-free and
   * drawn from the offered options. Answers passed in from onboarding need
   * not be, so this is kept by the toggles rather than assumed.
   */
  predicate ChoicesFrom(selected: seq<string>, options: seq<string>) {
    Distinct(selected) && forall x :: x in selected ==> x in options
  }

  class Card {
    const status: OnboardingStatus
    /** Which `onUpdateStepN` callbacks the page passed. */
    const hasUpdate1: bool
    const hasUpdate2: bool
    const hasUpdate3: bool
    const hasUpdate4: bool

    /** `expandedStep` */
    var expanded: Option<int>
    var name: string
    var location: string
    var interests: seq<string>
    var vehicleType: Ownership
    var vehicle: string
    var newsletters: seq<string>

    /** Only one of the four steps can be expanded. */
    ghost predicate Valid()
      reads this
    {
      expanded.Some? ==> IsStep(expanded.value)
    }

    /** The card is on screen: not every step is completed. */
    predicate Rendered() {
      !IsFullyComplete(status)
    }

    /** The forms start from the onboarding answers, with `''`, `[]` and `'own'` for the missing ones. */
    constructor(status: OnboardingStatus, data: Option<OnboardingData>,
                hasUpdate1: bool, hasUpdate2: bool, hasUpdate3: bool, hasUpdate4: bool)
      ensures Valid()
      ensures this.status == status && expanded == None
      ensures this.hasUpdate1 == hasUpdate1 && this.hasUpdate2 == hasUpdate2
      ensures this.hasUpdate3 == hasUpdate3 && this.hasUpdate4 == hasUpdate4
      ensures var d := data.GetOr(NoData);
              && name == d.name.GetOr("") && location == d.location.GetOr("")
              && interests == d.interests.GetOr([]) && vehicleType == d.vehicleType.GetOr(Own)
              && vehicle == d.vehicle.GetOr("") && newsletters == d.newsletters.GetOr([])
    {
      this.status := status;
      this.hasUpdate1, this.hasUpdate2 := hasUpdate1, hasUpdate2;
      this.hasUpdate3, this.hasUpdate4 := hasUpdate3, hasUpdate4;
      var d := data.GetOr(NoData);
      expanded := None;
      name := d.name.GetOr("");
      location := d.location.GetOr("");
      interests := d.interests.GetOr([]);
      vehicleType := d.vehicleType.GetOr(Own);
      vehicle := d.vehicle.GetOr("");
      newsletters := d.newsletters.GetOr([]);
    }

    /** A step's Complete / Edit / Cancel button. */
    method ToggleStep(n: int)
      requires Valid() && Rendered() && IsStep(n)
      modifies this`expanded
      ensures Valid()
      ensures expanded == ToggleExpanded(old(expanded), n)
    {
      expanded := if expanded == Some(n) then None else Some(n);
    }

    method SetName(value: string)
      requires Valid() && Rendered() && expanded == Some(1)
      modifies this`name
      ensures Valid() && name == value
    {
      name := value;
    }

    method SetLocation(value: string)
      requires Valid() && Rendered() && expanded == Some(1)
      modifies this`location
      ensures Valid() && location == value
    {
      location := value;
    }

    /** A checkbox of the step 2 form. */
    method ToggleInterest(interest: string)
      requires Valid() && Rendered() && expanded == Some(2) && interest in InterestOptions
      modifies this`interests
      ensures Valid()
      ensures interests == Toggle(old(interests), interest)
      ensures old(ChoicesFrom(interests, InterestOptions)) ==> ChoicesFrom(interests, InterestOptions)
    {
      if ChoicesFrom(interests, InterestOptions) {
        ToggleKeepsDistinctSubset(interests, interest, InterestOptions);
      }
      interests := Toggle(interests, interest);
    }

    method SetVehicle(value: string)
      requires Valid() && Rendered() && expanded == Some(3)
      modifies this`vehicle
      ensures Valid() && vehicle == value
    {
      vehicle := value;
    }

    method SetVehicleType(t: Ownership)
      requires Valid() && Rendered() && expanded == Some(3)
      modifies this`vehicleType
      ensures Valid() && vehicleType == t
    {
      vehicleType := t;
    }

    /** A checkbox of the step 4 form. */
    method ToggleNewsletter(id: string)
      requires Valid() && Rendered() && expanded == Some(4) && id in NewsletterIds
      modifies this`newsletters
      ensures Valid()
      ensures newsletters == Toggle(old(newsletters), id)
      ensures old(ChoicesFrom(newsletters, NewsletterIds)) ==> ChoicesFrom(newsletters, NewsletterIds)
    {
      if ChoicesFrom(newsletters, NewsletterIds) {
        ToggleKeepsDistinctSubset(newsletters, id, NewsletterIds);
      }
      newsletters := Toggle(newsletters, id);
    }

    /**
     * Step 1's Save: needs a non-empty name (untrimmed: a name of spaces is
     * accepted) and the callback; the button is disabled for an empty name.
     */
    method SaveStep1() returns (event: Option<CardEvent>)
      requires Valid() && Rendered() && expanded == Some(1)
      modifies this`expanded
      ensures Valid()
      ensures name != "" && hasUpdate1 ==> event == Some(UpdateStep1(name, location)) && expanded == None
      ensures !(name != "" && hasUpdate1) ==> event == None && expanded == old(expanded)
    {
      event := None;
      if name != "" && hasUpdate1 {
        event := Some(UpdateStep1(name, location));
        expanded := None;
      }
    }

    /** Step 2's Save: needs at least one interest; the button is disabled for none. */
    method SaveStep2() returns (event: Option<CardEvent>)
      requires Valid() && Rendered() && expanded == Some(2)
      modifies this`expanded
      ensures Valid()
      ensures |interests| > 0 && hasUpdate2 ==> event == Some(UpdateStep2(interests)) && expanded == None
      ensures !(|interests| > 0 && hasUpdate2) ==> event == None && expanded == old(expanded)
    {
      event := None;
      if |interests| > 0 && hasUpdate2 {
        event := Some(UpdateStep2(interests));
        expanded := None;
      }
    }

    /** Step 3's Save: needs a non-empty vehicle; the button is disabled for an empty one. */
    method SaveStep3() returns (event: Option<CardEvent>)
      requires Valid() && Rendered() && expanded == Some(3)
      modifies this`expanded
      ensures Valid()
      ensures vehicle != "" && hasUpdate3 ==>
                event == Some(UpdateStep3(vehicleType, vehicle)) && expanded == None
      ensures !(vehicle != "" && hasUpdate3) ==> event == None && expanded == old(expanded)
    {
      event := None;
      if vehicle != "" && hasUpdate3 {
        event := Some(UpdateStep3(vehicleType, vehicle));
        expanded := None;
      }
    }

    /** Step 4's Save: always enabled; an empty selection is reported too. */
    method SaveStep4() returns (event: Option<CardEvent>)
      requires Valid() && Rendered() && expanded == Some(4)
      modifies this`expanded
      ensures Valid()
      ensures hasUpdate4 ==> event == Some(UpdateStep4(newsletters)) && expanded == None
      ensures !hasUpdate4 ==> event == None && expanded == old(expanded)
    {
      event := None;
      if hasUpdate4 {
        event := Some(UpdateStep4(newsletters));
        expanded := None;
      }
    }
  }
}
