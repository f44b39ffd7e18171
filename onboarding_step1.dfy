/**
 * Onboarding step 1, "Start Your Engines": a required name and an optional
 * location; Next reports both once the name has a non-blank character.
 */
module OnboardingStep1 {
  import opened Wrappers
  import opened JsString

  datatype InitialData = InitialData(name: Option<string>, location: Option<string>)

  datatype Step1Event =
    | Next(name: string, location: string)
    | Previous
    | Skip

  /**
   * `!name.trim()`: Next is disabled while the name is blank, that is,
   * exactly when every character of the name is whitespace.
   */
  predicate IsNextDisabled(name: string): (disabled: bool)
    ensures disabled <==> AllWhitespace(name)
  {
    TrimEmptyIff(name);
    Trim(name) == ""
  }

  /**
   * The outcome of a click on Next: nothing while disabled or without an
   * `onNext` callback, otherwise the name and location as typed (untrimmed).
   */
  function NextEvent(name: string, location: string, hasOnNext: bool): (e: Option<Step1Event>)
    ensures e.Some? <==> hasOnNext && !AllWhitespace(name)
    ensures e.Some? ==> e.value == Next(name, location)
  {
    if !IsNextDisabled(name) && hasOnNext then Some(Next(name, location)) else None
  }

  class Step1 {
    const hasOnNext: bool
    const hasOnPrevious: bool
    const hasOnSkip: bool
    var name: string
    var location: string

    /** The fields start from `initialData`, or empty. */
    constructor(initial: Option<InitialData>, hasOnNext: bool, hasOnPrevious: bool, hasOnSkip: bool)
      ensures this.hasOnNext == hasOnNext && this.hasOnPrevious == hasOnPrevious && this.hasOnSkip == hasOnSkip
      ensures initial.None? ==> name == "" && location == ""
      ensures initial.Some? ==> name == initial.value.name.GetOr("") && location == initial.value.location.GetOr("")
    {
      this.hasOnNext, this.hasOnPrevious, this.hasOnSkip := hasOnNext, hasOnPrevious, hasOnSkip;
      if initial.Some? {
        name := initial.value.name.GetOr("");
        location := initial.value.location.GetOr("");
      } else {
        name, location := "", "";
      }
    }

    method ChangeName(value: string)
      modifies this`name
      ensures name == value
    {
      name := value;
    }

    method ChangeLocation(value: string)
      modifies this`location
      ensures location == value
    {
      location := value;
    }

    /** `handleNext` behind a button that is disabled while the name is blank. */
    method ClickNext() returns (e: Option<Step1Event>)
      ensures e == NextEvent(name, location, hasOnNext)
    {
      e := None;
      if !IsNextDisabled(name) {
        if Trim(name) != "" && hasOnNext {
          e := Some(Next(name, location));
        }
      }
    }

    /** The Previous button on the first step is always disabled. */
    method ClickPrevious() returns (e: Option<Step1Event>)
      ensures e == None
    {
      e := None;
    }

    method ClickSkip() returns (e: Option<Step1Event>)
      ensures e == (if hasOnSkip then Some(Skip) else None)
    {
      e := if hasOnSkip then Some(Skip) else None;
    }
  }
}
