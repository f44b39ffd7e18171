/**
 * Onboarding step 3, "Tell Us About Your Ride": own/want radio buttons, a
 * vehicle text field, and an "I don't currently own a vehicle" button that
 * clears and disables the field. Next reports `'none'` for no vehicle.
 */
module OnboardingStep3 {
  import opened Wrappers
  import opened JsString
  import opened ProfileTypes

  datatype InitialData = InitialData(vehicleType: Option<Ownership>, vehicle: Option<string>)

  datatype Step3Event =
    | Next(vehicleType: Ownership, vehicle: string)
    | Previous
    | Skip

  /** The vehicle reported for "no vehicle". */
  const NoVehicle: string := "none"

  /**
   * `handleNext`: fires when "no vehicle" was chosen or the field has a
   * non-blank character, and reports the field untrimmed.
   */
  function NextEvent(vehicleType: Ownership, vehicle: string, noVehicle: bool, hasOnNext: bool)
    : (e: Option<Step3Event>)
    ensures e.Some? <==> hasOnNext && (noVehicle || !AllWhitespace(vehicle))
    ensures e.Some? ==> e.value == Next(vehicleType, if noVehicle then NoVehicle else vehicle)
  {
    TrimEmptyIff(vehicle);
    if (noVehicle || Trim(vehicle) != "") && hasOnNext then
      Some(Next(vehicleType, if noVehicle then NoVehicle else vehicle))
    else None
  }

  class Step3 {
    const hasOnNext: bool
    const hasOnPrevious: bool
    const hasOnSkip: bool
    var vehicleType: Ownership
    var vehicle: string
    var noVehicle: bool

    /** Choosing "no vehicle" always leaves the field empty. */
    ghost predicate Valid()
      reads this
    {
      noVehicle ==> vehicle == ""
    }

    constructor(initial: Option<InitialData>, hasOnNext: bool, hasOnPrevious: bool, hasOnSkip: bool)
      ensures Valid()
      ensures this.hasOnNext == hasOnNext && this.hasOnPrevious == hasOnPrevious && this.hasOnSkip == hasOnSkip
      ensures initial.None? ==> vehicleType == Own && vehicle == ""
      ensures initial.Some? ==>
                vehicleType == initial.value.vehicleType.GetOr(Own) && vehicle == initial.value.vehicle.GetOr("")
      ensures !noVehicle
    {
      this.hasOnNext, this.hasOnPrevious, this.hasOnSkip := hasOnNext, hasOnPrevious, hasOnSkip;
      if initial.Some? {
        vehicleType := initial.value.vehicleType.GetOr(Own);
        vehicle := initial.value.vehicle.GetOr("");
      } else {
        vehicleType, vehicle := Own, "";
      }
      noVehicle := false;
    }

    /** The "I Own This Car" / "I Want This Car" radio buttons. */
    method SetVehicleType(t: Ownership)
      requires Valid()
      modifies this`vehicleType
      ensures Valid() && vehicleType == t
    {
      vehicleType := t;
    }

    /** `handleNoVehicleClick` */
    method ClickNoVehicle()
      requires Valid()
      modifies this`noVehicle, this`vehicle
      ensures Valid() && noVehicle && vehicle == ""
    {
      noVehicle := true;
      vehicle := "";
    }

    /**
     * `handleVehicleChange`: typing clears "no vehicle". The field is disabled
     * while "no vehicle" is chosen, so no change arrives then.
     */
    method ChangeVehicle(value: string)
      requires Valid()
      modifies this`vehicle, this`noVehicle
      ensures Valid()
      ensures old(noVehicle) ==> vehicle == old(vehicle) && noVehicle
      ensures !old(noVehicle) ==> vehicle == value && !noVehicle
    {
      if !noVehicle {
        vehicle := value;
        noVehicle := false;
      }
    }

    /** Next is never disabled; the handler itself checks the field. */
    method ClickNext() returns (e: Option<Step3Event>)
      requires Valid()
      ensures e == NextEvent(vehicleType, vehicle, noVehicle, hasOnNext)
      ensures e.Some? && noVehicle ==> e.value.vehicle == NoVehicle
    {
      e := None;
      if noVehicle || Trim(vehicle) != "" {
        if hasOnNext {
          e := Some(Next(vehicleType, if noVehicle then NoVehicle else vehicle));
        }
      }
    }

    method ClickPrevious() returns (e: Option<Step3Event>)
      ensures e == (if hasOnPrevious then Some(Previous) else None)
    {
      e := if hasOnPrevious then Some(Previous) else None;
    }

    method ClickSkip() returns (e: Option<Step3Event>)
      ensures e == (if hasOnSkip then Some(Skip) else None)
    {
      e := if hasOnSkip then Some(Skip) else None;
    }
  }

  /** After "no vehicle", Next reports `'none'` whatever the field held before. */
  lemma NoVehicleThenNext(vehicleType: Ownership)
    ensures NextEvent(vehicleType, "", true, true) == Some(Next(vehicleType, NoVehicle))
  {
  }

  /** A blank field without "no vehicle" reports nothing. */
  lemma BlankVehicleBlocksNext(vehicleType: Ownership, vehicle: string, hasOnNext: bool)
    requires AllWhitespace(vehicle)
    ensures NextEvent(vehicleType, vehicle, false, hasOnNext) == None
  {
  }
}
