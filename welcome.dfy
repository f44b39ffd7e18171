/**
 * The welcome page shown after onboarding: a greeting, a subtitle naming the
 * first two interests, and a profile summary with an optional vehicle card.
 */
module Welcome {
  import opened Wrappers
  import opened JsString
  import opened ProfileTypes

  datatype UserData = UserData(
    name: Option<string>,
    location: Option<string>,
    interests: Option<seq<string>>,
    vehicle: Option<string>,
    vehicleType: Option<Ownership>,
    newsletters: Option<seq<string>>)

  /** The values the page shows after destructuring with defaults. */
  datatype Shown = Shown(
    name: string,
    location: Option<string>,
    interests: seq<string>,
    vehicle: Option<string>,
    vehicleType: Ownership,
    newsletters: seq<string>)

  const GuestName: string := "Guest"

  /**
   * `const { name = 'Guest', …, vehicleType = 'own', newsletters = [] } = userData || {}`:
   * a default replaces only a missing field, so an empty name stays empty.
   */
  function Resolve(userData: Option<UserData>): (r: Shown)
    ensures userData.None? ==> r == Shown(GuestName, None, [], None, Own, [])
    ensures userData.Some? ==>
              var u := userData.value;
              && (u.name.Some? ==> r.name == u.name.value)
              && (u.name.None? ==> r.name == GuestName)
              && r.location == u.location && r.vehicle == u.vehicle
              && (u.interests.Some? ==> r.interests == u.interests.value)
              && (u.interests.None? ==> r.interests == [])
              && (u.vehicleType.Some? ==> r.vehicleType == u.vehicleType.value)
              && (u.vehicleType.None? ==> r.vehicleType == Own)
              && (u.newsletters.Some? ==> r.newsletters == u.newsletters.value)
              && (u.newsletters.None? ==> r.newsletters == [])
  {
    var u := userData.GetOr(UserData(None, None, None, None, None, None));
    Shown(u.name.GetOr(GuestName), u.location, u.interests.GetOr([]), u.vehicle,
          u.vehicleType.GetOr(Own), u.newsletters.GetOr([]))
  }

  /** `Welcome {name}` */
  function Title(s: Shown): (t: string)
    ensures |t| == 8 + |s.name| && t[..8] == "Welcome " && t[8..] == s.name
  {
    "Welcome " + s.name
  }

  /**
   * The subtitle's middle clause: nothing without interests, otherwise
   * `" in "` and the first one or two interests joined by `" and "`.
   */
  function InterestsClause(interests: seq<string>): (c: string)
    ensures |interests| == 0 ==> c == ""
    ensures |interests| == 1 ==> c == " in " + interests[0]
    ensures |interests| >= 2 ==> c == " in " + interests[0] + " and " + interests[1]
  {
    if |interests| > 0 then
      var firstTwo := if |interests| <= 2 then interests else interests[..2];
      assert |firstTwo| == 2 ==> Join(firstTwo, " and ") == interests[0] + " and " + interests[1] by {
        if |firstTwo| == 2 {
          assert firstTwo[1..] == [interests[1]];
        }
      }
      " in " + Join(firstTwo, " and ")
    else ""
  }

  /** Later interests never show in the subtitle. */
  lemma OnlyFirstTwoInterests(interests: seq<string>, more: seq<string>)
    requires |interests| >= 2
    ensures InterestsClause(interests + more) == InterestsClause(interests)
  {
  }

  const SubtitleStart: string := "Based on your interests"
  const SubtitleEnd: string := ", I've personalized your MotorTrend experience."

  /** The subtitle names no interest, the only one, or the first two. */
  function Subtitle(s: Shown): (t: string)
    ensures |s.interests| == 0 ==> t == SubtitleStart + SubtitleEnd
    ensures |s.interests| == 1 ==> t == SubtitleStart + " in " + s.interests[0] + SubtitleEnd
    ensures |s.interests| >= 2 ==>
              t == SubtitleStart + " in " + s.interests[0] + " and " + s.interests[1] + SubtitleEnd
  {
    var clause := InterestsClause(s.interests);
    if |s.interests| == 1 then
      Regroup(SubtitleStart, " in ", s.interests[0]);
      SubtitleStart + clause + SubtitleEnd
    else if |s.interests| >= 2 then
      Regroup(SubtitleStart, " in ", s.interests[0]);
      Regroup(SubtitleStart, " in " + s.interests[0], " and ");
      Regroup(SubtitleStart, " in " + s.interests[0] + " and ", s.interests[1]);
      SubtitleStart + clause + SubtitleEnd
    else
      SubtitleStart + clause + SubtitleEnd
  }

  /** Concatenation regrouped to the left. */
  lemma Regroup(a: string, b: string, c: string)
    ensures a + (b + c) == a + b + c
  {
  }

  const NotSpecified: string := "Not specified"

  /** `location || 'Not specified'`: a missing or empty location reads "Not specified". */
  function LocationText(s: Shown): (t: string)
    ensures s.location.None? || s.location == Some("") ==> t == NotSpecified
    ensures s.location.Some? && s.location.value != "" ==> t == s.location.value
  {
    if s.location.Some? && s.location.value != "" then s.location.value else NotSpecified
  }

  const SelectedSuffix: string := " selected"

  /** `{interests.length} selected` */
  function InterestsText(s: Shown): (t: string)
    ensures var k := |t| - |SelectedSuffix|;
            0 < k && AllDigits(t[..k]) && t[k..] == SelectedSuffix
  {
    Decimal(|s.interests|) + SelectedSuffix
  }

  /** The interests line starts with the interest count in decimal and nothing else before the suffix. */
  lemma InterestsTextCounts(s: Shown)
    ensures var t := InterestsText(s);
            var k := |t| - |SelectedSuffix|;
            0 < k && t[k..] == SelectedSuffix && Number(t[..k]) == Some(|s.interests|)
  {
    var t := InterestsText(s);
    var k := |t| - |SelectedSuffix|;
    assert t[..k] == Decimal(|s.interests|);
    assert Decimal(|s.interests|) == IntToString(|s.interests|);
    NumberOfIntToString(|s.interests|);
  }

  /** `vehicle && vehicle !== 'none'`: a vehicle that is neither missing, empty nor `'none'`. */
  predicate HasVehicle(s: Shown) {
    s.vehicle.Some? && s.vehicle.value != "" && s.vehicle.value != "none"
  }

  /** "Current Vehicles": 1 with a vehicle, else 0. */
  function VehicleCountText(s: Shown): (t: string)
    ensures t == "1" <==> HasVehicle(s)
    ensures t == "0" <==> !HasVehicle(s)
  {
    if HasVehicle(s) then "1" else "0"
  }

  /** The step 3 "no vehicle" answer counts as no vehicle and hides the vehicle card. */
  lemma NoVehicleAnswer(s: Shown)
    requires s.vehicle == Some("none")
    ensures VehicleCountText(s) == "0" && VehicleCard(s).None?
  {
  }

  /** "Subscribed" for at least one newsletter. */
  function NewsletterText(s: Shown): (t: string)
    ensures t == "Subscribed" <==> |s.newsletters| > 0
  {
    if |s.newsletters| > 0 then "Subscribed" else "Not subscribed"
  }

  /** The vehicle card: its name, and which of the own/want radios shows the dot. */
  datatype VehicleCardView = VehicleCardView(name: string, ownSelected: bool, wantSelected: bool)

  /** The vehicle card is shown exactly when the vehicle count reads 1, with exactly one radio selected. */
  function VehicleCard(s: Shown): (c: Option<VehicleCardView>)
    ensures c.Some? <==> VehicleCountText(s) == "1"
    ensures c.Some? ==> c.value.name == s.vehicle.value && c.value.ownSelected != c.value.wantSelected
    ensures c.Some? ==> (c.value.ownSelected <==> s.vehicleType == Own)
  {
    if HasVehicle(s) then
      Some(VehicleCardView(s.vehicle.value, s.vehicleType == Own, s.vehicleType == Want))
    else None
  }

  /** Without any user data the page greets a guest with an empty summary. */
  lemma NoUserData()
    ensures var s := Resolve(None);
            && Title(s) == "Welcome Guest"
            && Subtitle(s) == SubtitleStart + SubtitleEnd
            && LocationText(s) == NotSpecified
            && VehicleCountText(s) == "0"
            && NewsletterText(s) == "Not subscribed"
  {
  }
}
