/**
 * The membership page: a card record that starts from built-in defaults and,
 * once on mount, takes the name, avatar, car, join date and newsletter from
 * the stored onboarding record.
 */
module Membership {
  import opened Wrappers
  import opened Json
  import OnboardingStep4

  /**
   * The page's `userData` state; `None` is `undefined`. The stored record is
   * not checked, so each field holds whatever JSON value it supplied.
   */
  datatype MemberRecord = MemberRecord(
    name: Option<Json>,
    avatar: Option<Json>,
    memberSince: Option<Json>,
    car: Option<Json>,
    newsletter: Option<Json>)

  const DefaultName: string := "Lenin Aviles"
  const DefaultMemberSince: string := "09/27/2025"
  const DefaultCar: string := "2021 Subaru WRX"
  const DefaultNewsletter: string := "MotorTrend"

  const DefaultRecord: MemberRecord := MemberRecord(
    Some(JStr(DefaultName)), None, Some(JStr(DefaultMemberSince)),
    Some(JStr(DefaultCar)), Some(JStr(DefaultNewsletter)))

  /**
   * The state updater applied to the parsed record: name, car, join date and
   * newsletter are taken when truthy and kept otherwise; the avatar is always
   * replaced, by `undefined` when the record has none. Reading a field of
   * `null` throws inside the updater (`None`).
   */
  function Merge(prev: MemberRecord, data: Json): (r: Option<MemberRecord>)
    ensures r.None? <==> data == JNull
  {
    match Get(data, "name")
    case None => None
    case Some(name) =>
      Some(MemberRecord(
        Or(name, prev.name),
        Get(data, "avatar").value,
        Or(Get(data, "memberSince").value, prev.memberSince),
        Or(Get(data, "vehicle").value, prev.car),
        Or(Get(data, "newsletter").value, prev.newsletter)))
  }

  /** A field taken from the record is the record's own truthy value; otherwise the old one stays. */
  lemma MergeFields(prev: MemberRecord, fields: map<string, Json>)
    ensures var r := Merge(prev, JObj(fields)).value;
            && (if "name" in fields && Truthy(fields["name"]) then r.name == Some(fields["name"]) else r.name == prev.name)
            && (if "vehicle" in fields && Truthy(fields["vehicle"]) then r.car == Some(fields["vehicle"]) else r.car == prev.car)
            && (if "memberSince" in fields && Truthy(fields["memberSince"])
                then r.memberSince == Some(fields["memberSince"]) else r.memberSince == prev.memberSince)
            && (if "newsletter" in fields && Truthy(fields["newsletter"])
                then r.newsletter == Some(fields["newsletter"]) else r.newsletter == prev.newsletter)
            && r.avatar == (if "avatar" in fields then Some(fields["avatar"]) else None)
  {
  }

  /** A parsed value that is not an object keeps every field except the avatar, which is cleared. */
  lemma MergeNonObject(prev: MemberRecord, data: Json)
    requires data != JNull && !data.JObj?
    ensures Merge(prev, data) == Some(prev.(avatar := None))
  {
  }

  /** Applying the same record twice is the same as applying it once. */
  lemma MergeIdempotent(prev: MemberRecord, data: Json)
    requires data != JNull
    ensures Merge(Merge(prev, data).value, data) == Merge(prev, data)
  {
  }

  /**
   * What the page shows after the mount effect: a record, or nothing at all
   * because rendering threw and unmounted the page (there is no error boundary).
   */
  datatype PageState = Showing(record: MemberRecord) | Crashed

  /**
   * The mount effect's result. No item, an empty item (falsy) and text that
   * `JSON.parse` rejects (caught and logged) leave the record as it was. A
   * stored `null` passes the `try`: the updater that reads `data.name` runs
   * when React renders, outside the `catch`, so the page crashes. Any other
   * parsed value is merged into the record.
   */
  function Loaded(prev: MemberRecord, items: Storage): (r: PageState)
    ensures OnboardingDataKey !in items ==> r == Showing(prev)
    ensures OnboardingDataKey in items && items[OnboardingDataKey] in {Blank, Unparseable} ==> r == Showing(prev)
    ensures OnboardingDataKey in items && items[OnboardingDataKey] == Parsed(JNull) ==> r == Crashed
    ensures OnboardingDataKey in items && items[OnboardingDataKey].Parsed? && items[OnboardingDataKey].value != JNull
            ==> r == Showing(Merge(prev, items[OnboardingDataKey].value).value)
  {
    if OnboardingDataKey !in items then Showing(prev)
    else match items[OnboardingDataKey]
      case Blank => Showing(prev)
      case Unparseable => Showing(prev)
      case Parsed(data) =>
        match Merge(prev, data)
        case None => Crashed
        case Some(next) => Showing(next)
  }

  /** Re-running the effect on the record it produced changes nothing more. */
  lemma LoadedIdempotent(prev: MemberRecord, items: Storage)
    requires Loaded(prev, items).Showing?
    ensures Loaded(Loaded(prev, items).record, items) == Loaded(prev, items)
  {
    if OnboardingDataKey in items && items[OnboardingDataKey].Parsed? && items[OnboardingDataKey].value != JNull {
      MergeIdempotent(prev, items[OnboardingDataKey].value);
    }
  }

  /**
   * Onboarding step 4 stores its selection under `newsletters`, while the page
   * reads `newsletter`: completing onboarding on an empty storage leaves the
   * card's newsletter at its default and clears nothing but the avatar.
   */
  lemma OnboardingNewslettersNotShown(selected: seq<string>)
    ensures var record := OnboardingStep4.CompletedRecord(None, selected).value;
            Loaded(DefaultRecord, map[OnboardingDataKey := Parsed(record)]) == Showing(DefaultRecord)
  {
    var record := OnboardingStep4.CompletedRecord(None, selected).value;
    assert record.fields.Keys == {OnboardingStep4.NewslettersField};
    assert "name" != OnboardingStep4.NewslettersField && "avatar" != OnboardingStep4.NewslettersField;
    assert "vehicle" != OnboardingStep4.NewslettersField && "memberSince" != OnboardingStep4.NewslettersField;
    assert "newsletter" != OnboardingStep4.NewslettersField;
    MergeFields(DefaultRecord, record.fields);
  }

  class MembershipPage {
    var userData: MemberRecord
    /** Rendering threw: the page is unmounted and shows nothing. */
    var crashed: bool

    constructor()
      ensures userData == DefaultRecord && !crashed
    {
      userData := DefaultRecord;
      crashed := false;
    }

    /** The mount effect reading `localStorage`, and the render that applies its update. */
    method LoadFromStorage(storage: LocalStorage)
      modifies this
      ensures match Loaded(old(userData), storage.items)
              case Showing(record) => userData == record && crashed == old(crashed)
              case Crashed => userData == old(userData) && crashed
    {
      if OnboardingDataKey !in storage.items {
        return;
      }
      match storage.items[OnboardingDataKey]
      case Blank =>
      case Unparseable =>
      case Parsed(data) =>
        var merged := Merge(userData, data);
        if merged.Some? {
          userData := merged.value;
        } else {
          crashed := true;
        }
    }
  }
}
