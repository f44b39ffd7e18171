/**
 * Onboarding step 4, "Let's Keep In Touch": two newsletter checkboxes. The
 * step ignores its props: the selection starts empty, Complete merges it into
 * the stored onboarding record and goes to the welcome page, Previous and
 * Skip navigate directly.
 */
module OnboardingStep4 {
  import opened Wrappers
  import opened Selection
  import opened ProfileTypes
  import opened Json

  /** The newsletter ids, in display order. */
  const NewsletterIds: seq<string> := ["motortrend", "hotrod"]

  const NewslettersField: string := "newsletters"

  /** The selection as the JSON array of strings it is stored as. */
  function NewslettersJson(selected: seq<string>): (j: Json)
    ensures j.JArr? && |j.items| == |selected|
    ensures forall i :: 0 <= i < |selected| ==> j.items[i] == JStr(selected[i])
  {
    JArr(seq(|selected|, i requires 0 <= i < |selected| => JStr(selected[i])))
  }

  /** Reads a JSON array of strings back, `None` for anything else. */
  function StringsOf(j: Json): (r: Option<seq<string>>)
    ensures r.Some? ==> j.JArr? && |r.value| == |j.items|
  {
    if j.JArr? && forall i :: 0 <= i < |j.items| ==> j.items[i].JStr? then
      Some(seq(|j.items|, i requires 0 <= i < |j.items| => j.items[i].s))
    else None
  }

  /** The stored selection reads back as itself. */
  lemma NewslettersRoundTrip(selected: seq<string>)
    ensures StringsOf(NewslettersJson(selected)) == Some(selected)
  {
    var j := NewslettersJson(selected);
    assert forall i :: 0 <= i < |j.items| ==> j.items[i].JStr?;
    var back := seq(|j.items|, i requires 0 <= i < |j.items| => j.items[i].s);
    assert StringsOf(j) == Some(back);
    assert back == selected;
  }

  /**
   * The record `handleComplete` writes back: the stored value spread into a
   * new object with `newsletters` set to the selection. A missing or empty
   * item counts as `'{}'`; text `JSON.parse` rejects makes the handler throw
   * (`None`).
   */
  function CompletedRecord(existing: Option<Stored>, selected: seq<string>): (r: Option<Json>)
    ensures r.None? <==> existing == Some(Unparseable)
    ensures r.Some? ==> r.value.JObj? && NewslettersField in r.value.fields
                        && r.value.fields[NewslettersField] == NewslettersJson(selected)
  {
    match existing
    case None => Some(JObj(map[NewslettersField := NewslettersJson(selected)]))
    case Some(Blank) => Some(JObj(map[NewslettersField := NewslettersJson(selected)]))
    case Some(Unparseable) => None
    case Some(Parsed(v)) => Some(JObj(Spread(v)[NewslettersField := NewslettersJson(selected)]))
  }

  /** The written record reads back the selection under `newsletters`. */
  lemma CompletedRecordReadsBack(existing: Option<Stored>, selected: seq<string>)
    requires existing != Some(Unparseable)
    ensures var r := CompletedRecord(existing, selected).value;
            Get(r, NewslettersField).Some? && Get(r, NewslettersField).value.Some?
            && StringsOf(Get(r, NewslettersField).value.value) == Some(selected)
  {
    NewslettersRoundTrip(selected);
  }

  /**
   * Merging keeps every other field of a stored object record unchanged and
   * adds no field besides `newsletters`.
   */
  lemma CompletedRecordKeepsFields(fields: map<string, Json>, selected: seq<string>)
    ensures var r := CompletedRecord(Some(Parsed(JObj(fields))), selected).value;
            && r.fields.Keys == fields.Keys + {NewslettersField}
            && forall k :: k in fields && k != NewslettersField ==> r.fields[k] == fields[k]
  {
  }

  /** Without a usable stored record only `newsletters` is written. */
  lemma CompletedRecordFromNothing(existing: Option<Stored>, selected: seq<string>)
    requires existing == None || existing == Some(Blank) || existing == Some(Parsed(JNull))
    ensures CompletedRecord(existing, selected) == Some(JObj(map[NewslettersField := NewslettersJson(selected)]))
  {
  }

  class Step4 {
    /** `selectedNewsletters` */
    var selected: seq<string>

    /** The selection holds distinct, offered newsletter ids. */
    ghost predicate Valid()
      reads this
    {
      Distinct(selected) && forall x :: x in selected ==> x in NewsletterIds
    }

    /** `initialData` is not read: the selection always starts empty. */
    constructor()
      ensures Valid() && selected == []
    {
      selected := [];
    }

    /** A click on a newsletter card flips that newsletter. */
    method ClickNewsletter(index: nat)
      requires Valid() && index < |NewsletterIds|
      modifies this`selected
      ensures Valid()
      ensures selected == Toggle(old(selected), NewsletterIds[index])
    {
      ToggleKeepsDistinctSubset(selected, NewsletterIds[index], NewsletterIds);
      selected := Toggle(selected, NewsletterIds[index]);
    }

    /**
     * `handleComplete`: writes the merged record under `onboardingData` and
     * navigates to the welcome page; when the stored text does not parse it
     * throws before writing or navigating.
     */
    method ClickComplete(storage: LocalStorage) returns (route: Option<string>)
      modifies storage
      ensures var existing := if OnboardingDataKey in old(storage.items)
                              then Some(old(storage.items)[OnboardingDataKey]) else None;
              match CompletedRecord(existing, selected)
              case None => route == None && storage.items == old(storage.items)
              case Some(record) =>
                route == Some(WelcomeRoute)
                && storage.items == old(storage.items)[OnboardingDataKey := Parsed(record)]
    {
      var existing := if OnboardingDataKey in storage.items then Some(storage.items[OnboardingDataKey]) else None;
      var record := CompletedRecord(existing, selected);
      if record.None? {
        return None;
      }
      storage.SetItem(OnboardingDataKey, Parsed(record.value));
      route := Some(WelcomeRoute);
    }

    /** `handlePrevious`: back to step 3, nothing stored. */
    method ClickPrevious() returns (route: string)
      ensures route == Step3Route
    {
      route := Step3Route;
    }

    /** `handleSkip`: to the welcome page, nothing stored. */
    method ClickSkip() returns (route: string)
      ensures route == WelcomeRoute
    {
      route := WelcomeRoute;
    }
  }
}
