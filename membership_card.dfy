/**
 * The membership card: avatar or initials, join date, car, name and
 * newsletter, each with a built-in default for a missing prop.
 */
module MembershipCard {
  import opened Wrappers
  import opened JsString
  import opened ProfileTypes

  datatype CardProps = CardProps(
    name: Option<string>,
    memberSince: Option<string>,
    car: Option<string>,
    newsletter: Option<string>,
    avatar: Option<string>)

  /** The values the card shows. */
  datatype CardView = CardView(avatar: Avatar, memberSince: string, car: string, name: string, newsletter: string)

  /** `n[0]` joined with `''`: an empty segment contributes nothing. */
  function FirstOrEmpty(s: string): (r: string)
    ensures |r| <= 1 && (|s| > 0 ==> r == [s[0]])
  {
    if |s| > 0 then [s[0]] else ""
  }

  function Heads(parts: seq<string>): (r: seq<string>)
    ensures |r| == |parts|
  {
    seq(|parts|, i requires 0 <= i < |parts| => FirstOrEmpty(parts[i]))
  }

  /** `name.split(' ').map(n => n[0]).join('')`: no trimming and no upper-casing. */
  function CardInitials(name: string): string {
    Join(Heads(Split(name, ' ')), "")
  }

  /** The initials of two space-separated pieces are the initials of each, in order. */
  lemma CardInitialsAround(a: string, b: string)
    ensures CardInitials(a + " " + b) == CardInitials(a) + CardInitials(b)
  {
    SplitAround(a, ' ', b);
    assert a + " " + b == a + [' '] + b;
    HeadsJoinConcat(Split(a, ' '), Split(b, ' '));
  }

  /** The heads of two lists of words, joined, are the two joins one after the other. */
  lemma HeadsJoinConcat(pa: seq<string>, pb: seq<string>)
    ensures Join(Heads(pa + pb), "") == Join(Heads(pa), "") + Join(Heads(pb), "")
  {
    assert Heads(pa + pb) == Heads(pa) + Heads(pb);
    JoinConcat(Heads(pa), Heads(pb));
  }

  /** A single word contributes its first character; the empty name has no initials. */
  lemma CardInitialsWord(word: string)
    requires Free(word, ' ')
    ensures CardInitials(word) == FirstOrEmpty(word)
  {
    SplitOfFree(word, ' ');
  }

  /** One character per space-separated word: every word of a space-free list shows up exactly once. */
  lemma CardInitialsOfWords(first: string, last: string)
    requires |first| > 0 && |last| > 0 && Free(first, ' ') && Free(last, ' ')
    ensures CardInitials(first + " " + last) == [first[0], last[0]]
  {
    CardInitialsAround(first, last);
    CardInitialsWord(first);
    CardInitialsWord(last);
  }

  /** A doubled or leading space adds nothing to the initials. */
  lemma ExtraSpaceIgnored(name: string)
    ensures CardInitials(" " + name) == CardInitials(name)
  {
    CardInitialsAround("", name);
    CardInitialsWord("");
  }

  const DefaultName: string := "Lenin Aviles"
  const DefaultMemberSince: string := "09/27/2025"
  const DefaultCar: string := "2021 Subaru WRX"
  const DefaultNewsletter: string := "MotorTrend"

  /** The default member's placeholder reads "LA". */
  lemma DefaultInitials()
    ensures CardInitials(DefaultName) == "LA"
  {
    assert DefaultName == "Lenin" + " " + "Aviles";
    assert Free("Lenin", ' ') && Free("Aviles", ' ');
    CardInitialsOfWords("Lenin", "Aviles");
  }

  /**
   * The rendered card: a default only for a missing prop, the picture for a
   * non-empty avatar and the initials of the shown name otherwise.
   */
  function Render(props: CardProps): (v: CardView)
    ensures v.name == props.name.GetOr(DefaultName) && v.car == props.car.GetOr(DefaultCar)
    ensures v.memberSince == props.memberSince.GetOr(DefaultMemberSince)
    ensures v.newsletter == props.newsletter.GetOr(DefaultNewsletter)
    ensures v.avatar.Image? <==> props.avatar.Some? && props.avatar.value != ""
    ensures v.avatar.Image? ==> v.avatar.src == props.avatar.value
    ensures v.avatar.Placeholder? ==> v.avatar.initials == CardInitials(v.name)
  {
    var name := props.name.GetOr(DefaultName);
    CardView(
      if props.avatar.Some? && props.avatar.value != "" then Image(props.avatar.value) else Placeholder(CardInitials(name)),
      props.memberSince.GetOr(DefaultMemberSince),
      props.car.GetOr(DefaultCar),
      name,
      props.newsletter.GetOr(DefaultNewsletter))
  }
}
