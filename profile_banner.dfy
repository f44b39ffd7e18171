/**
 * The profile page banner: the avatar (picture or initials), the user's name,
 * the join date and the optional location.
 */
module ProfileBanner {
  import opened Wrappers
  import opened JsString
  import opened ProfileTypes

  /** `s[0]` inside a template literal: the first character, or the text "undefined" for an empty string. */
  function FirstOrUndefined(s: string): string {
    if |s| > 0 then [s[0]] else "undefined"
  }

  /**
   * `getInitials`: the trimmed name split on single spaces; with two or more
   * segments the first characters of the first and last segment, upper-cased;
   * otherwise the upper-cased first character, or "U" for a blank name.
   */
  function GetInitials(name: string): (r: string)
    ensures 1 <= |r|
  {
    InitialsOf(Split(Trim(name), ' '))
  }

  /** The initials taken from the segments of the trimmed name. */
  function InitialsOf(parts: seq<string>): (r: string)
    requires |parts| >= 1
    ensures 1 <= |r|
  {
    if |parts| >= 2 then
      Upper(FirstOrUndefined(parts[0]) + FirstOrUndefined(parts[|parts| - 1]))
    else if |parts[0]| > 0 then Upper([parts[0][0]])
    else "U"
  }

  /**
   * The "undefined" branch is dead: after trimming, a name with two or more
   * segments neither starts nor ends with a space, so the first and last
   * segments are non-empty and the initials are exactly two letters.
   */
  lemma InitialsAreLetters(name: string)
    ensures var parts := Split(Trim(name), ' ');
            |parts| >= 2 ==>
              |parts[0]| > 0 && |parts[|parts| - 1]| > 0
              && GetInitials(name) == [UpperChar(parts[0][0]), UpperChar(parts[|parts| - 1][0])]
    ensures |GetInitials(name)| <= 2
  {
    var t := Trim(name);
    var parts := Split(t, ' ');
    if |parts| >= 2 {
      TrimEnds(name);
      SplitFirstNonEmpty(t, ' ');
      SplitLastNonEmpty(t, ' ');
      InitialsOfParts(parts);
    }
  }

  /** A blank name shows "U". */
  lemma BlankNameInitial(name: string)
    requires AllWhitespace(name)
    ensures GetInitials(name) == "U"
  {
    TrimEmptyIff(name);
  }

  /** A single word shows its own upper-cased first letter. */
  lemma SingleWordInitial(word: string)
    requires |word| > 0 && Free(word, ' ')
    requires !IsWhitespace(word[0]) && !IsWhitespace(word[|word| - 1])
    ensures GetInitials(word) == [UpperChar(word[0])]
  {
    TrimOfTrimmed(word);
    SplitOfFree(word, ' ');
  }

  /** Two or more segments with a non-empty first and last segment give their upper-cased first letters. */
  lemma InitialsOfParts(parts: seq<string>)
    requires |parts| >= 2 && |parts[0]| > 0 && |parts[|parts| - 1]| > 0
    ensures InitialsOf(parts) == [UpperChar(parts[0][0]), UpperChar(parts[|parts| - 1][0])]
  {
    var pair := FirstOrUndefined(parts[0]) + FirstOrUndefined(parts[|parts| - 1]);
    assert pair == [parts[0][0], parts[|parts| - 1][0]];
  }

  /** A name with no surrounding whitespace is split as it stands. */
  lemma SplitOfTrimmed(s: string, first: string, last: string)
    requires s == first + " " + last && |first| > 0 && |last| > 0
    requires !IsWhitespace(first[0]) && !IsWhitespace(last[|last| - 1])
    ensures Split(Trim(s), ' ') == Split(s, ' ')
  {
    assert s[0] == first[0] && s[|s| - 1] == last[|last| - 1];
    TrimOfTrimmed(s);
  }

  /**
   * Only the first and last words count: whatever stands between them (extra
   * words, doubled spaces) does not change the initials.
   */
  lemma MiddleIgnored(first: string, middle: string, last: string)
    requires |first| > 0 && Free(first, ' ') && !IsWhitespace(first[0])
    requires |last| > 0 && Free(last, ' ') && !IsWhitespace(last[|last| - 1])
    ensures GetInitials(first + " " + middle + " " + last) == [UpperChar(first[0]), UpperChar(last[0])]
  {
    var s := first + " " + middle + " " + last;
    SplitOfTrimmed(s, first, middle + " " + last);
    assert s == first + [' '] + (middle + [' '] + last);
    SplitAround(first, ' ', middle + [' '] + last);
    SplitAround(middle, ' ', last);
    SplitOfFree(first, ' ');
    SplitOfFree(last, ' ');
    var parts := [first] + Split(middle, ' ') + [last];
    assert Split(Trim(s), ' ') == parts;
    InitialsOfParts(parts);
  }

  /** A first and last name with one space between them. */
  lemma TwoWordInitials(first: string, last: string)
    requires |first| > 0 && Free(first, ' ') && !IsWhitespace(first[0])
    requires |last| > 0 && Free(last, ' ') && !IsWhitespace(last[|last| - 1])
    ensures GetInitials(first + " " + last) == [UpperChar(first[0]), UpperChar(last[0])]
  {
    var s := first + " " + last;
    SplitOfTrimmed(s, first, last);
    SplitAround(first, ' ', last);
    SplitOfFree(first, ' ');
    SplitOfFree(last, ' ');
    assert Split(Trim(s), ' ') == [first, last];
    InitialsOfParts([first, last]);
  }

  /** `userAvatar ? <img> : initials`: a missing or empty avatar shows the initials. */
  function BannerAvatar(userName: string, userAvatar: Option<string>): (a: Avatar)
    ensures a.Image? <==> userAvatar.Some? && userAvatar.value != ""
    ensures a.Image? ==> a.src == userAvatar.value
    ensures a.Placeholder? ==> a.initials == GetInitials(userName)
  {
    if userAvatar.Some? && userAvatar.value != "" then Image(userAvatar.value)
    else Placeholder(GetInitials(userName))
  }

  /** `location && …`: the location line shows only a non-empty location. */
  function LocationLine(location: Option<string>): (line: Option<string>)
    ensures line.Some? <==> location.Some? && location.value != ""
    ensures line.Some? ==> line == location
  {
    if location.Some? && location.value != "" then location else None
  }
}
