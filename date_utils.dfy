/**
 * Join dates as "M/D/YYYY" text: formatting a calendar date, the current
 * date, and parsing the text back through the `Date(year, monthIndex, day)`
 * constructor, with its two-digit-year rule and its month and day overflow.
 */
module DateUtils {
  import opened Wrappers
  import opened JsString

  /** A local calendar date; `month` is the zero-based month index of `getMonth()`. */
  datatype Date = Date(year: int, month: int, day: int)

  /** The proleptic Gregorian leap-year rule. */
  predicate IsLeapYear(y: int) {
    (y % 4 == 0 && y % 100 != 0) || y % 400 == 0
  }

  function DaysInMonth(y: int, m: int): (n: nat)
    requires 0 <= m < 12
    ensures 28 <= n <= 31
  {
    if m == 1 then (if IsLeapYear(y) then 29 else 28)
    else if m == 3 || m == 5 || m == 8 || m == 10 then 30
    else 31
  }

  /** A date a `Date` object can report: a month index and a day that exists in that month. */
  predicate ValidDate(d: Date) {
    0 <= d.month < 12 && 1 <= d.day <= DaysInMonth(d.year, d.month)
  }

  /**
   * Day `d` counted from the first of month `m` of year `y`: days before the
   * first borrow from the previous months, days past the end carry into the
   * next ones.
   */
  function NormalizeDay(y: int, m: int, d: int): (r: Date)
    requires 0 <= m < 12
    ensures ValidDate(r)
    ensures 1 <= d <= DaysInMonth(y, m) ==> r == Date(y, m, d)
    decreases if d < 1 then 1 - d else 0, if d < 1 then 0 else d
  {
    if d < 1 then
      var py := if m == 0 then y - 1 else y;
      var pm := if m == 0 then 11 else m - 1;
      NormalizeDay(py, pm, d + DaysInMonth(py, pm))
    else if d > DaysInMonth(y, m) then
      var ny := if m == 11 then y + 1 else y;
      var nm := if m == 11 then 0 else m + 1;
      NormalizeDay(ny, nm, d - DaysInMonth(y, m))
    else Date(y, m, d)
  }

  /** The years 0 to 99 that the `Date` constructor reads as 1900 to 1999. */
  predicate IsTwoDigitYear(y: int) {
    0 <= y <= 99
  }

  /**
   * `new Date(year, monthIndex, day)`: a two-digit year is moved to the
   * 1900s, the month index carries into the year (floor division), and the
   * day is counted from the first of that month.
   */
  function MakeDate(year: int, monthIndex: int, day: int): (r: Date)
    ensures ValidDate(r)
  {
    var y := if IsTwoDigitYear(year) then 1900 + year else year;
    NormalizeDay(y + monthIndex / 12, monthIndex % 12, day)
  }

  /** The constructor gives back any date it could report, outside the two-digit years. */
  lemma MakeDateOfValid(d: Date)
    requires ValidDate(d) && !IsTwoDigitYear(d.year)
    ensures MakeDate(d.year, d.month, d.day) == d
  {
  }

  /** Three numbers written as "a/b/c", as the template literal does; splitting on '/' gives them back. */
  function JoinFields(a: int, b: int, c: int): (s: string)
    ensures Split(s, '/') == [IntToString(a), IntToString(b), IntToString(c)]
  {
    IntToStringFree(a, '/');
    IntToStringFree(b, '/');
    IntToStringFree(c, '/');
    SplitThree(IntToString(a), IntToString(b), IntToString(c));
    IntToString(a) + "/" + IntToString(b) + "/" + IntToString(c)
  }

  /** Three pieces without '/' joined by '/' split back into themselves. */
  lemma SplitThree(x: string, y: string, z: string)
    requires Free(x, '/') && Free(y, '/') && Free(z, '/')
    ensures Split(x + "/" + y + "/" + z, '/') == [x, y, z]
  {
    assert x + "/" + y + "/" + z == x + ['/'] + (y + ['/'] + z);
    SplitAround(x, '/', y + ['/'] + z);
    SplitAround(y, '/', z);
    SplitOfFree(x, '/');
    SplitOfFree(y, '/');
    SplitOfFree(z, '/');
  }

  /** `formatJoinDate`: `${month + 1}/${day}/${year}`, no zero padding. */
  function FormatJoinDate(d: Date): (s: string)
    ensures Split(s, '/') == [IntToString(d.month + 1), IntToString(d.day), IntToString(d.year)]
  {
    JoinFields(d.month + 1, d.day, d.year)
  }

  /** `getCurrentJoinDate`: today's date, which the clock supplies, formatted. */
  function CurrentJoinDate(today: Date): (s: string)
    requires ValidDate(today)
    ensures |s| >= 5
    ensures !IsTwoDigitYear(today.year) ==> ParseJoinDate(s) == Some(today)
    ensures IsTwoDigitYear(today.year) && ValidDate(Date(1900 + today.year, today.month, today.day))
            ==> ParseJoinDate(s) == Some(Date(1900 + today.year, today.month, today.day))
  {
    var s := FormatJoinDate(today);
    if !IsTwoDigitYear(today.year) then
      ParseFormatted(today);
      s
    else if ValidDate(Date(1900 + today.year, today.month, today.day)) then
      ParseTwoDigitYear(today);
      s
    else s
  }

  /**
   * `parseJoinDate`: the text split on `/` and each piece read with
   * `Number`; fewer than three pieces or a piece that is not a number gives
   * `null` (`None`), pieces past the third are ignored.
   */
  function ParseJoinDate(s: string): (r: Option<Date>)
    ensures r.Some? ==> ValidDate(r.value)
    ensures |Split(s, '/')| < 3 ==> r == None
  {
    ParseParts(Split(s, '/'))
  }

  /** The pieces of the text: month, day and year are the first three. */
  function ParseParts(parts: seq<string>): (r: Option<Date>)
    ensures r.Some? ==> ValidDate(r.value)
    ensures |parts| < 3 ==> r == None
  {
    if |parts| < 3 then None else ReadFields(Number(parts[0]), Number(parts[1]), Number(parts[2]))
  }

  /** Month, day and year as read by `Number`; any of them not a number gives `null`. */
  function ReadFields(month: Option<int>, day: Option<int>, year: Option<int>): (r: Option<Date>)
    ensures r.Some? ==> ValidDate(r.value)
    ensures r.Some? <==> month.Some? && day.Some? && year.Some?
    ensures r.Some? ==> r.value == MakeDate(year.value, month.value - 1, day.value)
  {
    if month.None? || day.None? || year.None? then None
    else Some(MakeDate(year.value, month.value - 1, day.value))
  }

  /** Text whose pieces are three rendered integers parses as the constructor's reading of them. */
  lemma ParseOfRendered(s: string, month: int, day: int, year: int)
    requires Split(s, '/') == [IntToString(month), IntToString(day), IntToString(year)]
    ensures ParseJoinDate(s) == Some(MakeDate(year, month - 1, day))
  {
    var parts := Split(s, '/');
    assert ParseJoinDate(s) == ReadFields(Number(parts[0]), Number(parts[1]), Number(parts[2]));
    NumberOfIntToString(month);
    NumberOfIntToString(day);
    NumberOfIntToString(year);
  }

  /** "M/D/Y" with integer fields parses as the constructor's reading of `(Y, M - 1, D)`. */
  lemma ParseFields(month: int, day: int, year: int)
    ensures ParseJoinDate(JoinFields(month, day, year)) == Some(MakeDate(year, month - 1, day))
  {
    ParseOfRendered(JoinFields(month, day, year), month, day, year);
  }

  /** A formatted date parses as what the constructor makes of its own fields. */
  lemma ParseFormattedFields(d: Date)
    ensures ParseJoinDate(FormatJoinDate(d)) == Some(MakeDate(d.year, d.month, d.day))
  {
    var m := d.month + 1;
    ParseFields(m, d.day, d.year);
    assert m - 1 == d.month;
  }

  /** Parsing a formatted join date gives the same date back when the year has more than two digits. */
  lemma ParseFormatted(d: Date)
    requires ValidDate(d) && !IsTwoDigitYear(d.year)
    ensures ParseJoinDate(FormatJoinDate(d)) == Some(d)
  {
    ParseFormattedFields(d);
    MakeDateOfValid(d);
  }

  /** The constructor moves a two-digit year into the 1900s. */
  lemma MakeDateOfTwoDigitYear(d: Date)
    requires ValidDate(d) && IsTwoDigitYear(d.year)
    requires ValidDate(Date(1900 + d.year, d.month, d.day))
    ensures MakeDate(d.year, d.month, d.day) == Date(1900 + d.year, d.month, d.day)
  {
    assert d.month / 12 == 0 && d.month % 12 == d.month;
  }

  /** A formatted date in the years 0 to 99 parses back into the 1900s. */
  lemma ParseTwoDigitYear(d: Date)
    requires ValidDate(d) && IsTwoDigitYear(d.year)
    requires ValidDate(Date(1900 + d.year, d.month, d.day))
    ensures ParseJoinDate(FormatJoinDate(d)) == Some(Date(1900 + d.year, d.month, d.day))
  {
    ParseFormattedFields(d);
    MakeDateOfTwoDigitYear(d);
  }

  /** Only the first three pieces are read. */
  lemma ParsePartsExtra(parts: seq<string>, extra: seq<string>)
    requires |parts| >= 3
    ensures ParseParts(parts + extra) == ParseParts(parts)
  {
    var q := parts + extra;
    assert q[0] == parts[0] && q[1] == parts[1] && q[2] == parts[2];
  }

  /** Pieces after the year do not matter. */
  lemma ExtraPiecesIgnored(s: string, rest: string)
    requires |Split(s, '/')| == 3
    ensures ParseJoinDate(s + "/" + rest) == ParseJoinDate(s)
  {
    assert s + "/" + rest == s + ['/'] + rest;
    SplitAround(s, '/', rest);
    ParsePartsExtra(Split(s, '/'), Split(rest, '/'));
  }

  /** A month index past December carries into the next year. */
  lemma MonthIndexCarries(year: int, monthIndex: int, day: int)
    requires !IsTwoDigitYear(year) && !IsTwoDigitYear(year + 1)
    ensures MakeDate(year, monthIndex + 12, day) == MakeDate(year + 1, monthIndex, day)
  {
    assert (monthIndex + 12) / 12 == monthIndex / 12 + 1;
    assert (monthIndex + 12) % 12 == monthIndex % 12;
  }

  /** Month 13 is not rejected: it reads as January of the following year. */
  lemma ParseMonthThirteen(day: int, year: int)
    requires !IsTwoDigitYear(year) && !IsTwoDigitYear(year + 1)
    ensures ParseJoinDate(JoinFields(13, day, year)) == ParseJoinDate(JoinFields(1, day, year + 1))
  {
    ParseFields(13, day, year);
    ParseFields(1, day, year + 1);
    MonthIndexCarries(year, 0, day);
  }

  /** A day past the end of the month is not rejected: February 30 is March 1 or 2. */
  lemma DayOverflow()
    ensures MakeDate(2024, 1, 30) == Date(2024, 2, 1)
    ensures MakeDate(2023, 1, 30) == Date(2023, 2, 2)
    ensures MakeDate(2024, 0, 0) == Date(2023, 11, 31)
  {
    assert DaysInMonth(2024, 1) == 29 && DaysInMonth(2023, 1) == 28;
  }
}
