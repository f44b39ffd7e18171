/**
 * Models of the JavaScript string built-ins the app relies on: `toLowerCase`,
 * `toUpperCase`, `includes`, `trim`, `split` on a one-character separator,
 * `join`, the decimal rendering of integers in template strings, and the
 * `Number(...)` conversion of integer literals. Case mapping covers ASCII only.
 */
module JsString {
  import opened Wrappers

  // ---------------------------------------------------------------------------
  // Case mapping (ASCII)

  function LowerChar(c: char): char {
    if 'A' <= c <= 'Z' then (c as int + 32) as char else c
  }

  function UpperChar(c: char): char {
    if 'a' <= c <= 'z' then (c as int - 32) as char else c
  }

  /** `s.toLowerCase()`: every letter mapped to lower case, length kept. */
  function Lower(s: string): (r: string)
    ensures |r| == |s|
    ensures forall i :: 0 <= i < |s| ==> r[i] == LowerChar(s[i])
  {
    seq(|s|, i requires 0 <= i < |s| => LowerChar(s[i]))
  }

  /** `s.toUpperCase()`. */
  function Upper(s: string): (r: string)
    ensures |r| == |s|
    ensures forall i :: 0 <= i < |s| ==> r[i] == UpperChar(s[i])
  {
    seq(|s|, i requires 0 <= i < |s| => UpperChar(s[i]))
  }

  predicate IsLowerCase(s: string) {
    forall i :: 0 <= i < |s| ==> !('A' <= s[i] <= 'Z')
  }

  /** Lower-casing is idempotent and yields a lower-case string. */
  lemma LowerIsLowerCase(s: string)
    ensures IsLowerCase(Lower(s))
    ensures Lower(Lower(s)) == Lower(s)
  {
  }

  /** A string with no upper-case letter is its own lower-case form. */
  lemma LowerOfLowerCase(s: string)
    requires IsLowerCase(s)
    ensures Lower(s) == s
  {
  }

  // ---------------------------------------------------------------------------
  // Substring search

  predicate StartsWith(s: string, prefix: string) {
    |prefix| <= |s| && s[..|prefix|] == prefix
  }

  /** Each of three concatenated pieces is found back at its offset. */
  lemma ThreePieces(a: string, b: string, c: string)
    ensures var t := a + b + c;
            && |t| == |a| + |b| + |c|
            && t[..|a|] == a && t[|a|..|a| + |b|] == b && t[|a| + |b|..] == c
  {
  }

  /** `s.includes(sub)`; the empty string is contained in every string. */
  predicate Contains(s: string, sub: string)
    decreases |s|
  {
    StartsWith(s, sub) || (|s| > 0 && Contains(s[1..], sub))
  }

  /** `sub` occurs in `s` starting at offset `i`. */
  predicate OccursAt(s: string, sub: string, i: int) {
    0 <= i <= |s| - |sub| && s[i..i + |sub|] == sub
  }

  /** Contains agrees with "occurs at some offset". */
  lemma {:induction false} ContainsIff(s: string, sub: string)
    ensures Contains(s, sub) <==> exists i :: OccursAt(s, sub, i)
    decreases |s|
  {
    if StartsWith(s, sub) {
      assert OccursAt(s, sub, 0);
    } else if |s| > 0 {
      ContainsIff(s[1..], sub);
      if Contains(s[1..], sub) {
        var i :| OccursAt(s[1..], sub, i);
        SliceOfTail(s, i, |sub|);
        assert OccursAt(s, sub, i + 1);
      } else {
        forall i | OccursAt(s, sub, i)
          ensures false
        {
          if i != 0 {
            SliceOfTail(s, i - 1, |sub|);
            assert OccursAt(s[1..], sub, i - 1);
          }
        }
      }
    }
  }

  /** A slice of `s[1..]` is the slice of `s` one position later. */
  lemma SliceOfTail(s: string, j: nat, n: nat)
    requires j + n <= |s| - 1
    ensures s[1..][j..j + n] == s[j + 1..j + 1 + n]
  {
  }

  // ---------------------------------------------------------------------------
  // Trimming

  /**
   * The characters `String.prototype.trim` removes: the ECMAScript
   * WhiteSpace and LineTerminator code points.
   */
  predicate IsWhitespace(c: char) {
    c == ' ' || c == '\t' || c == '\n' || c == '\r' || c == '\U{000B}' || c == '\U{000C}'
    || c == '\U{00A0}' || c == '\U{1680}' || ('\U{2000}' <= c <= '\U{200A}')
    || c == '\U{2028}' || c == '\U{2029}' || c == '\U{202F}' || c == '\U{205F}'
    || c == '\U{3000}' || c == '\U{FEFF}'
  }

  predicate AllWhitespace(s: string) {
    forall i :: 0 <= i < |s| ==> IsWhitespace(s[i])
  }

  function TrimStart(s: string): (r: string)
    ensures |r| <= |s| && r == s[|s| - |r|..]
    ensures r == [] || !IsWhitespace(r[0])
  {
    if |s| > 0 && IsWhitespace(s[0]) then TrimStart(s[1..]) else s
  }

  function TrimEnd(s: string): (r: string)
    ensures |r| <= |s| && r == s[..|r|]
    ensures r == [] || !IsWhitespace(r[|r| - 1])
  {
    if |s| > 0 && IsWhitespace(s[|s| - 1]) then TrimEnd(s[..|s| - 1]) else s
  }

  /** `s.trim()`. */
  function Trim(s: string): string {
    TrimEnd(TrimStart(s))
  }

  lemma {:induction false} TrimStartEmptyIff(s: string)
    ensures TrimStart(s) == [] <==> AllWhitespace(s)
  {
    if |s| > 0 && IsWhitespace(s[0]) {
      TrimStartEmptyIff(s[1..]);
      assert AllWhitespace(s[1..]) ==> AllWhitespace(s) by {
        if AllWhitespace(s[1..]) {
          forall i | 0 <= i < |s| ensures IsWhitespace(s[i]) {
            if i > 0 { assert s[i] == s[1..][i - 1]; }
          }
        }
      }
    }
  }

  lemma {:induction false} TrimEndEmptyIff(s: string)
    ensures TrimEnd(s) == [] <==> AllWhitespace(s)
  {
    if |s| > 0 && IsWhitespace(s[|s| - 1]) {
      TrimEndEmptyIff(s[..|s| - 1]);
      assert AllWhitespace(s[..|s| - 1]) ==> AllWhitespace(s) by {
        if AllWhitespace(s[..|s| - 1]) {
          forall i | 0 <= i < |s| ensures IsWhitespace(s[i]) {
            if i < |s| - 1 { assert s[i] == s[..|s| - 1][i]; }
          }
        }
      }
    }
  }

  /** A string trims to the empty string exactly when it is all whitespace. */
  lemma TrimEmptyIff(s: string)
    ensures Trim(s) == [] <==> AllWhitespace(s)
  {
    TrimStartEmptyIff(s);
    TrimEndEmptyIff(TrimStart(s));
    var t := TrimStart(s);
    if t != [] {
      assert !IsWhitespace(t[0]);
    }
  }

  /** A trimmed non-empty string neither starts nor ends with whitespace. */
  lemma TrimEnds(s: string)
    requires Trim(s) != []
    ensures !IsWhitespace(Trim(s)[0]) && !IsWhitespace(Trim(s)[|Trim(s)| - 1])
  {
    var t := TrimStart(s);
    assert Trim(s) == t[..|Trim(s)|];
  }

  /** A string without whitespace at either end is unchanged by trimming. */
  lemma TrimOfTrimmed(s: string)
    requires s == [] || (!IsWhitespace(s[0]) && !IsWhitespace(s[|s| - 1]))
    ensures Trim(s) == s
  {
  }

  // ---------------------------------------------------------------------------
  // split / join on a one-character separator

  /**
   * `s.split(sep)` for a one-character separator: the maximal separator-free
   * segments of `s`, in order, including empty ones; never an empty list.
   */
  function Split(s: string, sep: char): (parts: seq<string>)
    ensures |parts| >= 1
  {
    if |s| == 0 then [""]
    else
      var rest := Split(s[1..], sep);
      if s[0] == sep then [""] + rest
      else [[s[0]] + rest[0]] + rest[1..]
  }

  /** `parts.join(sep)`. */
  function Join(parts: seq<string>, sep: string): string {
    if |parts| == 0 then ""
    else if |parts| == 1 then parts[0]
    else parts[0] + sep + Join(parts[1..], sep)
  }

  predicate Free(s: string, c: char) {
    forall i :: 0 <= i < |s| ==> s[i] != c
  }

  /** No segment produced by `split` contains the separator. */
  lemma {:induction false} SplitPartsFree(s: string, sep: char)
    ensures forall k :: 0 <= k < |Split(s, sep)| ==> Free(Split(s, sep)[k], sep)
  {
    if |s| > 0 {
      SplitPartsFree(s[1..], sep);
    }
  }

  /** Joining the segments back with the separator gives the original string. */
  lemma {:induction false} JoinSplit(s: string, sep: char)
    ensures Join(Split(s, sep), [sep]) == s
  {
    if |s| > 0 {
      var rest := Split(s[1..], sep);
      JoinSplit(s[1..], sep);
      if s[0] == sep {
        assert Split(s, sep) == [""] + rest;
        assert ([""] + rest)[1..] == rest;
      } else {
        if |rest| == 1 {
        } else {
          assert ([[s[0]] + rest[0]] + rest[1..])[1..] == rest[1..];
          assert Join(rest, [sep]) == rest[0] + [sep] + Join(rest[1..], [sep]);
        }
      }
    }
  }

  /** A separator-free string splits into itself alone. */
  lemma {:induction false} SplitOfFree(s: string, sep: char)
    requires Free(s, sep)
    ensures Split(s, sep) == [s]
  {
    if |s| > 0 {
      SplitOfFree(s[1..], sep);
      assert [s[0]] + s[1..] == s;
    }
  }

  /** Puts character `c` in front of the segments `rest`: a separator opens a new empty segment. */
  function Prepend(c: char, rest: seq<string>, sep: char): (parts: seq<string>)
    requires |rest| >= 1
    ensures |parts| >= 1
  {
    if c == sep then [""] + rest else [[c] + rest[0]] + rest[1..]
  }

  /** One step of `split`. */
  lemma SplitCons(c: char, t: string, sep: char)
    ensures Split([c] + t, sep) == Prepend(c, Split(t, sep), sep)
  {
    assert ([c] + t)[0] == c && ([c] + t)[1..] == t;
  }

  /** Prepending only touches the first segment. */
  lemma PrependConcat(c: char, first: seq<string>, more: seq<string>, sep: char)
    requires |first| >= 1
    ensures Prepend(c, first + more, sep) == Prepend(c, first, sep) + more
  {
    if c != sep {
      assert (first + more)[1..] == first[1..] + more;
    }
  }

  /** Splitting distributes over a separator: `split(a + sep + b) == split(a) ++ split(b)`. */
  lemma {:induction false} SplitAround(a: string, sep: char, b: string)
    ensures Split(a + [sep] + b, sep) == Split(a, sep) + Split(b, sep)
  {
    if |a| == 0 {
      assert a + [sep] + b == [sep] + b;
      SplitCons(sep, b, sep);
    } else {
      var c, tail := a[0], a[1..];
      assert a == [c] + tail;
      assert a + [sep] + b == [c] + (tail + [sep] + b);
      SplitAround(tail, sep, b);
      SplitCons(c, tail, sep);
      SplitCons(c, tail + [sep] + b, sep);
      PrependConcat(c, Split(tail, sep), Split(b, sep), sep);
    }
  }

  /** A string that does not start with the separator has a non-empty first segment. */
  lemma SplitFirstNonEmpty(s: string, sep: char)
    requires |s| > 0 && s[0] != sep
    ensures |Split(s, sep)[0]| > 0
  {
  }

  /** A string that does not end with the separator has a non-empty last segment. */
  lemma {:induction false} SplitLastNonEmpty(s: string, sep: char)
    requires |s| > 0 && s[|s| - 1] != sep
    ensures var parts := Split(s, sep); |parts[|parts| - 1]| > 0
  {
    if |s| > 1 {
      assert s[1..][|s[1..]| - 1] == s[|s| - 1];
      SplitLastNonEmpty(s[1..], sep);
    }
  }

  /** With an empty separator, joining distributes over concatenation of the parts. */
  lemma {:induction false} JoinConcat(a: seq<string>, b: seq<string>)
    ensures Join(a + b, "") == Join(a, "") + Join(b, "")
  {
    if |a| == 0 {
      assert a + b == b;
    } else if |a| == 1 {
      if |b| > 0 {
        assert (a + b)[1..] == b;
      }
    } else {
      assert (a + b)[1..] == a[1..] + b;
      JoinConcat(a[1..], b);
    }
  }

  // ---------------------------------------------------------------------------
  // Integers as decimal text

  predicate IsDigit(c: char) {
    '0' <= c <= '9'
  }

  predicate AllDigits(s: string) {
    forall i :: 0 <= i < |s| ==> IsDigit(s[i])
  }

  function DigitChar(d: nat): char
    requires d < 10
  {
    ('0' as int + d) as char
  }

  /** The decimal digits of `n`, without leading zeros (`"0"` for zero). */
  function Decimal(n: nat): (r: string)
    ensures |r| >= 1 && AllDigits(r)
  {
    if n < 10 then [DigitChar(n)] else Decimal(n / 10) + [DigitChar(n % 10)]
  }

  /** `String(n)` / `${n}` for an integer. */
  function IntToString(n: int): (r: string)
    ensures |r| >= 1
  {
    if n < 0 then "-" + Decimal(-n) else Decimal(n)
  }

  /** The value of a string of decimal digits, read most significant first. */
  function DigitsValue(s: string): nat
    requires AllDigits(s)
  {
    if |s| == 0 then 0
    else DigitsValue(s[..|s| - 1]) * 10 + (s[|s| - 1] as int - '0' as int)
  }

  function SignedValue(t: string): Option<int> {
    if |t| > 0 && (t[0] == '-' || t[0] == '+') then
      var digits := t[1..];
      if |digits| > 0 && AllDigits(digits) then
        Some(if t[0] == '-' then -(DigitsValue(digits) as int) else DigitsValue(digits))
      else None
    else if AllDigits(t) then Some(DigitsValue(t))
    else None
  }

  /**
   * `Number(s)` restricted to integer literals: surrounding whitespace is
   * ignored, the empty (or all-whitespace) string is 0, an optional sign is
   * followed by decimal digits; `None` stands for NaN.
   */
  function Number(s: string): (r: Option<int>)
    ensures AllWhitespace(s) ==> r == Some(0)
  {
    TrimEmptyIff(s);
    SignedValue(Trim(s))
  }

  lemma {:induction false} DigitsValueOfDecimal(n: nat)
    ensures DigitsValue(Decimal(n)) == n
  {
    if n >= 10 {
      DigitsValueOfDecimal(n / 10);
      var d := Decimal(n / 10) + [DigitChar(n % 10)];
      assert d[..|d| - 1] == Decimal(n / 10);
    }
  }

  lemma DecimalValue(n: nat)
    ensures SignedValue(Decimal(n)) == Some(n)
  {
    DigitsValueOfDecimal(n);
    var d := Decimal(n);
    assert d[0] != '-' && d[0] != '+';
  }

  lemma NegativeValue(n: nat)
    requires n > 0
    ensures SignedValue("-" + Decimal(n)) == Some(-(n as int))
  {
    DigitsValueOfDecimal(n);
    var t := "-" + Decimal(n);
    assert t[1..] == Decimal(n);
  }

  /** The rendering of an integer has no surrounding whitespace. */
  lemma IntToStringTrimmed(n: int)
    ensures Trim(IntToString(n)) == IntToString(n)
  {
    var s := IntToString(n);
    assert s[0] == '-' || IsDigit(s[0]);
    assert IsDigit(s[|s| - 1]);
    TrimOfTrimmed(s);
  }

  lemma IntToStringValue(n: int)
    ensures SignedValue(IntToString(n)) == Some(n)
  {
    if n < 0 {
      NegativeValue(-n);
    } else {
      DecimalValue(n);
    }
  }

  /** Reading back the decimal rendering of an integer gives the integer. */
  lemma NumberOfIntToString(n: int)
    ensures Number(IntToString(n)) == Some(n)
  {
    IntToStringTrimmed(n);
    IntToStringValue(n);
  }

  lemma IntToStringFree(n: int, c: char)
    requires c != '-' && !IsDigit(c)
    ensures Free(IntToString(n), c)
  {
  }
}
