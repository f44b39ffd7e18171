/**
 * The multi-select toggle used by the interest tiles, the newsletter cards and
 * the profile completion card:
 * `prev.includes(x) ? prev.filter(i => i !== x) : [...prev, x]`.
 */
module Selection {

  /** `s.filter(i => i !== x)`. */
  function Without(s: seq<string>, x: string): (r: seq<string>)
    ensures x !in r
    ensures forall y :: y != x ==> multiset(r)[y] == multiset(s)[y]
    ensures |r| <= |s|
  {
    if |s| == 0 then []
    else
      assert s == s[..|s| - 1] + [s[|s| - 1]];
      if s[|s| - 1] == x then Without(s[..|s| - 1], x)
      else Without(s[..|s| - 1], x) + [s[|s| - 1]]
  }

  /** Toggles the membership of `x`: appends it when absent, drops every copy when present. */
  function Toggle(s: seq<string>, x: string): (r: seq<string>)
    ensures x in r <==> x !in s
    ensures forall y :: y != x ==> (y in r <==> y in s)
  {
    if x in s then
      var r := Without(s, x);
      assert forall y :: y != x ==> (y in r <==> multiset(r)[y] > 0) && (y in s <==> multiset(s)[y] > 0);
      r
    else s + [x]
  }

  /** Filtering distributes over concatenation, so the kept items keep their relative order. */
  lemma {:induction false} WithoutConcat(a: seq<string>, b: seq<string>, x: string)
    ensures Without(a + b, x) == Without(a, x) + Without(b, x)
    decreases |b|
  {
    if |b| == 0 {
      assert a + b == a;
    } else {
      var b' := b[..|b| - 1];
      assert (a + b)[..|a + b| - 1] == a + b';
      assert (a + b)[|a + b| - 1] == b[|b| - 1];
      WithoutConcat(a, b', x);
    }
  }

  /** Removing an absent item changes nothing. */
  lemma {:induction false} WithoutAbsent(s: seq<string>, x: string)
    requires x !in s
    ensures Without(s, x) == s
  {
    if |s| > 0 {
      assert x !in s[..|s| - 1];
      WithoutAbsent(s[..|s| - 1], x);
      assert s == s[..|s| - 1] + [s[|s| - 1]];
    }
  }

  /**
   * Toggling an absent item appends it at the end, and toggling it again
   * restores the original list exactly.
   */
  lemma ToggleAbsentTwice(s: seq<string>, x: string)
    requires x !in s
    ensures Toggle(s, x) == s + [x]
    ensures Toggle(Toggle(s, x), x) == s
  {
    WithoutConcat(s, [x], x);
    WithoutAbsent(s, x);
    assert Without([x], x) == Without([], x);
  }

  /**
   * Toggling a present item twice keeps the membership of every item; `x`
   * itself moves to the end.
   */
  lemma TogglePresentTwice(s: seq<string>, x: string)
    requires x in s
    ensures forall y :: y in Toggle(Toggle(s, x), x) <==> y in s
    ensures Toggle(Toggle(s, x), x) == Without(s, x) + [x]
  {
  }

  /** No item occurs twice. */
  predicate Distinct(s: seq<string>) {
    forall i, j :: 0 <= i < j < |s| ==> s[i] != s[j]
  }

  lemma {:induction false} WithoutDistinct(s: seq<string>, x: string)
    requires Distinct(s)
    ensures Distinct(Without(s, x))
  {
    if |s| > 0 {
      var init := s[..|s| - 1];
      assert Distinct(init);
      WithoutDistinct(init, x);
      if s[|s| - 1] != x {
        var last := s[|s| - 1];
        assert last !in init;
        assert multiset(Without(init, x))[last] == multiset(init)[last] == 0;
        assert last !in Without(init, x);
      }
    }
  }

  /**
   * A duplicate-free selection drawn from `options` stays duplicate-free and
   * drawn from `options` when an option is toggled.
   */
  lemma ToggleKeepsDistinctSubset(s: seq<string>, x: string, options: seq<string>)
    requires Distinct(s) && (forall y :: y in s ==> y in options)
    requires x in options
    ensures Distinct(Toggle(s, x))
    ensures forall y :: y in Toggle(s, x) ==> y in options
  {
    if x in s {
      WithoutDistinct(s, x);
    }
  }
}
