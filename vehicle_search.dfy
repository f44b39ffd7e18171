/**
 * The vehicle autocomplete widget: a query box over a fixed list of
 * "{year} {make} {model}" strings, a suggestion list of at most six entries,
 * an open/closed dropdown and a keyboard-highlighted index.
 */
module VehicleSearch {
  import opened Wrappers
  import opened JsString
  import opened ProfileTypes

  /** The cap applied by `.slice(0, 6)`. */
  const MaxSuggestions: nat := 6

  /** `car.toLowerCase().includes(query.toLowerCase())`. */
  predicate Matches(car: string, query: string) {
    Contains(Lower(car), Lower(query))
  }

  /** `database.filter(car => Matches(car, query))`, in database order. */
  function MatchingCars(database: seq<string>, query: string): (r: seq<string>)
    ensures |r| <= |database|
    ensures forall c :: c in r ==> c in database && Matches(c, query)
    ensures forall c :: c in database && Matches(c, query) ==> c in r
  {
    if |database| == 0 then []
    else
      var init := database[..|database| - 1];
      var last := database[|database| - 1];
      assert database == init + [last];
      MatchingCars(init, query) + Kept(last, query)
  }

  /** What the filter keeps of one entry. */
  function Kept(car: string, query: string): (r: seq<string>)
    ensures r == [car] || r == []
    ensures r == [car] <==> Matches(car, query)
  {
    if Matches(car, query) then [car] else []
  }

  /** One more entry at the end of the list adds what the filter keeps of it. */
  lemma MatchingCarsSnoc(init: seq<string>, last: string, query: string)
    ensures MatchingCars(init + [last], query) == MatchingCars(init, query) + Kept(last, query)
  {
    var d := init + [last];
    assert d[..|d| - 1] == init && d[|d| - 1] == last;
  }

  /**
   * The suggestion list the filter effect computes: nothing for an empty
   * query, otherwise the first six matching entries.
   */
  function Suggestions(database: seq<string>, query: string): (r: seq<string>)
    ensures |r| <= MaxSuggestions
    ensures forall c :: c in r ==> c in database && Matches(c, query)
    ensures query == "" ==> r == []
  {
    if |query| > 0 then
      var all := MatchingCars(database, query);
      if |all| <= MaxSuggestions then all else all[..MaxSuggestions]
    else []
  }

  lemma AppendAssoc(x: seq<string>, y: seq<string>, z: seq<string>)
    ensures (x + y) + z == x + (y + z)
  {
  }

  /** Filtering keeps database order: it distributes over concatenation. */
  lemma {:induction false} MatchingCarsConcat(a: seq<string>, b: seq<string>, query: string)
    ensures MatchingCars(a + b, query) == MatchingCars(a, query) + MatchingCars(b, query)
    decreases |b|
  {
    if |b| == 0 {
      assert a + b == a;
    } else {
      var b', last := b[..|b| - 1], b[|b| - 1];
      assert b == b' + [last];
      assert a + b == (a + b') + [last];
      MatchingCarsSnoc(a + b', last, query);
      MatchingCarsSnoc(b', last, query);
      MatchingCarsConcat(a, b', query);
      AppendAssoc(MatchingCars(a, query), MatchingCars(b', query), Kept(last, query));
    }
  }

  /**
   * For a non-empty query the suggestions are exactly the first
   * `min(6, #matches)` matching entries, in database order; when fewer than six
   * are shown, every matching entry is among them.
   */
  lemma SuggestionsAreFirstMatches(database: seq<string>, query: string)
    requires query != ""
    ensures var r := Suggestions(database, query);
            var all := MatchingCars(database, query);
            |r| == (if |all| < MaxSuggestions then |all| else MaxSuggestions) && r == all[..|r|]
    ensures |Suggestions(database, query)| < MaxSuggestions ==>
              forall c :: c in database && Matches(c, query) ==> c in Suggestions(database, query)
  {
  }

  /** A database entry that matches on its own is suggested when it is the only candidate. */
  lemma SingleMatch(car: string, query: string)
    requires query != "" && Matches(car, query)
    ensures Suggestions([car], query) == [car]
  {
    assert [car][..0] == [];
  }

  // ---------------------------------------------------------------------------
  // Keyboard navigation of the highlighted index

  datatype Key = ArrowDown | ArrowUp | Enter | Escape | OtherKey

  /** The highlighted index points at a suggestion, or is -1 for "none". */
  predicate InRange(index: int, count: nat) {
    index == -1 || 0 <= index < count
  }

  /** `prev < filteredCars.length - 1 ? prev + 1 : prev`. */
  function ArrowDownIndex(prev: int, count: nat): (r: int)
    ensures InRange(prev, count) ==> InRange(r, count)
    ensures r == prev || r == prev + 1
  {
    if prev < count - 1 then prev + 1 else prev
  }

  /** `prev > 0 ? prev - 1 : -1`. */
  function ArrowUpIndex(prev: int): (r: int)
    ensures prev >= 0 ==> r == prev - 1
    ensures prev <= 0 ==> r == -1
    ensures r >= -1
  {
    if prev > 0 then prev - 1 else -1
  }

  /** The index after a run of arrow presses (other keys leave it alone). */
  function AfterArrows(start: int, count: nat, keys: seq<Key>): int
    decreases |keys|
  {
    if |keys| == 0 then start
    else
      var next := match keys[0]
        case ArrowDown => ArrowDownIndex(start, count)
        case ArrowUp => ArrowUpIndex(start)
        case _ => start;
      AfterArrows(next, count, keys[1..])
  }

  /** Any run of arrow presses keeps the highlight in [-1, count - 1]. */
  lemma {:induction false} ArrowsStayInRange(start: int, count: nat, keys: seq<Key>)
    requires InRange(start, count)
    ensures InRange(AfterArrows(start, count, keys), count)
    decreases |keys|
  {
    if |keys| > 0 {
      var next := match keys[0]
        case ArrowDown => ArrowDownIndex(start, count)
        case ArrowUp => ArrowUpIndex(start)
        case _ => start;
      ArrowsStayInRange(next, count, keys[1..]);
    }
  }

  /** Enough ArrowDown presses from "none" reach the last suggestion and stop there. */
  lemma {:induction false} ArrowDownSaturates(start: int, count: nat, presses: nat)
    requires InRange(start, count)
    ensures AfterArrows(start, count, seq(presses, _ => ArrowDown))
            == if start + presses < count - 1 then start + presses else (if count == 0 then -1 else count - 1)
    decreases presses
  {
    if presses > 0 {
      var keys := seq(presses, _ => ArrowDown);
      assert keys[1..] == seq(presses - 1, _ => ArrowDown);
      ArrowDownSaturates(ArrowDownIndex(start, count), count, presses - 1);
    }
  }

  // ---------------------------------------------------------------------------
  // The widget state

  class Autocomplete {
    /** The fixed list of vehicle names the widget searches. */
    const database: seq<string>
    /** `searchQuery` */
    var query: string
    /** `filteredCars` */
    var suggestions: seq<string>
    /** `showDropdown` */
    var open: bool
    /** `highlightedIndex` */
    var highlighted: int

    /** The filter effect has run for the current query, and the highlight is in range. */
    ghost predicate Valid()
      reads this
    {
      && suggestions == Suggestions(database, query)
      && InRange(highlighted, |suggestions|)
      && (open ==> query != "")
    }

    /** The dropdown is rendered only while open and non-empty. */
    function DropdownVisible(): bool
      reads this
    {
      open && |suggestions| > 0
    }

    constructor(database: seq<string>)
      ensures Valid()
      ensures this.database == database
      ensures query == "" && suggestions == [] && !open && highlighted == -1
    {
      this.database := database;
      query := "";
      suggestions := [];
      open := false;
      highlighted := -1;
    }

    /** The effect keyed on `searchQuery`. */
    method RunFilterEffect()
      modifies this
      ensures query == old(query)
      ensures suggestions == Suggestions(database, query)
      ensures open == (|query| > 0)
      ensures highlighted == -1
    {
      if |query| > 0 {
        var all := MatchingCars(database, query);
        suggestions := if |all| <= MaxSuggestions then all else all[..MaxSuggestions];
        open := true;
      } else {
        suggestions := [];
        open := false;
      }
      highlighted := -1;
    }

    /** `handleInputChange`; the effect re-runs only when the query actually changes. */
    method Type(value: string)
      requires Valid()
      modifies this
      ensures Valid()
      ensures query == value
      ensures value != old(query) ==> open == (value != "") && highlighted == -1
      ensures value == old(query) ==> open == old(open) && highlighted == old(highlighted)
    {
      if value != query {
        query := value;
        RunFilterEffect();
      }
    }

    /** `handleCarSelect`: emits an owned vehicle, clears the query and closes the dropdown. */
    method Select(car: string) returns (emitted: Vehicle)
      requires Valid()
      modifies this
      ensures Valid()
      ensures emitted == Vehicle(car, Own)
      ensures query == "" && suggestions == [] && !open
      ensures old(query) != "" ==> highlighted == -1
      ensures old(query) == "" ==> highlighted == old(highlighted)
    {
      emitted := Vehicle(car, Own);
      var previous := query;
      query := "";
      open := false;
      if previous != query {
        RunFilterEffect();
      }
    }

    /** A click on a rendered suggestion. */
    method Click(index: nat) returns (emitted: Vehicle)
      requires Valid() && DropdownVisible() && index < |suggestions|
      modifies this
      ensures Valid()
      ensures emitted == Vehicle(old(suggestions)[index], Own)
      ensures query == "" && suggestions == [] && !open && highlighted == -1
    {
      emitted := Select(suggestions[index]);
    }

    /** Hovering a rendered suggestion highlights it. */
    method MouseEnter(index: nat)
      requires Valid() && DropdownVisible() && index < |suggestions|
      modifies this`highlighted
      ensures Valid()
      ensures highlighted == index
    {
      highlighted := index;
    }

    /** `onFocus`: reopens the dropdown only for a non-empty query. */
    method Focus()
      requires Valid()
      modifies this`open
      ensures Valid()
      ensures open == (old(open) || query != "")
    {
      if |query| > 0 {
        open := true;
      }
    }

    /** A mouse-down outside the widget closes the dropdown. */
    method Close()
      requires Valid()
      modifies this`open
      ensures Valid()
      ensures !open
    {
      open := false;
    }

    /** `handleKeyDown`. */
    method KeyDown(key: Key) returns (emitted: Option<Vehicle>)
      requires Valid()
      modifies this
      ensures Valid()
      ensures key == ArrowDown ==>
        emitted == None && highlighted == ArrowDownIndex(old(highlighted), |suggestions|)
        && query == old(query) && open == old(open)
      ensures key == ArrowUp ==>
        emitted == None && highlighted == ArrowUpIndex(old(highlighted))
        && query == old(query) && open == old(open)
      ensures key == Escape ==>
        emitted == None && !open && highlighted == -1 && query == old(query)
      ensures key == OtherKey ==>
        emitted == None && query == old(query) && open == old(open) && highlighted == old(highlighted)
      ensures key == Enter ==>
        if 0 <= old(highlighted) < |old(suggestions)| && old(suggestions)[old(highlighted)] != "" then
          emitted == Some(Vehicle(old(suggestions)[old(highlighted)], Own))
          && query == "" && suggestions == [] && !open && highlighted == -1
        else
          emitted == None && query == old(query) && open == old(open) && highlighted == old(highlighted)
    {
      emitted := None;
      match key
      case ArrowDown =>
        highlighted := ArrowDownIndex(highlighted, |suggestions|);
      case ArrowUp =>
        highlighted := ArrowUpIndex(highlighted);
      case Enter =>
        if 0 <= highlighted < |suggestions| && suggestions[highlighted] != "" {
          var v := Select(suggestions[highlighted]);
          emitted := Some(v);
        }
      case Escape =>
        open := false;
        highlighted := -1;
      case OtherKey =>
    }
  }
}
