/**
 * JSON values as the app reads them back from `localStorage`, JavaScript
 * truthiness on them, property access, and object spread `{ ...value }`.
 * Numbers are restricted to integers.
 */
module Json {
  import opened Wrappers
  import opened JsString

  datatype Json =
    | JNull
    | JBool(b: bool)
    | JNum(n: int)
    | JStr(s: string)
    | JArr(items: seq<Json>)
    | JObj(fields: map<string, Json>)

  /** JavaScript truthiness: `null`, `false`, `0` and `''` are falsy, everything else truthy. */
  predicate Truthy(v: Json) {
    match v
    case JNull => false
    case JBool(b) => b
    case JNum(n) => n != 0
    case JStr(s) => s != ""
    case JArr(_) => true
    case JObj(_) => true
  }

  /** `value || fallback` on a possibly missing value (`None` is `undefined`). */
  function Or(value: Option<Json>, fallback: Option<Json>): (r: Option<Json>)
    ensures value.Some? && Truthy(value.value) ==> r == value
    ensures !(value.Some? && Truthy(value.value)) ==> r == fallback
  {
    if value.Some? && Truthy(value.value) then value else fallback
  }

  /**
   * `value.key` on a parsed value: an object's own entry, `undefined` for a
   * missing entry and for strings, arrays, numbers and booleans (none of the
   * keys the app reads is a built-in property of those); `None` on `null`,
   * where JavaScript throws a TypeError.
   */
  function Get(value: Json, key: string): (r: Option<Option<Json>>)
    ensures r == None <==> value == JNull
    ensures value.JObj? ==> r == Some(if key in value.fields then Some(value.fields[key]) else None)
  {
    match value
    case JNull => None
    case JObj(fields) => Some(if key in fields then Some(fields[key]) else None)
    case _ => Some(None)
  }

  /** Distinct indices have distinct decimal spellings. */
  lemma DecimalInjective()
    ensures forall i: nat, j: nat :: Decimal(i) == Decimal(j) ==> i == j
  {
    forall i: nat, j: nat | Decimal(i) == Decimal(j)
      ensures i == j
    {
      DigitsValueOfDecimal(i);
      DigitsValueOfDecimal(j);
    }
  }

  /** The index keys `"0"`, `"1"`, … of a string's characters or an array's elements. */
  function Indexed(items: seq<Json>): (m: map<string, Json>)
    ensures forall i :: 0 <= i < |items| ==> Decimal(i) in m && m[Decimal(i)] == items[i]
    ensures forall k :: k in m ==> exists i :: 0 <= i < |items| && k == Decimal(i)
  {
    DecimalInjective();
    map i | 0 <= i < |items| :: Decimal(i) := items[i]
  }

  /**
   * The own enumerable entries that `{ ...value }` copies: an object's
   * entries, the characters of a string or the elements of an array under
   * their index, nothing for `null`, booleans and numbers.
   */
  function Spread(value: Json): (r: map<string, Json>)
    ensures value.JStr? ==>
              forall i :: 0 <= i < |value.s| ==> Decimal(i) in r && r[Decimal(i)] == JStr([value.s[i]])
    ensures value.JStr? ==> forall k :: k in r ==> exists i :: 0 <= i < |value.s| && k == Decimal(i)
  {
    match value
    case JObj(fields) => fields
    case JStr(s) => Indexed(seq(|s|, i requires 0 <= i < |s| => JStr([s[i]])))
    case JArr(items) => Indexed(items)
    case _ => map[]
  }

  /** Spreading an object copies exactly its entries. */
  lemma SpreadObject(fields: map<string, Json>)
    ensures Spread(JObj(fields)) == fields
  {
  }

  /** Spreading a value without own entries gives the empty object. */
  lemma SpreadScalar(value: Json)
    requires value.JNull? || value.JBool? || value.JNum?
    ensures Spread(value) == map[]
  {
  }

  /** Spreading an array keeps each element under its decimal index, and nothing else. */
  lemma SpreadArray(items: seq<Json>)
    ensures forall i :: 0 <= i < |items| ==> Spread(JArr(items))[Decimal(i)] == items[i]
    ensures forall k :: k in Spread(JArr(items)) ==> exists i :: 0 <= i < |items| && k == Decimal(i)
  {
  }

  /** What `localStorage.getItem` holds under a key, as `JSON.parse` sees it. */
  datatype Stored =
    | Blank                // the empty string: falsy, and `JSON.parse` rejects it
    | Unparseable          // text that `JSON.parse` rejects
    | Parsed(value: Json)  // text that parses to `value`

  /** The browser's key/value store. */
  type Storage = map<string, Stored>

  /** `window.localStorage`. */
  class LocalStorage {
    var items: Storage

    constructor(items: Storage)
      ensures this.items == items
    {
      this.items := items;
    }

    /** `setItem(key, value)`: replaces one entry and keeps every other. */
    method SetItem(key: string, value: Stored)
      modifies this
      ensures items == old(items)[key := value]
    {
      items := items[key := value];
    }
  }

  /** The key the onboarding record is kept under. */
  const OnboardingDataKey: string := "onboardingData"
}
