/**
 * The representative image for a vehicle name: a fixed table from lower-case
 * make/model keys to image URLs, searched most specific (longest) key first,
 * with a fixed fallback picture.
 */
module VehicleImages {
  import opened Wrappers
  import opened JsString

  /**
   * A string-keyed record, held as its keys in the order `Object.keys`
   * enumerates them and the values aligned with them.
   */
  datatype ImageTable = ImageTable(keys: seq<string>, urls: seq<string>) {
    ghost predicate Valid() {
      |keys| == |urls|
    }
  }

  const CloudFront: string := "https://d2kde5ohu8qb21.cloudfront.net/files/"
  const Unsplash: string := "https://images.unsplash.com/"

  /**
   * `Object.keys(vehicleImageMap)`: the integer-like key "911" is enumerated
   * first, the remaining keys in the order they are written.
   */
  const ImageKeys: seq<string> := [
    "911", "mustang", "camaro", "corvette", "supra", "wrx", "m3",
    "civic", "accord", "corolla", "altima", "sentra", "gti",
    "suburban", "bronco", "bronco sport", "f-150", "silverado", "ram", "rav4", "cr-v", "cx-5",
    "stinger", "model 3", "model s"
  ]

  /** The values of `vehicleImageMap`, aligned with `ImageKeys`. */
  const ImageUrls: seq<string> := [
    /* 911 */ CloudFront + "68dc4bec967ad900029a891c/006-2025-porsche-911-t.jpg",
    /* mustang */ CloudFront + "68c9c7f8c0aa4a0002763d55/002-2025-ford-mustang-gtd-front-three-quarter-action.jpg",
    /* camaro */ CloudFront + "68da999cde18ff0002d1b4a0/000-2014-chevy-camaro-zl1-chett-levay-lead.jpg",
    /* corvette */ CloudFront + "6892b5b0b6d64f0002a3dc4b/2026chevroletcorvettezr1xquailsilverlimitededitionsportscarsupercarvetteconvertible-8.jpg",
    /* supra */ Unsplash + "photo-1619767886558-efdc259c3988?w=800&q=80&auto=format&fit=crop",
    /* wrx */ CloudFront + "68791475d0bc610002e15175/2025subaruunchartedinorangelowrearthreequarters.jpg",
    /* m3 */ CloudFront + "68e820187f1963000225fdd9/2026bmwm2turbodesigneditioncoupesportscar-26.jpg",
    /* civic */ CloudFront + "65dcf5210e091c0008b94fd0/2020-honda-civic-si-coupe-front-three-quarter.jpg",
    /* accord */ CloudFront + "679d37b803565f0008090975/21-2025-honda-accord-front-view.jpg",
    /* corolla */ CloudFront + "68dc6648bbe5640002b8f5db/007-2025-toyota-gr-corolla.jpg",
    /* altima */ CloudFront + "65a38d2e36557c0008a5e89e/2021-nissan-altima-sr-vc-turbo-24.jpg",
    /* sentra */ CloudFront + "68d1d958af6f83000296dd9a/2026nissansentra-oem21.jpg",
    /* gti */ CloudFront + "68ed9049b76c7c0002cf2115/025-2026volkswagen-golf-gti-r-coty.jpg",
    /* suburban */ CloudFront + "65b8d9bfcad57f00087ba770/2021-chevrolet-suburban-frt-02.jpg",
    /* bronco */ CloudFront + "67237b68a0efe50008b489ed/2025fordbroncowildfundsemasuv10.png",
    /* bronco sport */ CloudFront + "674e2b7efe24400008290ba0/003-2025-ford-bronco-free-wheeling.jpg",
    /* f-150 */ CloudFront + "68c090307123160002bf3d2c/2025fordf-150roushperformancert6offroadpickuptruck-15.jpg",
    /* silverado */ CloudFront + "68913ffd88ee3a00023d0ca4/silveradoevwtrangetestdynamic.png",
    /* ram */ CloudFront + "68b8a8e72e52fc0002299f4c/1-2026-ram-2500-warlock.jpg",
    /* rav4 */ CloudFront + "682cd83b39615000089431b5/2026toyotarav4hybridsuvcrossover-1.jpg",
    /* cr-v */ CloudFront + "685edc71f123b4000238efd1/10-2026-honda-cr-v-trailsport.jpg",
    /* cx-5 */ CloudFront + "686c4f52a5f0070002f31f87/2026mazdacx-517.jpg",
    /* stinger */ CloudFront + "65c317fbd42a2f00084bae9d/2020-kia-stinger-gt2-awd-front-three-quarter-in-motion-2.jpg",
    /* model 3 */ CloudFront + "68e5862037f20500027cfb5f/2026teslamodel3standardrwdevelectricvehiclesedan-14.jpg",
    /* model s */ CloudFront + "68e5863676e22400025001a9/2026teslamodelystandardrwdsuvevelectricvehiclecrossover-12.jpg"
  ]

  /** `vehicleImageMap`. */
  const VehicleImageMap: ImageTable := ImageTable(ImageKeys, ImageUrls)

  /** The picture used when no key matches. */
  const DefaultImage: string := Unsplash + "photo-1552519507-da3b142c6e3d?w=800&q=80&auto=format&fit=crop"


  /** Every key is paired with a value. */
  lemma VehicleImageMapIsValid()
    ensures VehicleImageMap.Valid() && |ImageKeys| == 25
  {
  }

  /** The sports and performance keys, "911" to "m3", are written in lower case. */
  lemma SportsKeysAreLowerCase()
    ensures forall i :: 0 <= i < 7 ==> IsLowerCase(ImageKeys[i])
  {
  }

  /** The sedan and hatchback keys, "civic" to "gti", are written in lower case. */
  lemma SedanKeysAreLowerCase()
    ensures forall i :: 7 <= i < 13 ==> IsLowerCase(ImageKeys[i])
  {
  }

  /** The SUV and truck keys, "suburban" to "cx-5", are written in lower case. */
  lemma TruckKeysAreLowerCase()
    ensures forall i :: 13 <= i < 22 ==> IsLowerCase(ImageKeys[i])
  {
  }

  /** The Kia and Tesla keys are written in lower case. */
  lemma KiaTeslaKeysAreLowerCase()
    ensures forall i :: 22 <= i < 25 ==> IsLowerCase(ImageKeys[i])
  {
  }

  /** Every key of the table is written in lower case. */
  lemma KeysAreLowerCase()
    ensures forall i :: 0 <= i < |ImageKeys| ==> IsLowerCase(ImageKeys[i])
  {
    SportsKeysAreLowerCase();
    SedanKeysAreLowerCase();
    TruckKeysAreLowerCase();
    KiaTeslaKeysAreLowerCase();
  }

  /** "bronco sport" is the one longest key: every other key is shorter. */
  lemma BroncoSportIsLongest()
    ensures "bronco sport" in ImageKeys
    ensures forall k :: k in ImageKeys && k != "bronco sport" ==> |k| < 12
  {
    assert ImageKeys[15] == "bronco sport";
    assert forall j :: 0 <= j < |ImageKeys| && j != 15 ==> |ImageKeys[j]| < 12;
  }

  /** The first position of `k` in `keys`. */
  function IndexOf(keys: seq<string>, k: string): (i: nat)
    requires k in keys
    ensures i < |keys| && keys[i] == k
    ensures forall j :: 0 <= j < i ==> keys[j] != k
  {
    if keys[0] == k then 0 else 1 + IndexOf(keys[1..], k)
  }

  /** `table[key]`. */
  function Lookup(table: ImageTable, key: string): (url: string)
    requires table.Valid() && key in table.keys
    ensures url in table.urls
  {
    table.urls[IndexOf(table.keys, key)]
  }

  // ---------------------------------------------------------------------------
  // `sort((a, b) => b.length - a.length)`, a stable sort by decreasing length

  /** Longer keys come first. */
  predicate ByDecreasingLength(s: seq<string>) {
    forall i, j :: 0 <= i < j < |s| ==> |s[i]| >= |s[j]|
  }

  /** Inserts `x` after every element at least as long, so equal lengths keep their arrival order. */
  function InsertByLength(sorted: seq<string>, x: string): (r: seq<string>)
    ensures multiset(r) == multiset(sorted) + multiset{x}
  {
    if |sorted| == 0 then [x]
    else if |sorted[0]| >= |x| then
      assert sorted == [sorted[0]] + sorted[1..];
      [sorted[0]] + InsertByLength(sorted[1..], x)
    else [x] + sorted
  }

  /** Inserting into a list sorted longest first keeps it sorted. */
  lemma {:induction false} InsertKeepsOrder(sorted: seq<string>, x: string)
    requires ByDecreasingLength(sorted)
    ensures ByDecreasingLength(InsertByLength(sorted, x))
  {
    if |sorted| > 0 && |sorted[0]| >= |x| {
      var rest := InsertByLength(sorted[1..], x);
      InsertKeepsOrder(sorted[1..], x);
      forall j | 0 <= j < |rest| ensures |rest[j]| <= |sorted[0]| {
        AtMostFirst(sorted, x, rest[j]);
      }
    }
  }

  /** Every member of the insertion's tail is at most as long as the head of `sorted`. */
  lemma AtMostFirst(sorted: seq<string>, x: string, y: string)
    requires ByDecreasingLength(sorted) && |sorted| > 0 && |sorted[0]| >= |x|
    requires y in multiset(InsertByLength(sorted[1..], x))
    ensures |y| <= |sorted[0]|
  {
    if y != x {
      assert y in sorted[1..];
    }
  }

  /** Insertion sort by decreasing length: a permutation of the input, longest first. */
  function SortByLength(s: seq<string>): (r: seq<string>)
    ensures multiset(r) == multiset(s)
    ensures ByDecreasingLength(r)
  {
    if |s| == 0 then []
    else
      assert s == s[..|s| - 1] + [s[|s| - 1]];
      var sorted := SortByLength(s[..|s| - 1]);
      InsertKeepsOrder(sorted, s[|s| - 1]);
      InsertByLength(sorted, s[|s| - 1])
  }

  /** A permutation has the same members. */
  lemma SameMembers(a: seq<string>, b: seq<string>)
    requires multiset(a) == multiset(b)
    ensures forall k :: k in a <==> k in b
  {
    assert forall k :: k in a <==> multiset(a)[k] > 0;
    assert forall k :: k in b <==> multiset(b)[k] > 0;
  }

  // ---------------------------------------------------------------------------
  // The lookup

  /** The first of `keys` that `name` contains. */
  function FirstContained(name: string, keys: seq<string>): (r: Option<string>)
    ensures r.Some? ==> r.value in keys && Contains(name, r.value)
    ensures r == None <==> forall k :: k in keys ==> !Contains(name, k)
  {
    if |keys| == 0 then None
    else if Contains(name, keys[0]) then Some(keys[0])
    else FirstContained(name, keys[1..])
  }

  /** One step of the scan: the first hit from position `i` is key `i` or the first hit after it. */
  lemma FirstContainedFrom(name: string, keys: seq<string>, i: nat)
    requires i < |keys|
    ensures FirstContained(name, keys[i..])
            == if Contains(name, keys[i]) then Some(keys[i]) else FirstContained(name, keys[i + 1..])
  {
    assert keys[i..][1..] == keys[i + 1..];
  }

  /** On a list sorted longest first, the first contained key is a longest contained one. */
  lemma {:induction false} FirstContainedIsLongest(name: string, keys: seq<string>)
    requires ByDecreasingLength(keys)
    requires FirstContained(name, keys).Some?
    ensures forall k :: k in keys && Contains(name, k) ==> |k| <= |FirstContained(name, keys).value|
  {
    if !Contains(name, keys[0]) {
      FirstContainedIsLongest(name, keys[1..]);
      forall k | k in keys && Contains(name, k)
        ensures |k| <= |FirstContained(name, keys).value|
      {
        assert k in keys[1..];
      }
    }
  }

  /** The key whose value the lookup returns: the first hit among the keys sorted longest first. */
  function WinningKey(keys: seq<string>, vehicleName: string): (r: Option<string>)
    ensures r.Some? ==> r.value in keys
  {
    var sorted := SortByLength(keys);
    SameMembers(sorted, keys);
    FirstContained(Lower(vehicleName), sorted)
  }

  /** What `vehicleImageFor` returns for a given table. */
  function ImageFor(table: ImageTable, vehicleName: string): (url: string)
    requires table.Valid()
    ensures (forall k :: k in table.keys ==> !Contains(Lower(vehicleName), k)) ==> url == DefaultImage
    ensures (exists k :: k in table.keys && Contains(Lower(vehicleName), k)) ==>
              exists k :: k in table.keys && Contains(Lower(vehicleName), k) && url == Lookup(table, k)
  {
    LongestContainedKeyWins(table.keys, vehicleName);
    match WinningKey(table.keys, vehicleName)
    case Some(k) => Lookup(table, k)
    case None => DefaultImage
  }

  /**
   * The loop of `vehicleImageFor`: try the keys sorted longest first and
   * return the value of the first one the lower-cased name contains.
   */
  method LookupImage(table: ImageTable, vehicleName: string) returns (url: string)
    requires table.Valid()
    ensures url == ImageFor(table, vehicleName)
  {
    var name := Lower(vehicleName);
    var keysBySpecificity := SortByLength(table.keys);
    SameMembers(keysBySpecificity, table.keys);
    for i := 0 to |keysBySpecificity|
      invariant FirstContained(name, keysBySpecificity) == FirstContained(name, keysBySpecificity[i..])
    {
      FirstContainedFrom(name, keysBySpecificity, i);
      if Contains(name, keysBySpecificity[i]) {
        return Lookup(table, keysBySpecificity[i]);
      }
    }
    return DefaultImage;
  }

  /** `vehicleImageFor`. */
  method VehicleImageFor(vehicleName: string) returns (url: string)
    ensures url == ImageFor(VehicleImageMap, vehicleName)
  {
    VehicleImageMapIsValid();
    url := LookupImage(VehicleImageMap, vehicleName);
  }

  /**
   * The winning key is one of the keys that the lower-cased name contains and
   * is at least as long as every other contained key; there is none exactly
   * when the name contains no key.
   */
  lemma LongestContainedKeyWins(keys: seq<string>, vehicleName: string)
    ensures match WinningKey(keys, vehicleName)
            case Some(k) =>
              && Contains(Lower(vehicleName), k)
              && forall k' :: k' in keys && Contains(Lower(vehicleName), k') ==> |k'| <= |k|
            case None =>
              forall k :: k in keys ==> !Contains(Lower(vehicleName), k)
  {
    var sorted := SortByLength(keys);
    SameMembers(sorted, keys);
    if FirstContained(Lower(vehicleName), sorted).Some? {
      FirstContainedIsLongest(Lower(vehicleName), sorted);
    }
  }

  /**
   * The image is the value of a longest key contained in the lower-cased
   * name, or the default picture exactly when no key is contained.
   */
  lemma MostSpecificKeyWins(table: ImageTable, vehicleName: string)
    requires table.Valid()
    ensures match WinningKey(table.keys, vehicleName)
            case Some(k) =>
              && Contains(Lower(vehicleName), k)
              && (forall k' :: k' in table.keys && Contains(Lower(vehicleName), k') ==> |k'| <= |k|)
              && ImageFor(table, vehicleName) == Lookup(table, k)
            case None =>
              && (forall k :: k in table.keys ==> !Contains(Lower(vehicleName), k))
              && ImageFor(table, vehicleName) == DefaultImage
  {
    LongestContainedKeyWins(table.keys, vehicleName);
  }

  /** The result is always one of the table's values or the default picture. */
  lemma ImageIsKnown(table: ImageTable, vehicleName: string)
    requires table.Valid()
    ensures ImageFor(table, vehicleName) in table.urls || ImageFor(table, vehicleName) == DefaultImage
  {
  }

  lemma {:induction false} LowerOfUpper(s: string)
    ensures Lower(Upper(s)) == Lower(s)
  {
    forall i | 0 <= i < |s| ensures Lower(Upper(s))[i] == Lower(s)[i] {
    }
  }

  /** Names that differ only in letter case get the same picture. */
  lemma CaseDoesNotMatter(table: ImageTable, a: string, b: string)
    requires table.Valid()
    requires Lower(a) == Lower(b)
    ensures ImageFor(table, a) == ImageFor(table, b)
    ensures ImageFor(table, Upper(a)) == ImageFor(table, a)
    ensures ImageFor(table, Lower(a)) == ImageFor(table, a)
  {
    LowerOfUpper(a);
    LowerIsLowerCase(a);
  }

  /**
   * A name containing "bronco sport" gets that key's picture rather than the
   * plain "bronco" one.
   */
  lemma BroncoSportBeatsBronco(vehicleName: string)
    requires Contains(Lower(vehicleName), "bronco sport")
    ensures WinningKey(ImageKeys, vehicleName) == Some("bronco sport")
  {
    BroncoSportIsLongest();
    UniqueLongestKeyWins(ImageKeys, "bronco sport", vehicleName);
  }

  /** A contained key longer than every other key is the winning key. */
  lemma UniqueLongestKeyWins(keys: seq<string>, key: string, vehicleName: string)
    requires key in keys && Contains(Lower(vehicleName), key)
    requires forall k :: k in keys && k != key ==> |k| < |key|
    ensures WinningKey(keys, vehicleName) == Some(key)
  {
    LongestContainedKeyWins(keys, vehicleName);
  }
}
