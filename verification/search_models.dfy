/** `NearbyGym.from`: turning one map search hit into a search result —
    the type guessed from keywords in the name, and the address joined from
    the placemark's components. */
module SearchModels {
  import opened Base
  import opened GymModels

  /** The address components of an `MKPlacemark` that the address uses. */
  datatype Placemark = Placemark(
    subThoroughfare: Option<string>,
    thoroughfare: Option<string>,
    locality: Option<string>,
    administrativeArea: Option<string>)

  /** An `MKMapItem` as far as the search reads it. */
  datatype MapItem = MapItem(name: Option<string>, coordinate: Coordinate, placemark: Placemark)

  /* ----- Case folding and substring search ----- */

  function LowerChar(c: char): char {
    if 'A' <= c <= 'Z' then (c as int + 32) as char else c
  }

  /** `String.lowercased()`, on ASCII letters. */
  function Lowercase(s: string): (r: string)
    ensures |r| == |s|
    ensures forall i | 0 <= i < |s| :: r[i] == LowerChar(s[i])
  {
    seq(|s|, i requires 0 <= i < |s| => LowerChar(s[i]))
  }

  /** Lowering an already lowered string changes nothing. */
  lemma LowercaseIdempotent(s: string)
    ensures Lowercase(Lowercase(s)) == Lowercase(s)
  {
  }

  /** `String.contains(_:)`: `sub` occurs somewhere in `s`. */
  predicate Contains(s: string, sub: string)
    decreases |s|
  {
    sub <= s || (|s| > 0 && Contains(s[1..], sub))
  }

  /** The searchable, case-insensitive form of a possibly missing name. */
  function LowerName(name: Option<string>): string {
    Lowercase(name.GetOr(""))
  }

  /* ----- Type classification ----- */

  /** `determineGymType(from:)`. */
  function DetermineGymType(name: Option<string>): (t: GymType)
    ensures t != Other
  {
    var n := LowerName(name);
    if Contains(n, "crossfit") then Crossfit
    else if Contains(n, "yoga") then Yoga
    else if Contains(n, "martial") || Contains(n, "karate") || Contains(n, "jiu") then MartialArts
    else Fitness
  }

  /** The keyword table the classification is meant to follow: categories in
      priority order, each with the words that select it. */
  const KeywordTable: seq<(GymType, seq<string>)> :=
    [(Crossfit, ["crossfit"]), (Yoga, ["yoga"]), (MartialArts, ["martial", "karate", "jiu"])]

  predicate AnyKeyword(n: string, words: seq<string>) {
    exists w | w in words :: Contains(n, w)
  }

  /** Reference classification: the first row of the table with a keyword in
      the name, or `Fitness` when no row matches. */
  function FirstMatch(n: string, table: seq<(GymType, seq<string>)>): GymType {
    if |table| == 0 then Fitness
    else if AnyKeyword(n, table[0].1) then table[0].0
    else FirstMatch(n, table[1..])
  }

  /** `determineGymType` is the priority-ordered keyword table: "crossfit"
      beats "yoga", which beats the martial-arts words, and a name with none
      of them (or no name) is a fitness centre. */
  lemma DetermineGymTypeFollowsTable(name: Option<string>)
    ensures DetermineGymType(name) == FirstMatch(LowerName(name), KeywordTable)
  {
    var n := LowerName(name);
    assert AnyKeyword(n, ["crossfit"]) <==> Contains(n, "crossfit") by {
      if Contains(n, "crossfit") { assert "crossfit" in ["crossfit"]; }
    }
    assert AnyKeyword(n, ["yoga"]) <==> Contains(n, "yoga") by {
      if Contains(n, "yoga") { assert "yoga" in ["yoga"]; }
    }
    var m := ["martial", "karate", "jiu"];
    assert AnyKeyword(n, m) <==> Contains(n, "martial") || Contains(n, "karate") || Contains(n, "jiu") by {
      if Contains(n, "martial") { assert m[0] in m; }
      if Contains(n, "karate") { assert m[1] in m; }
      if Contains(n, "jiu") { assert m[2] in m; }
    }
    var t1 := KeywordTable[1..];
    var t2 := t1[1..];
    assert t1 == [(Yoga, ["yoga"]), (MartialArts, m)];
    assert t2 == [(MartialArts, m)];
    assert t2[1..] == [];
    assert FirstMatch(n, t2) == if AnyKeyword(n, m) then MartialArts else Fitness;
    assert FirstMatch(n, t1) == if AnyKeyword(n, ["yoga"]) then Yoga else FirstMatch(n, t2);
    assert FirstMatch(n, KeywordTable)
        == if AnyKeyword(n, ["crossfit"]) then Crossfit else FirstMatch(n, t1);
  }

  /** Classification ignores letter case. */
  lemma DetermineGymTypeIgnoresCase(s: string)
    ensures DetermineGymType(Some(s)) == DetermineGymType(Some(Lowercase(s)))
  {
    LowercaseIdempotent(s);
  }

  /** A missing name is classified from the empty string, so as fitness. */
  lemma MissingNameIsFitness()
    ensures DetermineGymType(None) == Fitness
  {
    assert !Contains("", "crossfit") && !Contains("", "yoga");
    assert !Contains("", "martial") && !Contains("", "karate") && !Contains("", "jiu");
  }

  /* ----- Address formatting ----- */

  /** `compactMap { $0 }`: the present values, in order. */
  function Present(parts: seq<Option<string>>): (r: seq<string>)
    ensures |r| <= |parts|
  {
    if |parts| == 0 then []
    else (if parts[0].Some? then [parts[0].value] else []) + Present(parts[1..])
  }

  /** `joined(separator: " ")`. */
  function Join(words: seq<string>): string {
    if |words| == 0 then ""
    else if |words| == 1 then words[0]
    else words[0] + " " + Join(words[1..])
  }

  /** Position of the first space, or the length when there is none. */
  function SpaceIndex(s: string): (i: nat)
    ensures i <= |s|
    ensures i < |s| ==> s[i] == ' '
    ensures forall j | 0 <= j < i :: s[j] != ' '
  {
    if |s| == 0 || s[0] == ' ' then 0 else 1 + SpaceIndex(s[1..])
  }

  /** Splitting on single spaces, keeping empty pieces. */
  function Split(s: string): (r: seq<string>)
    ensures |r| > 0
    decreases |s|
  {
    var i := SpaceIndex(s);
    if i == |s| then [s] else [s[..i]] + Split(s[i + 1..])
  }

  /** The components the address is built from, in order. */
  function Components(p: Placemark): seq<Option<string>> {
    [p.subThoroughfare, p.thoroughfare, p.locality, p.administrativeArea]
  }

  /** `formatAddress(from:)`. */
  function FormatAddress(p: Placemark): (r: string)
    ensures Present(Components(p)) == [] ==> r == ""
  {
    Join(Present(Components(p)))
  }

  lemma SplitWordThenRest(w: string, rest: string)
    requires ' ' !in w
    ensures Split(w + " " + rest) == [w] + Split(rest)
  {
    var s := w + " " + rest;
    var i := SpaceIndex(s);
    assert s[|w|] == ' ';
    assert i == |w|;
    assert s[..i] == w;
    assert s[i + 1..] == rest;
  }

  /** Splitting the joined words on spaces gives the words back, provided
      none of them contains a space. */
  lemma {:induction false} SplitJoin(words: seq<string>)
    requires |words| > 0
    requires forall k | 0 <= k < |words| :: ' ' !in words[k]
    ensures Split(Join(words)) == words
  {
    if |words| == 1 {
      assert Join(words) == words[0];
    } else {
      SplitJoin(words[1..]);
      SplitWordThenRest(words[0], Join(words[1..]));
    }
  }

  /** The address round-trips: when at least one component is present and
      none contains a space, splitting the address on spaces recovers exactly
      the present components in the order sub-thoroughfare, thoroughfare,
      locality, administrative area. */
  lemma FormatAddressRoundTrip(p: Placemark)
    requires Present(Components(p)) != []
    requires forall c | c in Components(p) && c.Some? :: ' ' !in c.value
    ensures Split(FormatAddress(p)) == Present(Components(p))
  {
    var cs := Components(p);
    PresentElements(cs);
    SplitJoin(Present(cs));
  }

  lemma {:induction false} PresentElements(parts: seq<Option<string>>)
    ensures forall k | 0 <= k < |Present(parts)| :: Some(Present(parts)[k]) in parts
  {
    if |parts| > 0 {
      PresentElements(parts[1..]);
      var head := if parts[0].Some? then [parts[0].value] else [];
      assert Present(parts) == head + Present(parts[1..]);
      forall k | 0 <= k < |Present(parts)|
        ensures Some(Present(parts)[k]) in parts
      {
        if k < |head| {
          assert Present(parts)[k] == parts[0].value;
        } else {
          assert Present(parts)[k] == Present(parts[1..])[k - |head|];
        }
      }
    }
  }

  lemma {:induction false} PresentOfNone(parts: seq<Option<string>>)
    requires forall j | 0 <= j < |parts| :: parts[j].None?
    ensures Present(parts) == []
  {
    if |parts| > 0 {
      PresentOfNone(parts[1..]);
    }
  }

  lemma {:induction false} PresentOfOne(parts: seq<Option<string>>, k: nat, s: string)
    requires k < |parts| && parts[k] == Some(s)
    requires forall j | 0 <= j < |parts| && j != k :: parts[j].None?
    ensures Present(parts) == [s]
  {
    if k == 0 {
      PresentOfNone(parts[1..]);
    } else {
      PresentOfOne(parts[1..], k - 1, s);
    }
  }

  /** Exactly one present component, in any of the four positions, gives
      that component alone, with no separator. */
  lemma FormatAddressSingle(p: Placemark, k: nat, s: string)
    requires k < |Components(p)| && Components(p)[k] == Some(s)
    requires forall j | 0 <= j < |Components(p)| && j != k :: Components(p)[j].None?
    ensures FormatAddress(p) == s
  {
    PresentOfOne(Components(p), k, s);
  }

  /* ----- The conversion ----- */

  /** `NearbyGym.from(_:distance:)`; `freshId` is the `UUID()` it mints. */
  function From(item: MapItem, distance: real, freshId: Id): (g: NearbyGym)
    ensures g.id == freshId && g.coordinate == item.coordinate
    ensures g.name == (if item.name.Some? then item.name.value else "Unknown Gym")
    ensures g.distance == Some(distance)
    ensures g.gymType == Some(DetermineGymType(item.name)) && g.gymType.value != Other
    ensures g.address == FormatAddress(item.placemark)
  {
    NearbyGym(
      freshId,
      item.name.GetOr("Unknown Gym"),
      item.coordinate,
      FormatAddress(item.placemark),
      Some(distance),
      Some(DetermineGymType(item.name)))
  }

  /** A hit whose name contains "Yoga" becomes a yoga studio once the
      lowered name is found not to mention crossfit: the capital letter does
      not hide the keyword, and the rest of the name does not matter. */
  lemma FromYogaStudio(item: MapItem, distance: real, freshId: Id, before: string, after: string)
    requires item.name == Some(before + "Yoga" + after)
    requires !Contains(LowerName(item.name), "crossfit")
    ensures From(item, distance, freshId).gymType == Some(Yoga)
  {
    var n := LowerName(item.name);
    var b := |before|;
    assert n[b..b + 4] == "yoga";
    ContainsAt(n, "yoga", b);
  }

  /** A word found at position `k` is contained. */
  lemma {:induction false} ContainsAt(s: string, sub: string, k: nat)
    requires k + |sub| <= |s| && s[k..k + |sub|] == sub
    ensures Contains(s, sub)
    decreases k
  {
    if k == 0 {
      assert sub <= s;
    } else {
      assert s[1..][k - 1..k - 1 + |sub|] == s[k..k + |sub|];
      ContainsAt(s[1..], sub, k - 1);
    }
  }
}
