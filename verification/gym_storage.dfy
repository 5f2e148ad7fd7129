/** `GymStorageService`: the saved gyms, kept as one JSON-encoded list under
    one UserDefaults key. A gym within 50 metres of a saved one is refused.
    The geodesic distance between two coordinates (`CLLocation.distance`) is
    the parameter `dist`. */
module GymStorage {
  import opened Base
  import opened GymModels

  /** Saved gyms closer than or exactly this many metres are duplicates. */
  const DuplicateRadius: real := 50.0

  type Distance = (Coordinate, Coordinate) -> real

  /** What a call reads from the store. */
  datatype Loaded = Loaded(gyms: seq<GymDetails>, reports: seq<Report>)

  /** The store after a call, the reports it made, and whether it posted the
      "gym locations updated" notification. */
  datatype Written = Written(blob: Blob<GymDetails>, reports: seq<Report>, notified: bool)

  /** `loadSavedGyms()`: no data reads as no gyms; undecodable data reads as
      no gyms and is reported. */
  function LoadSavedGyms(b: Blob<GymDetails>): (r: Loaded)
    ensures b.Absent? ==> r == Loaded([], [])
    ensures b.Undecodable? ==> r == Loaded([], [LoadFailed(b.reason)])
    ensures b.Stored? ==> r == Loaded(b.items, [])
  {
    match b
    case Absent => Loaded([], [])
    case Undecodable(why) => Loaded([], [LoadFailed(why)])
    case Stored(items) => Loaded(items, [])
  }

  /** `isDuplicate(_:among:)`: some saved gym is within 50 metres. */
  function IsDuplicate(gym: GymDetails, saved: seq<GymDetails>, dist: Distance): (r: bool)
    ensures !r <==> forall i | 0 <= i < |saved| :: dist(saved[i].Coord(), gym.Coord()) > DuplicateRadius
    ensures |saved| == 0 ==> !r
  {
    exists i | 0 <= i < |saved| :: dist(saved[i].Coord(), gym.Coord()) <= DuplicateRadius
  }

  /** No two saved gyms are within 50 metres, measured from the earlier one. */
  predicate WellSpaced(gyms: seq<GymDetails>, dist: Distance) {
    forall i, j | 0 <= i < j < |gyms| :: dist(gyms[i].Coord(), gyms[j].Coord()) > DuplicateRadius
  }

  /** Write a list back: stored and notified when it encodes, otherwise
      reported with `failed` and left as it was. */
  function WriteBack(b: Blob<GymDetails>, gyms: seq<GymDetails>, enc: Encoding,
                     failed: string -> Report, reports: seq<Report>): (r: Written)
    ensures enc.Encodes? ==> r == Written(Stored(gyms), reports, true)
    ensures enc.EncodeFails? ==> r == Written(b, reports + [failed(enc.reason)], false)
  {
    match enc
    case Encodes => Written(Stored(gyms), reports, true)
    case EncodeFails(why) => Written(b, reports + [failed(why)], false)
  }

  /** `saveGym(_:)`. */
  function SaveGym(b: Blob<GymDetails>, gym: GymDetails, dist: Distance, enc: Encoding): (r: Written)
    // A gym within 50 metres of a saved one is refused; the store is untouched.
    ensures IsDuplicate(gym, LoadSavedGyms(b).gyms, dist) ==>
      r == Written(b, LoadSavedGyms(b).reports + [DuplicateGym], false)
    // Otherwise the gym goes at the end of what was read, all earlier gyms kept.
    ensures !IsDuplicate(gym, LoadSavedGyms(b).gyms, dist) && enc.Encodes? ==>
      && r.blob.Stored? && r.notified
      && |r.blob.items| == |LoadSavedGyms(b).gyms| + 1
      && r.blob.items[..|LoadSavedGyms(b).gyms|] == LoadSavedGyms(b).gyms
      && r.blob.items[|LoadSavedGyms(b).gyms|] == gym
    ensures enc.EncodeFails? ==> r.blob == b && !r.notified
    // A failed read is reported, then a failed write; a good write adds nothing.
    ensures !IsDuplicate(gym, LoadSavedGyms(b).gyms, dist) ==>
      r.reports == LoadSavedGyms(b).reports + (if enc.EncodeFails? then [SaveFailed(enc.reason)] else [])
  {
    var loaded := LoadSavedGyms(b);
    if IsDuplicate(gym, loaded.gyms, dist) then Written(b, loaded.reports + [DuplicateGym], false)
    else WriteBack(b, loaded.gyms + [gym], enc, (why: string) => SaveFailed(why), loaded.reports)
  }

  /** `deleteGym(_:)`: every saved gym with the identifier goes, the others
      stay in order; an unknown identifier rewrites the same list. */
  function DeleteGym(b: Blob<GymDetails>, gym: GymDetails, enc: Encoding): (r: Written)
    ensures enc.Encodes? ==>
      && r.blob.Stored? && r.notified
      && (forall i | 0 <= i < |r.blob.items| ::
            r.blob.items[i].id != gym.id && r.blob.items[i] in LoadSavedGyms(b).gyms)
      && (forall i | 0 <= i < |LoadSavedGyms(b).gyms| && LoadSavedGyms(b).gyms[i].id != gym.id ::
            LoadSavedGyms(b).gyms[i] in r.blob.items)
      && ((forall i | 0 <= i < |LoadSavedGyms(b).gyms| :: LoadSavedGyms(b).gyms[i].id != gym.id)
            ==> r.blob.items == LoadSavedGyms(b).gyms)
    // `removeAll` keeps the remaining gyms in their order.
    ensures enc.Encodes? ==> r.blob.items == Keep(LoadSavedGyms(b).gyms, OtherThan(gym.id))
    ensures enc.EncodeFails? ==> r.blob == b && !r.notified
    // A failed read is reported, then a failed write; a good write adds nothing.
    ensures r.reports == LoadSavedGyms(b).reports + (if enc.EncodeFails? then [DeleteFailed(enc.reason)] else [])
  {
    var loaded := LoadSavedGyms(b);
    WriteBack(b, Keep(loaded.gyms, OtherThan(gym.id)), enc,
              (why: string) => DeleteFailed(why), loaded.reports)
  }

  /** Deleting a gym from the middle of the list closes the gap: the gyms
      before and after it stay, in order. */
  lemma DeleteKeepsOrder(before: seq<GymDetails>, gym: GymDetails, after: seq<GymDetails>)
    requires forall i | 0 <= i < |before| :: before[i].id != gym.id
    requires forall i | 0 <= i < |after| :: after[i].id != gym.id
    ensures DeleteGym(Stored(before + [gym] + after), gym, Encodes).blob == Stored(before + after)
  {
    KeepOtherThanMiddle(before, gym, after);
  }

  /** Saving keeps the store well spaced: if no two saved gyms were within
      50 metres, none are afterwards, whatever the save decided. */
  lemma SavePreservesSpacing(b: Blob<GymDetails>, gym: GymDetails, dist: Distance, enc: Encoding)
    requires b.Stored? && WellSpaced(b.items, dist)
    ensures SaveGym(b, gym, dist, enc).blob.Stored?
    ensures WellSpaced(SaveGym(b, gym, dist, enc).blob.items, dist)
  {
    var r := SaveGym(b, gym, dist, enc);
    if !IsDuplicate(gym, b.items, dist) && enc.Encodes? {
      var n := |b.items|;
      forall i, j | 0 <= i < j < |r.blob.items|
        ensures dist(r.blob.items[i].Coord(), r.blob.items[j].Coord()) > DuplicateRadius
      {
        assert r.blob.items[i] == b.items[i];
        if j < n { assert r.blob.items[j] == b.items[j]; }
      }
    }
  }

  /** A gym 30 metres from a saved one is refused and the count stays put;
      one 60 metres away from every saved gym is added. */
  lemma ThirtyVersusSixtyMetres(saved: seq<GymDetails>, near: GymDetails, far: GymDetails, dist: Distance)
    requires |saved| > 0 && dist(saved[0].Coord(), near.Coord()) == 30.0
    requires forall i | 0 <= i < |saved| :: dist(saved[i].Coord(), far.Coord()) == 60.0
    ensures SaveGym(Stored(saved), near, dist, Encodes).blob == Stored(saved)
    ensures SaveGym(Stored(saved), near, dist, Encodes).reports == [DuplicateGym]
    ensures SaveGym(Stored(saved), far, dist, Encodes).blob == Stored(saved + [far])
  {
    assert IsDuplicate(near, saved, dist);
  }

  /** Saving over undecodable data reports the failed read, then replaces the
      unreadable list by a list holding just the new gym. */
  lemma SaveOverUndecodable(why: string, gym: GymDetails, dist: Distance)
    ensures SaveGym(Undecodable(why), gym, dist, Encodes)
         == Written(Stored([gym]), [LoadFailed(why)], true)
  {
  }
}
