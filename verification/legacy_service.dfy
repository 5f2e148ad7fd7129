/** The older, monolithic `GymLocationService` (the one at the top of the
    GymLocation feature, not the thin facade under Services/). It searches,
    caches, pages and stores gyms itself, with a different order of checks
    and a different duplicate rule from the services that replaced it. Its
    conversion of map hits, its paging and its location-manager callbacks are
    the same code as `SearchService` and `LocationTracking`, and are reused
    from there. */
module LegacyService {
  import opened Base
  import opened GymModels
  import SearchCache
  import SearchService
  import GymStorage
  import LocationTracking

  /* ----- Search ----- */

  /** `getCachedResults(for:)`: an absent key misses; an expired entry is
      evicted and misses; a fresh one is returned. */
  function GetCachedResults(c: SearchCache.Cache, query: string, now: Instant): (r: SearchCache.Lookup)
    ensures r == SearchCache.GetCached(c, query, now)
  {
    if query !in c then SearchCache.Lookup(c, None)
    else if !(now - c[query].timestamp < SearchCache.Timeout) then SearchCache.Lookup(c - {query}, None)
    else SearchCache.Lookup(c, Some(c[query].gyms))
  }

  /** The cache after the call, how it ended, the query sent to the map
      search (if it was consulted), and the reports made. */
  datatype Fetch = Fetch(
    cache: SearchCache.Cache,
    outcome: SearchService.Outcome,
    request: Option<string>,
    reports: seq<Report>)

  /** `fetchNearbyGyms(searchText:page:)`, reading the service's own
      `currentLocation`. */
  function FetchNearbyGyms(
    currentLocation: Option<Coordinate>,
    searchText: string,
    page: int,
    cache: SearchCache.Cache,
    now: Instant,
    provider: SearchService.Provider): (r: Fetch)
    // A cache hit comes first, needs no location, and is the whole list.
    ensures SearchService.Hit(cache, searchText, now) ==>
      r == Fetch(cache, SearchService.Page(cache[searchText].gyms), None, [])
    // After a miss (which evicts an expired entry), no location throws.
    ensures !SearchService.Hit(cache, searchText, now) && currentLocation.None? ==>
      r == Fetch(cache - {searchText}, SearchService.Thrown(LocationNotAvailable), None, [])
    ensures !SearchService.Hit(cache, searchText, now) && currentLocation.Some? ==>
      r.request == Some(SearchService.Query(searchText))
    // A failed search is reported, then thrown as `searchFailed`.
    ensures !SearchService.Hit(cache, searchText, now) && currentLocation.Some? && provider.Fails? ==>
      && r.cache == cache - {searchText}
      && r.outcome == SearchService.Thrown(SearchFailed)
      && r.reports == [ProviderError(provider.reason)]
    // A successful one caches the whole sorted list and serves one page.
    ensures !SearchService.Hit(cache, searchText, now) && currentLocation.Some? && provider.Responds? ==>
      var gyms := SearchService.ProcessMapItems(provider.items);
      && r.cache == cache[searchText := SearchCache.Entry(gyms, provider.answeredAt)]
      && r.outcome == SearchService.Serve(gyms, page)
      && r.reports == []
  {
    var lookup := GetCachedResults(cache, searchText, now);
    if lookup.hit.Some? then Fetch(lookup.cache, SearchService.Page(lookup.hit.value), None, [])
    else if currentLocation.None? then
      Fetch(lookup.cache, SearchService.Thrown(LocationNotAvailable), None, [])
    else
      var q := SearchService.Query(searchText);
      match provider
      case Fails(why) => Fetch(lookup.cache, SearchService.Thrown(SearchFailed), Some(q), [ProviderError(why)])
      case Responds(items, answeredAt) =>
        var gyms := SearchService.ProcessMapItems(items);
        Fetch(SearchCache.Put(lookup.cache, gyms, searchText, answeredAt), SearchService.Serve(gyms, page), Some(q), [])
  }

  /** The cached answer ignores the page: every page number — including ones
      past the end, which trap on a fresh search — yields the same whole
      list, so 45 cached results come back 45 at a time. */
  lemma CachedAnswerIgnoresPage(
    loc: Option<Coordinate>, searchText: string, page: int, page2: int,
    cache: SearchCache.Cache, now: Instant, provider: SearchService.Provider)
    requires SearchService.Hit(cache, searchText, now)
    requires |cache[searchText].gyms| == 45
    ensures FetchNearbyGyms(loc, searchText, page, cache, now, provider).outcome
         == FetchNearbyGyms(loc, searchText, page2, cache, now, provider).outcome
    ensures var o := FetchNearbyGyms(loc, searchText, page, cache, now, provider).outcome;
            o.Page? && |o.gyms| == 45 && |o.gyms| > SearchService.PageSize
  {
  }

  /** Unlike the newer search, a cache hit is served even with no location. */
  lemma CacheBeforeLocation(searchText: string, page: int, cache: SearchCache.Cache, now: Instant,
                            provider: SearchService.Provider)
    requires SearchService.Hit(cache, searchText, now)
    ensures FetchNearbyGyms(None, searchText, page, cache, now, provider).outcome.Page?
    ensures SearchService.FetchNearbyGyms(None, searchText, page, cache, now, provider).outcome
         == SearchService.Thrown(LocationNotAvailable)
  {
  }

  /* ----- Saved gyms ----- */

  /** `saveGymLocation(_:)`: appended unless an identical record (every field
      equal) is already saved. */
  function SaveGymLocation(b: Blob<GymDetails>, gym: GymDetails, enc: Encoding): (r: GymStorage.Written)
    ensures gym in GymStorage.LoadSavedGyms(b).gyms ==>
      r == GymStorage.Written(b, GymStorage.LoadSavedGyms(b).reports, false)
    ensures gym !in GymStorage.LoadSavedGyms(b).gyms && enc.Encodes? ==>
      r.blob == Stored(GymStorage.LoadSavedGyms(b).gyms + [gym]) && r.notified
    ensures enc.EncodeFails? ==> r.blob == b && !r.notified
    ensures gym !in GymStorage.LoadSavedGyms(b).gyms ==>
      r.reports == GymStorage.LoadSavedGyms(b).reports
                   + (if enc.EncodeFails? then [SaveFailed(enc.reason)] else [])
  {
    var loaded := GymStorage.LoadSavedGyms(b);
    if gym in loaded.gyms then GymStorage.Written(b, loaded.reports, false)
    else GymStorage.WriteBack(b, loaded.gyms + [gym], enc, (why: string) => SaveFailed(why), loaded.reports)
  }

  /** The two duplicate rules disagree: a record that differs from every saved
      one (a new identifier, say) is kept by the older service even when it is
      within 50 metres of a saved gym, which the newer service refuses. */
  lemma DuplicateRulesDiffer(saved: seq<GymDetails>, gym: GymDetails, dist: GymStorage.Distance)
    requires gym !in saved
    requires exists i | 0 <= i < |saved| :: dist(saved[i].Coord(), gym.Coord()) <= GymStorage.DuplicateRadius
    ensures SaveGymLocation(Stored(saved), gym, Encodes).blob == Stored(saved + [gym])
    ensures GymStorage.SaveGym(Stored(saved), gym, dist, Encodes).blob == Stored(saved)
  {
  }

  /** `addVisit(for:)`: `now` is appended to the visits of the first saved gym
      with the identifier; an unknown identifier writes nothing. */
  function AddVisit(b: Blob<GymDetails>, gymId: Id, now: Instant, enc: Encoding): (r: GymStorage.Written)
    ensures var gyms := GymStorage.LoadSavedGyms(b).gyms;
      (forall i | 0 <= i < |gyms| :: gyms[i].id != gymId) ==>
        r == GymStorage.Written(b, GymStorage.LoadSavedGyms(b).reports, false)
    ensures var gyms := GymStorage.LoadSavedGyms(b).gyms;
      (exists i | 0 <= i < |gyms| :: gyms[i].id == gymId) && enc.Encodes? ==>
        && r.blob.Stored? && r.notified
        && |r.blob.items| == |gyms|
        && exists k | 0 <= k < |gyms| ::
             && gyms[k].id == gymId
             && (forall i | 0 <= i < k :: gyms[i].id != gymId)
             && r.blob.items[k] == gyms[k].(visits := gyms[k].visits + [now])
             && (forall i | 0 <= i < |gyms| && i != k :: r.blob.items[i] == gyms[i])
    ensures enc.EncodeFails? ==> r.blob == b && !r.notified
    ensures var gyms := GymStorage.LoadSavedGyms(b).gyms;
      (exists i | 0 <= i < |gyms| :: gyms[i].id == gymId) ==>
        r.reports == GymStorage.LoadSavedGyms(b).reports
                     + (if enc.EncodeFails? then [VisitUpdateFailed(enc.reason)] else [])
  {
    var loaded := GymStorage.LoadSavedGyms(b);
    match FirstIndex(loaded.gyms, (g: GymDetails) => g.id == gymId)
    case None => GymStorage.Written(b, loaded.reports, false)
    case Some(k) =>
      var updated := loaded.gyms[k := loaded.gyms[k].(visits := loaded.gyms[k].visits + [now])];
      GymStorage.WriteBack(b, updated, enc, (why: string) => VisitUpdateFailed(why), loaded.reports)
  }

  /** After `addVisit`, the gym's weekly count rises by one for a visit at or
      after the cutoff. */
  lemma AddVisitCounts(saved: seq<GymDetails>, k: nat, now: Instant, cutoff: Instant)
    requires k < |saved| && forall i | 0 <= i < k :: saved[i].id != saved[k].id
    requires now >= cutoff
    ensures var r := AddVisit(Stored(saved), saved[k].id, now, Encodes);
            r.blob.Stored? && |r.blob.items| == |saved|
            && VisitsThisWeek(r.blob.items[k], cutoff) == VisitsThisWeek(saved[k], cutoff) + 1
  {
    VisitsThisWeekAppend(saved[k], now, cutoff);
  }

  /** `deleteGymLocation(_:)`: load, drop every gym with the identifier,
      write back. It behaves exactly as the newer storage service's delete. */
  function DeleteGymLocation(b: Blob<GymDetails>, gym: GymDetails, enc: Encoding): (r: GymStorage.Written)
    ensures r == GymStorage.DeleteGym(b, gym, enc)
    ensures enc.Encodes? ==> forall i | 0 <= i < |r.blob.items| :: r.blob.items[i].id != gym.id
  {
    var loaded := GymStorage.LoadSavedGyms(b);
    var kept := Keep(loaded.gyms, OtherThan(gym.id));
    match enc
    case Encodes => GymStorage.Written(Stored(kept), loaded.reports, true)
    case EncodeFails(why) => GymStorage.Written(b, loaded.reports + [DeleteFailed(why)], false)
  }

  /* ----- Location-manager callbacks ----- */

  /** The older service's callbacks keep the same retry discipline: an
      accurate fix and a granted authorization both clear the counter, and
      no run of callbacks takes it past 3. Refusals are reported with the
      search-specific message. */
  lemma RetryPolicy(s: LocationTracking.Tracking, status: AuthorizationStatus,
                    fix: LocationTracking.Sample, events: seq<LocationTracking.Event>)
    requires LocationTracking.Valid(s)
    requires fix.horizontalAccuracy <= LocationTracking.AccuracyThreshold
    ensures LocationTracking.DidUpdateLocations(s, [fix]).retries == 0
    ensures LocationTracking.DidUpdateLocations(s, [fix]).currentLocation == Some(fix.coordinate)
    ensures LocationTracking.Authorized(status) ==>
      LocationTracking.DidChangeAuthorization(s, status, LocationAccessRequiredForSearch).state.retries == 0
    ensures status == Denied ==>
      LocationTracking.DidChangeAuthorization(s, status, LocationAccessRequiredForSearch).state.reports
      == s.reports + [LocationAccessRequiredForSearch]
    ensures LocationTracking.Valid(LocationTracking.Run(s, events, LocationAccessRequiredForSearch))
  {
    LocationTracking.RetriesBounded(s, events, LocationAccessRequiredForSearch);
  }
}
