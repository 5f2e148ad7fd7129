/** `GymSearchService.fetchNearbyGyms`: location guard, then the cache, then
    one map search whose hits are converted, sorted by distance, cached as a
    whole and served twenty per page. The map search itself is a parameter
    (`Provider`), as are the per-hit distances and identifiers it yields. */
module SearchService {
  import opened Base
  import opened GymModels
  import opened SearchModels
  import SearchCache

  const PageSize: nat := 20

  /** One hit of the map search together with what the platform computes for
      it: its distance from the user (`CLLocation.distance(from:)`) and the
      `UUID` minted for the result. */
  datatype RawResult = RawResult(item: MapItem, distance: real, freshId: Id)

  /** What the map search answers for the request. `answeredAt` is the clock
      reading taken after the search returns, which is the instant the cache
      write stamps; the lookup before the search reads the clock earlier. */
  datatype Provider = Responds(items: seq<RawResult>, answeredAt: Instant) | Fails(reason: string)

  /** The natural-language query sent to the map search. */
  function Query(searchText: string): (q: string)
    ensures searchText == "" ==> q == "gym fitness"
    ensures searchText != "" ==> q == searchText + " gym"
  {
    if searchText == "" then "gym fitness" else searchText + " gym"
  }

  /** Distinct search texts send distinct queries: no text is searched as
      the default "gym fitness", and the suffix " gym" can be taken off
      again. */
  lemma QueryInjective(a: string, b: string)
    ensures Query(a) == Query(b) <==> a == b
  {
    if a != "" && b != "" && Query(a) == Query(b) {
      assert a == Query(a)[..|a|] && b == Query(b)[..|b|];
    }
    if a != "" { NotDefaultQuery(a); }
    if b != "" { NotDefaultQuery(b); }
  }

  /** A typed text never produces the default query: it ends in "gym", the
      default in "fitness". */
  lemma NotDefaultQuery(s: string)
    requires s != ""
    ensures Query(s) != "gym fitness"
  {
    var q := Query(s);
    assert q[|q| - 1] == 'm';
    assert "gym fitness"[10] == 's';
  }

  /* ----- Sorting ----- */

  /** The sort key: the distance, with a missing one counted as zero. */
  function SortKey(g: NearbyGym): real {
    g.distance.GetOr(0.0)
  }

  predicate SortedByDistance(s: seq<NearbyGym>) {
    forall i, j | 0 <= i < j < |s| :: SortKey(s[i]) <= SortKey(s[j])
  }

  /** Insert into a sorted list, ahead of the first element that is not
      nearer. */
  function Insert(g: NearbyGym, s: seq<NearbyGym>): (r: seq<NearbyGym>)
    requires SortedByDistance(s)
    ensures SortedByDistance(r)
    ensures multiset(r) == multiset(s) + multiset{g}
    ensures |r| == |s| + 1
    ensures r[0] == g || (|s| > 0 && r[0] == s[0])
  {
    if |s| == 0 || SortKey(g) <= SortKey(s[0]) then [g] + s
    else
      assert s == [s[0]] + s[1..];
      [s[0]] + Insert(g, s[1..])
  }

  /** `sorted { ($0.distance ?? 0) < ($1.distance ?? 0) }`, as an insertion
      sort that keeps equal keys in their original order. */
  function SortByDistance(s: seq<NearbyGym>): (r: seq<NearbyGym>)
    ensures SortedByDistance(r)
    ensures multiset(r) == multiset(s)
    ensures |r| == |s|
  {
    if |s| == 0 then []
    else
      assert s == [s[0]] + s[1..];
      Insert(s[0], SortByDistance(s[1..]))
  }

  /** `NearbyGym.from` applied to every hit, in provider order. */
  function Converted(items: seq<RawResult>): (r: seq<NearbyGym>)
    ensures |r| == |items|
    ensures forall i | 0 <= i < |items| ::
      r[i] == From(items[i].item, items[i].distance, items[i].freshId)
  {
    seq(|items|, i requires 0 <= i < |items| => From(items[i].item, items[i].distance, items[i].freshId))
  }

  /** `processMapItems`: exactly one result per hit — the results are a
      rearrangement of the converted hits — ordered by ascending distance. */
  function ProcessMapItems(items: seq<RawResult>): (r: seq<NearbyGym>)
    ensures |r| == |items|
    ensures multiset(r) == multiset(Converted(items))
    ensures SortedByDistance(r)
  {
    SortByDistance(Converted(items))
  }

  /* ----- Pagination ----- */

  function Min(a: int, b: int): int {
    if a <= b then a else b
  }

  /** The Swift range `startIndex..<endIndex` is valid exactly when the page
      starts inside the list (or right at its end). */
  predicate PageInRange(count: nat, page: int) {
    page >= 1 && (page - 1) * PageSize <= count
  }

  /** `paginateResults`: the slice `[(page-1)*20, min(start+20, count))`. */
  function Paginate(gyms: seq<NearbyGym>, page: int): (r: seq<NearbyGym>)
    requires PageInRange(|gyms|, page)
    ensures |r| <= PageSize
    ensures |r| == Min(PageSize, |gyms| - (page - 1) * PageSize)
    ensures forall i | 0 <= i < |r| :: r[i] == gyms[(page - 1) * PageSize + i]
  {
    var start := (page - 1) * PageSize;
    gyms[start..Min(start + PageSize, |gyms|)]
  }

  /** Pages 1 to n laid end to end. */
  function Pages(gyms: seq<NearbyGym>, n: nat): seq<NearbyGym>
    requires n == 0 || PageInRange(|gyms|, n)
  {
    if n == 0 then [] else Pages(gyms, n - 1) + Paginate(gyms, n)
  }

  /** Pages neither overlap nor skip: the first n pages are exactly the first
      min(20n, count) results, in order. */
  lemma {:induction false} PagesPartition(gyms: seq<NearbyGym>, n: nat)
    requires n == 0 || PageInRange(|gyms|, n)
    ensures Pages(gyms, n) == gyms[..Min(n * PageSize, |gyms|)]
  {
    if n > 0 {
      var start := (n - 1) * PageSize;
      PagesPartition(gyms, n - 1);
      assert Pages(gyms, n - 1) == gyms[..start];
      assert gyms[..start] + gyms[start..Min(start + PageSize, |gyms|)]
          == gyms[..Min(n * PageSize, |gyms|)];
    }
  }

  /** Forty-five results make pages of 20, 20 and 5; asking for a fourth page
      traps. */
  lemma FortyFiveResults(gyms: seq<NearbyGym>)
    requires |gyms| == 45
    ensures |Paginate(gyms, 1)| == 20 && |Paginate(gyms, 2)| == 20 && |Paginate(gyms, 3)| == 5
    ensures !PageInRange(|gyms|, 4) && !PageInRange(|gyms|, 0)
  {
  }

  /* ----- The fetch ----- */

  /** How a call ends: a page of results, a thrown `LocationError`, or a
      runtime trap from an out-of-range page. */
  datatype Outcome = Page(gyms: seq<NearbyGym>) | Thrown(error: LocationError) | Trap

  /** Serve one page of a full result list. */
  function Serve(gyms: seq<NearbyGym>, page: int): (o: Outcome)
    ensures o.Trap? <==> !PageInRange(|gyms|, page)
    ensures o.Page? ==> o.gyms == Paginate(gyms, page)
  {
    if PageInRange(|gyms|, page) then Page(Paginate(gyms, page)) else Trap
  }

  /** The cache after the call, how it ended, and the query sent to the map
      search (`None` when the map search was not consulted). */
  datatype Fetch = Fetch(cache: SearchCache.Cache, outcome: Outcome, request: Option<string>)

  /** Whether the cache answers this text at this instant. */
  predicate Hit(cache: SearchCache.Cache, searchText: string, now: Instant) {
    searchText in cache && SearchCache.Fresh(cache[searchText], now)
  }

  /** `fetchNearbyGyms(near:searchText:page:)`. */
  function FetchNearbyGyms(
    location: Option<Coordinate>,
    searchText: string,
    page: int,
    cache: SearchCache.Cache,
    now: Instant,
    provider: Provider): (r: Fetch)
    // No location: thrown before the cache or the map search is touched.
    ensures location.None? ==> r == Fetch(cache, Thrown(LocationNotAvailable), None)
    // A cache hit is paged without searching and leaves the cache alone.
    ensures location.Some? && Hit(cache, searchText, now) ==>
      r == Fetch(cache, Serve(cache[searchText].gyms, page), None)
    // A miss searches with the derived query.
    ensures location.Some? && !Hit(cache, searchText, now) ==> r.request == Some(Query(searchText))
    // A failed search throws and caches nothing (an expired entry is still evicted).
    ensures location.Some? && !Hit(cache, searchText, now) && provider.Fails? ==>
      r.outcome == Thrown(SearchFailed) && r.cache == cache - {searchText}
    // A successful search caches the whole sorted list under the raw text.
    ensures location.Some? && !Hit(cache, searchText, now) && provider.Responds? ==>
      && r.cache == cache[searchText := SearchCache.Entry(ProcessMapItems(provider.items), provider.answeredAt)]
      && r.outcome == Serve(ProcessMapItems(provider.items), page)
    ensures r.outcome.Page? ==> |r.outcome.gyms| <= PageSize
  {
    if location.None? then Fetch(cache, Thrown(LocationNotAvailable), None)
    else
      var lookup := SearchCache.GetCached(cache, searchText, now);
      match lookup.hit
      case Some(cached) => Fetch(lookup.cache, Serve(cached, page), None)
      case None =>
        match provider
        case Fails(_) => Fetch(lookup.cache, Thrown(SearchFailed), Some(Query(searchText)))
        case Responds(items, answeredAt) =>
          var gyms := ProcessMapItems(items);
          Fetch(SearchCache.Put(lookup.cache, gyms, searchText, answeredAt), Serve(gyms, page), Some(Query(searchText)))
  }

  /** After a successful search, any page of the same text asked within the
      timeout of the search's answer is served from the cache, without
      searching again, from the same sorted list. */
  lemma RefetchServedFromCache(
    location: Coordinate, searchText: string, page: int, page2: int,
    cache: SearchCache.Cache, now: Instant, later: Instant, provider: Provider, provider2: Provider)
    requires provider.Responds? && !Hit(cache, searchText, now)
    requires provider.answeredAt <= later < provider.answeredAt + SearchCache.Timeout
    ensures var first := FetchNearbyGyms(Some(location), searchText, page, cache, now, provider);
            var second := FetchNearbyGyms(Some(location), searchText, page2, first.cache, later, provider2);
            && second.request.None?
            && second.cache == first.cache
            && second.outcome == Serve(ProcessMapItems(provider.items), page2)
  {
  }
}
