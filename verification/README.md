# GoGym location engine in Dafny

A model of GoGym's GymLocation feature: its location engine, with the Apple
platform taken out. It covers five parts:

- the five-minute search cache (`SearchCache`);
- the nearby-gym search (`SearchService`, `SearchModels`). It guards on the location, consults the cache, converts and classifies map hits, sorts them by distance, and serves them twenty per page;
- the geofence tracker (`VisitTracking`, `VisitModels`). It keeps at most 20 monitored regions and a single current-visit slot, and also stores the visit history;
- the saved-gym store (`GymStorage`). It refuses a gym within 50 m of a saved one;
- the position-fix controller (`LocationTracking`). It accepts fixes of 100 m accuracy or better and retries at most 3 times.

The older monolithic `GymLocationService` gets its own small model
(`LegacyService`). It checks the cache before the location, returns cached
lists unpaged, and treats only an identical record as a duplicate.

Everything is pure functions over immutable datatypes, plus one method with a
loop (`RestartMonitoring`). The platform becomes explicit parameters:

- the clock (`now`) and the "one week ago" cutoff;
- the map search answer (`Provider`, with each hit's distance from the user and the fresh `UUID` of its result);
- the distance between two saved gyms (`dist`);
- the location manager's count of monitored regions;
- the UserDefaults contents (`Blob`: absent, undecodable, or a decoded list) and the outcome of JSON encoding (`Encoding`).

The shared error handler is an appended list of `Report`s. Posted
notifications show up as a `notified` flag, or as the visit a region event
posts. `Double` and `Date` are `real` and `UUID` is `nat`.

The model follows the code as written, in particular:

- a second region entry replaces the open visit instead of being ignored;
- a page past the end traps instead of being empty;
- "crossfit" is checked before "yoga";
- there is one map query with no radius expansion and no coordinate-grid deduplication.

## Model

| member | source | states |
|---|---|---|
| `GymModels.FromRawValue` | Features/GymLocation/Models/GymLocationModels.swift:12-18 | exactly the five raw values decode to a type; every other string decodes to nothing |
| `GymModels.GymTypeRawValues` | Features/GymLocation/Models/GymLocationModels.swift:12-18 | `allCases` lists five distinct types, every type among them; decoding a type's raw value returns that type, and a decoded string is the raw value of its type |
| `GymModels.DescriptionsDistinct` | Features/GymLocation/Models/GymLocationModels.swift:25-34 | two errors share a message exactly when they are the same error |
| `GymModels.SameNearbyGymIsEquality` | Features/GymLocation/Models/GymLocationModels.swift:52-60 | the hand-written `==` over id, name, both coordinates, address, distance and type holds exactly when the records are equal |
| `GymModels.RawValue` | Features/GymLocation/Models/GymLocationModels.swift:12-18 | decoding a type's raw value gives that type back |
| `GymModels.Description` | Features/GymLocation/Models/GymLocationModels.swift:25-34 | every message is non-empty, and the permission-denied message is exactly the text the older service reports when location access is refused, used by no other error |
| `GymModels.VisitsThisWeek` | Features/GymLocation/Models/GymLocationModels.swift:83-87 | the weekly count never exceeds the number of visits, and reaches it exactly when every visit is at or after the cutoff |
| `GymModels.VisitsThisWeekAppend` | Features/GymLocation/Models/GymLocationModels.swift:83-87 | one more visit raises the count by 1 if it is at or after the cutoff, and by 0 otherwise |
| `SearchCache.GetCached` | Features/GymLocation/Services/SearchCache.swift:15-22 | a fresh entry (age < 300 s) is returned unchanged with the cache untouched; an expired one misses and its key is removed; an absent key misses with the cache unchanged; other keys are never affected |
| `SearchCache.Put` | Features/GymLocation/Services/SearchCache.swift:24-26 | the query's entry becomes the list stamped `now`; every other key keeps its entry |
| `SearchCache.Clear` | Features/GymLocation/Services/SearchCache.swift:28-30 | afterwards every lookup misses, at any instant |
| `SearchCache.PutThenGet` | Features/GymLocation/Services/SearchCache.swift:12-26 | a stored list is returned as stored by any lookup less than 300 s later, and that lookup leaves the cache as it was |
| `SearchCache.PutThenExpire` | Features/GymLocation/Services/SearchCache.swift:15-26 | 300 s or more after storing, the lookup misses and evicts the key |
| `SearchCache.PutOverwrites` | Features/GymLocation/Services/SearchCache.swift:24-26 | re-caching a key replaces the older list and timestamp completely, so the new list is served |
| `SearchModels.DetermineGymType` | Features/GymLocation/Models/GymSearchModels.swift:35-46 | classification never yields `.other` |
| `SearchModels.DetermineGymTypeFollowsTable` | Features/GymLocation/Models/GymSearchModels.swift:35-46 | the classification is the first matching row of the priority table crossfit, then yoga, then martial/karate/jiu, with fitness when no keyword occurs |
| `SearchModels.DetermineGymTypeIgnoresCase` | Features/GymLocation/Models/GymSearchModels.swift:36 | a name and its lower-cased form classify alike |
| `SearchModels.MissingNameIsFitness` | Features/GymLocation/Models/GymSearchModels.swift:36-45 | a map item without a name is a fitness centre |
| `SearchModels.FormatAddress` | Features/GymLocation/Models/GymSearchModels.swift:24-33 | with every component absent, the address is empty |
| `SearchModels.FormatAddressRoundTrip` | Features/GymLocation/Models/GymSearchModels.swift:24-33 | when the present components contain no spaces, splitting the address on spaces gives back exactly those components, in the order sub-thoroughfare, thoroughfare, locality, administrative area |
| `SearchModels.FormatAddressSingle` | Features/GymLocation/Models/GymSearchModels.swift:24-33 | when exactly one of the four components is present, in any position, the address is that component alone, with no separator |
| `SearchModels.From` | Features/GymLocation/Models/GymSearchModels.swift:13-22 | the result keeps the hit's coordinate, gets the fresh id and given distance, and is named "Unknown Gym" when the hit has no name; its type is the classification of the hit's name (never `.other`) and its address is the formatted placemark |
| `SearchModels.FromYogaStudio` | Features/GymLocation/Models/GymSearchModels.swift:13-22 | a hit whose name contains "Yoga" and whose lowered name does not mention crossfit becomes a yoga studio, whatever the rest of the name |
| `SearchService.Query` | Features/GymLocation/Services/GymSearchService.swift:39 | empty text searches "gym fitness"; any other text searches that text followed by " gym" |
| `SearchService.QueryInjective` | Features/GymLocation/Services/GymSearchService.swift:39 | two texts send the same query exactly when they are the same text: no typed text yields the default query, and the suffix is removable |
| `SearchService.SortByDistance` | Features/GymLocation/Services/GymSearchService.swift:67 | the output is a rearrangement of the input, in ascending distance, with a missing distance counted as 0 |
| `SearchService.ProcessMapItems` | Features/GymLocation/Services/GymSearchService.swift:60-68 | exactly one result per map hit: the results have the same multiset as the converted hits, sorted by ascending distance |
| `SearchService.Paginate` | Features/GymLocation/Services/GymSearchService.swift:70-74 | usable only when page ≥ 1 and (page-1)·20 ≤ count; a page holds min(20, count − start) results, element i being result start + i |
| `SearchService.PagesPartition` | Features/GymLocation/Services/GymSearchService.swift:70-74 | pages 1..n laid end to end are exactly the first min(20n, count) results: pages never overlap or skip |
| `SearchService.FortyFiveResults` | Features/GymLocation/Services/GymSearchService.swift:70-74 | 45 results give pages of 20, 20 and 5; pages 0 and 4 are out of range |
| `SearchService.Serve` | Features/GymLocation/Services/GymSearchService.swift:70-74 | an out-of-range page traps, and any other page is served |
| `SearchService.FetchNearbyGyms` | Features/GymLocation/Services/GymSearchService.swift:25-57 | no location throws `locationNotAvailable` without touching the cache or search. A hit pages the cached list without searching or changing the cache. A miss searches for `Query(text)`. A failed search throws `searchFailed` and caches nothing. A successful one caches the full sorted list under the raw text, stamped with the clock reading taken after the search answered, and serves a page. A served page never exceeds 20 |
| `SearchService.RefetchServedFromCache` | Features/GymLocation/Services/GymSearchService.swift:34-52 | less than 300 s after a successful search answered, any page of the same text comes from the cached list with no new search |
| `VisitModels.IsActive` | Features/GymLocation/Models/GymVisitModels.swift:15-17 | a visit is active until an end time is set; `Duration` is absent exactly for active visits |
| `VisitModels.Duration` | Features/GymLocation/Models/GymVisitModels.swift:10-17 | a visit has no duration exactly when it is active; otherwise start + duration = end |
| `VisitModels.CloseVisit` | Features/GymLocation/Models/GymVisitModels.swift:10-17 | setting the end time to t makes the visit inactive, with duration t − start and the same id and gym |
| `VisitModels.LoadVisits` | Features/GymLocation/Models/GymVisitModels.swift:37-48 | missing or undecodable data loads as no visits; decoded data loads as stored |
| `VisitModels.SaveVisit` | Features/GymLocation/Models/GymVisitModels.swift:23-27 | the history grows by one: earlier visits are kept as a prefix and the new visit is last; a failed encode writes nothing |
| `VisitModels.UpdateVisit` | Features/GymLocation/Models/GymVisitModels.swift:29-35 | with no visit of that id, or a failed encode, the store is untouched; otherwise the list is stored with its length kept and only the first visit with that id replaced |
| `VisitModels.SaveThenClose` | Features/GymLocation/Models/GymVisitModels.swift:23-35 | saving a visit with a new id and then updating it with an end time leaves the earlier history followed by the closed visit |
| `VisitModels.LoadVisitsFor` | Features/GymLocation/Models/GymVisitModels.swift:50-52 | the result holds exactly the stored visits of that gym |
| `VisitModels.SaveThenLoadFor` | Features/GymLocation/Models/GymVisitModels.swift:23-52 | after a save, a gym's history is its old history, followed by the new visit if the visit is to that gym, so stored order is kept |
| `VisitTracking.StartMonitoring` | Features/GymLocation/Services/GymVisitTrackingService.swift:52-75 | an already-monitored gym changes nothing; at 20 provider regions only an error is reported; otherwise the id joins the set and the gym is appended to the list |
| `VisitTracking.StopMonitoring` | Features/GymLocation/Services/GymVisitTrackingService.swift:77-84 | the id leaves the set; the list becomes the ordered filter of the gyms with other ids, so no listed gym keeps the id and the rest stay in order; an unlisted id leaves the list unchanged |
| `VisitTracking.StopKeepsOrder` | Features/GymLocation/Services/GymVisitTrackingService.swift:83 | stopping the gym between `before` and `after` leaves exactly `before + after` |
| `VisitTracking.StopMonitoringAll` | Features/GymLocation/Services/GymVisitTrackingService.swift:86-90 | afterwards no gym is monitored and the list is empty; the visit slot is untouched |
| `VisitTracking.StartThenStop` | Features/GymLocation/Services/GymVisitTrackingService.swift:52-84 | starting then stopping a new gym below capacity restores the tracker exactly |
| `VisitTracking.StartPreservesValid` | Features/GymLocation/Services/GymVisitTrackingService.swift:52-75 | starting keeps the list free of repeated ids and in step with the id set |
| `VisitTracking.StopPreservesValid` | Features/GymLocation/Services/GymVisitTrackingService.swift:77-84 | stopping keeps the list free of repeated ids and in step with the id set |
| `VisitTracking.IsMonitoringMatchesList` | Features/GymLocation/Services/GymVisitTrackingService.swift:92-94 | under that invariant, `isMonitoring` holds exactly for gyms whose id is listed |
| `VisitTracking.IsMonitoring` | Features/GymLocation/Services/GymVisitTrackingService.swift:92-94 | asked of the identifier set; under the list/set invariant it holds exactly when a listed gym has the id |
| `VisitTracking.CapacityKept` | Features/GymLocation/Services/GymVisitTrackingService.swift:58-62 | when the provider count is the service's own set, a start never takes it past 20 |
| `VisitTracking.RestartMonitoring` | Features/GymLocation/Services/GymVisitTrackingService.swift:44-49 | with the provider count mirroring the id set, stopping and restarting every listed gym leaves the tracker exactly as it was: same ids, same gym order, no report |
| `VisitTracking.DidEnterRegion` | Features/GymLocation/Services/GymVisitTrackingService.swift:132-151 | an unmonitored region changes nothing; a monitored one puts a fresh open visit for that gym in the slot (replacing any) and posts it |
| `VisitTracking.DidExitRegion` | Features/GymLocation/Services/GymVisitTrackingService.swift:153-168 | only when the open visit is for the monitored gym being left is the slot cleared, and that visit is posted closed at `now`; otherwise nothing changes |
| `VisitTracking.MonitoringDidFail` | Features/GymLocation/Services/GymVisitTrackingService.swift:170-172 | a monitoring failure only adds a report, so tracking intent survives |
| `VisitTracking.VisitLifecycle` | Features/GymLocation/Services/GymVisitTrackingService.swift:132-168 | entering a monitored gym then leaving it d seconds later posts one closed visit of that gym, lasting d, and empties the slot |
| `VisitTracking.ReentryReplacesVisit` | Features/GymLocation/Services/GymVisitTrackingService.swift:132-144 | a second entry without an exit leaves one open visit, the newer one |
| `VisitTracking.AuthorizationChanged` | Features/GymLocation/Services/GymVisitTrackingService.swift:96-130 | "always" permission is requested exactly when the status is undetermined or when-in-use; a refusal is reported; nothing else changes |
| `GymStorage.LoadSavedGyms` | Features/GymLocation/Services/GymStorageService.swift:54-65 | missing data reads as no gyms silently; undecodable data reads as no gyms and is reported |
| `GymStorage.SaveGym` | Features/GymLocation/Services/GymStorageService.swift:22-39 | a gym within 50 m (inclusive) of a saved one is refused with a report and the store untouched; otherwise it is appended with earlier gyms kept as a prefix; a failed encode writes nothing and is reported after any failed read; a good write adds no report |
| `GymStorage.DeleteGym` | Features/GymLocation/Services/GymStorageService.swift:41-52 | every gym with the id goes, every other stays, in the original order (the ordered filter); an absent id rewrites the same list; a failed encode writes nothing and is reported after any failed read; a good write adds no report |
| `GymStorage.DeleteKeepsOrder` | Features/GymLocation/Services/GymStorageService.swift:41-52 | deleting the gym between `before` and `after` stores exactly `before + after` |
| `GymStorage.IsDuplicate` | Features/GymLocation/Services/GymStorageService.swift:68-74 | a gym is not a duplicate exactly when every saved gym is more than 50 m away; with nothing saved it never is |
| `GymStorage.SavePreservesSpacing` | Features/GymLocation/Services/GymStorageService.swift:22-31 | if no two saved gyms are within 50 m, none are after any save |
| `GymStorage.ThirtyVersusSixtyMetres` | Features/GymLocation/Services/GymStorageService.swift:68-74 | a gym 30 m from a saved one is refused and the store unchanged; one 60 m from all is appended |
| `GymStorage.SaveOverUndecodable` | Features/GymLocation/Services/GymStorageService.swift:22-65 | saving over undecodable data reports the failed read, then stores a list holding only the new gym |
| `LocationTracking.DidChangeAuthorization` | Features/GymLocation/Services/LocationTrackingService.swift:61-75 | the new status is always published. An authorized status starts updates and resets retries to 0. A refusal reports and keeps retries. Undetermined asks for permission |
| `LocationTracking.DidUpdateLocations` | Features/GymLocation/Services/LocationTrackingService.swift:77-83 | a last sample with accuracy ≤ 100 becomes the location and resets retries; an empty batch or a less accurate last sample changes nothing |
| `LocationTracking.OnlyLastSampleCounts` | Features/GymLocation/Services/LocationTrackingService.swift:78-79 | batches ending in the same sample have the same effect, whatever came before it |
| `LocationTracking.DidFail` | Features/GymLocation/Services/LocationTrackingService.swift:85-92 | below 3 retries the counter goes up by one and updates restart; at 3 the error is reported and the counter stays |
| `LocationTracking.StartUpdatingLocation` | Features/GymLocation/Services/LocationTrackingService.swift:41-52 | authorized starts updates, undetermined asks for permission, refused reports |
| `LocationTracking.RetriesBounded` | Features/GymLocation/Services/LocationTrackingService.swift:20-92 | over any sequence of callbacks the retry counter stays between 0 and 3 |
| `LocationTracking.ConsecutiveFailures` | Features/GymLocation/Services/LocationTrackingService.swift:85-92 | n failures in a row from 0 leave the counter at min(n, 3) and report n − 3 of them when n > 3 |
| `LegacyService.GetCachedResults` | Features/GymLocation/GymLocationService.swift:252-262 | the older lookup's two guards behave exactly like the newer cache's lookup: fresh entries hit, expired ones are evicted |
| `LegacyService.FetchNearbyGyms` | Features/GymLocation/GymLocationService.swift:90-128 | a cache hit comes first, needs no location and is the whole list. Otherwise no location throws `locationNotAvailable`. A failed search is reported and thrown as `searchFailed`. A successful one caches the full sorted list under the raw text and serves a page |
| `LegacyService.CachedAnswerIgnoresPage` | Features/GymLocation/GymLocationService.swift:93-96 | on a hit every page number yields the same list; 45 cached results come back all 45 at once |
| `LegacyService.CacheBeforeLocation` | Features/GymLocation/GymLocationService.swift:93-101 | with no location, a hit is still served by the older service, while the newer one throws |
| `LegacyService.SaveGymLocation` | Features/GymLocation/GymLocationService.swift:204-219 | an identical saved record leaves the store alone; any other gym is appended; a failed encode writes nothing and is reported after any failed read; a good write adds no report |
| `LegacyService.DuplicateRulesDiffer` | Features/GymLocation/GymLocationService.swift:207 | a new record within 50 m of a saved gym is kept by the older service but refused by the newer one |
| `LegacyService.AddVisit` | Features/GymLocation/GymLocationService.swift:148-165 | an unknown id writes nothing. Otherwise, only the first gym with that id gains `now` at the end of its visits, and every other gym and the length are unchanged; a failed encode writes nothing and is reported after any failed read; a good write adds no report |
| `LegacyService.AddVisitCounts` | Features/GymLocation/GymLocationService.swift:148-165 | a visit added at or after the cutoff raises that gym's weekly count by exactly 1 |
| `LegacyService.DeleteGymLocation` | Features/GymLocation/GymLocationService.swift:132-145 | the older delete behaves exactly as the newer store's delete, and keeps no gym with the id |
| `LegacyService.RetryPolicy` | Features/GymLocation/GymLocationService.swift:296-345 | an accurate fix and a granted authorization both reset retries to 0; a denial reports the search-specific message; no run of callbacks takes retries past 3 |
| `VisitStats.VisitsThisWeek` | Features/GymLocation/Views/GymVisitViews.swift:29-33 | the count never exceeds the number of visits, and reaches it exactly when every visit started at or after the cutoff |
| `VisitStats.VisitsThisWeekAppend` | Features/GymLocation/Views/GymVisitViews.swift:29-33 | one more visit raises the count by 1 exactly when it started at or after the cutoff |
| `VisitStats.LastVisit` | Features/GymLocation/Views/GymVisitViews.swift:35-37 | it is absent exactly when there are no visits; otherwise it is the start time of some visit and no visit started later |

## Left out

- The map search, the location manager and `CLLocation.distance` are platform calls over floating point. Their answers are parameters. `Double` is `real`, so NaN, infinities and rounding are not modelled.
- `String.lowercased()` is modelled on ASCII letters only. Unicode case mapping is not modelled.
- `SearchModels.Contains`: Swift's `String.contains` matches whole `Character`s (grapheme clusters), while the model matches code points. A name with "jiu" followed by a combining accent is martial arts in the model but not in Swift.
- UserDefaults and JSON coding are modelled as `Blob` and `Encoding`. Byte formats are not modelled.
- The legacy `loadSavedGym()` is not modelled. It reads a separate single-record key that nothing in the engine writes.
- `VisitStorageManager` prints its errors to the console. Those prints are not reports.
- NotificationCenter posts, Combine publishing, the `locationUpdates()` stream and `@MainActor`/`async` scheduling are plumbing and concurrency. A post is the `notified` flag or a `Step`'s visit.
- The error handler's main-queue dispatch is not modelled. A report is an appended `Report`.
- The location manager's own monitored-region set is not modelled, and neither are its start/stop calls. Only its count matters, and that is a parameter of `StartMonitoring`.
- `setupLocationManager` configuration, permission-request pass-throughs and debug logging do not affect state.
- Geofence-radius constants and the `annotation`/`coordinate` conveniences are not used by the modelled logic.
- The search sends one map query per call. There is no multi-query fan-out, radius expansion, or merge and deduplication step to model.
- `SearchService.SortByDistance`: the contract promises the ordering and the multiset, not stability. The model's insertion sort keeps equal distances in input order, but the order among equal distances is not stated.
- `VisitTracking.RestartMonitoring`: it assumes that the location manager's region count equals the service's own set, and that at most 20 regions are monitored. Without that assumption, re-starting a gym can hit the 20-region limit and drop it.
- `SearchService.Paginate`: page arithmetic uses unbounded integers. A page large enough to overflow `Int` traps in Swift, and it is also out of range in the model.

## Findings

| source | as written | input that shows it | evidently intended | confidence | as-written member | corrected member |
|---|---|---|---|---|---|---|
| Features/GymLocation/GymLocationService.swift:93-96 | on a cache hit, `fetchNearbyGyms` returns the whole cached list and ignores `page` | 45 results cached for a text; page 2 is asked within 300 s; all 45 come back, the same as page 1 | serve `paginateResults(cached, page:)`, as the miss path at line 121 does | likely; not executed | `LegacyService.FetchNearbyGyms` / `LegacyService.CachedAnswerIgnoresPage` | `SearchService.FetchNearbyGyms` |
