/** `SearchCache`: search results kept per query string for five minutes.
    An expired entry is dropped only when its own key is looked up; nothing
    sweeps the map. The clock is a parameter (`now`). */
module SearchCache {
  import opened Base
  import opened GymModels

  /** Seconds an entry stays usable. */
  const Timeout: real := 300.0

  datatype Entry = Entry(gyms: seq<NearbyGym>, timestamp: Instant)

  type Cache = map<string, Entry>

  /** An entry is usable while it is younger than the timeout. */
  predicate Fresh(e: Entry, now: Instant) {
    now - e.timestamp < Timeout
  }

  /** The cache after a lookup, and what the lookup returned. */
  datatype Lookup = Lookup(cache: Cache, hit: Option<seq<NearbyGym>>)

  /** `getCached(for:)`: a present, fresh entry is returned untouched; in every
      other case the key is removed (a no-op when absent) and nothing is
      returned. */
  function GetCached(c: Cache, query: string, now: Instant): (r: Lookup)
    ensures query in c && Fresh(c[query], now) ==> r == Lookup(c, Some(c[query].gyms))
    ensures query in c && !Fresh(c[query], now) ==> r.hit.None? && query !in r.cache
    ensures query !in c ==> r == Lookup(c, None)
    ensures forall k | k != query :: (k in r.cache <==> k in c)
    ensures forall k | k != query && k in c :: r.cache[k] == c[k]
  {
    if query in c && Fresh(c[query], now) then Lookup(c, Some(c[query].gyms))
    else Lookup(c - {query}, None)
  }

  /** `cache(_:for:)`: store the list under the query, stamped with `now`,
      replacing any older entry for that query. */
  function Put(c: Cache, gyms: seq<NearbyGym>, query: string, now: Instant): (r: Cache)
    ensures query in r && r[query] == Entry(gyms, now)
    ensures forall k | k != query :: (k in r <==> k in c)
    ensures forall k | k != query && k in c :: r[k] == c[k]
  {
    c[query := Entry(gyms, now)]
  }

  /** `clear()`. */
  function Clear(c: Cache): (r: Cache)
    ensures forall q, now :: GetCached(r, q, now).hit.None?
  {
    map[]
  }

  /** Storing then looking up at any instant less than the timeout later
      returns exactly what was stored, and the cache is not changed by the
      lookup. */
  lemma PutThenGet(c: Cache, gyms: seq<NearbyGym>, query: string, stored: Instant, later: Instant)
    requires stored <= later < stored + Timeout
    ensures GetCached(Put(c, gyms, query, stored), query, later)
         == Lookup(Put(c, gyms, query, stored), Some(gyms))
  {
  }

  /** Once the timeout has elapsed the same entry is gone: the lookup misses
      and evicts it. */
  lemma PutThenExpire(c: Cache, gyms: seq<NearbyGym>, query: string, stored: Instant, later: Instant)
    requires later >= stored + Timeout
    ensures GetCached(Put(c, gyms, query, stored), query, later).hit.None?
    ensures query !in GetCached(Put(c, gyms, query, stored), query, later).cache
  {
  }

  /** Re-caching an existing key replaces its list and restarts its clock, so
      an entry that had expired is usable again. */
  lemma PutOverwrites(c: Cache, previous: seq<NearbyGym>, gyms: seq<NearbyGym>, query: string, t0: Instant, t1: Instant)
    requires t0 <= t1
    ensures Put(Put(c, previous, query, t0), gyms, query, t1) == Put(c, gyms, query, t1)
    ensures GetCached(Put(Put(c, previous, query, t0), gyms, query, t1), query, t1).hit == Some(gyms)
  {
  }
}
