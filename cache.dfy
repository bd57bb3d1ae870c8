/** The per-domain display-hash cache with a time to live (`_is_cache_valid` and the
    cache-or-compute step of `_process_image_data`). The wall clock is an integer number of
    seconds passed in by the caller. */
module Cache {
  import opened Wrappers

  const CACHE_TTL_HOURS: int := 24
  /** `timedelta(hours=CACHE_TTL_HOURS)` in seconds. */
  const CACHE_TTL: int := CACHE_TTL_HOURS * 60 * 60

  datatype CacheEntry = CacheEntry(hash: Option<string>, expires: int)

  /** `_is_cache_valid`: the entry has not yet expired. */
  predicate IsCacheValid(entry: CacheEntry, now: int) {
    now < entry.expires
  }

  /** Look `domain` up at time `now`: a live entry's stored value is used and the cache stays as it
      is; otherwise `computed` (the tile's classification, `None` included) is stored with expiry
      `now + CACHE_TTL` and used. Returns the display value and the new cache. */
  function CacheOrCompute(cache: map<string, CacheEntry>, domain: string, now: int, computed: Option<string>)
    : (Option<string>, map<string, CacheEntry>)
  {
    if domain in cache && IsCacheValid(cache[domain], now) then (cache[domain].hash, cache)
    else (computed, cache[domain := CacheEntry(computed, now + CACHE_TTL)])
  }

  /** After a lookup the domain has a live entry holding the value used, no other entry changed,
      a hit changes nothing and a miss uses `computed` and keeps it for `CACHE_TTL`. */
  lemma CacheOrComputeSpec(cache: map<string, CacheEntry>, domain: string, now: int, computed: Option<string>)
    ensures var r := CacheOrCompute(cache, domain, now, computed);
            && r.1.Keys == cache.Keys + {domain}
            && (forall d :: d in cache && d != domain ==> r.1[d] == cache[d])
            && r.1[domain].hash == r.0 && IsCacheValid(r.1[domain], now)
            && (domain in cache && IsCacheValid(cache[domain], now) ==> r == (cache[domain].hash, cache))
            && (!(domain in cache && IsCacheValid(cache[domain], now)) ==>
                  r.0 == computed && r.1[domain].expires == now + CACHE_TTL)
  {
  }

  /** A second lookup of the same domain before the entry expires gives the same value, whatever
      the tile would now compute to, and leaves the cache as the first lookup left it. */
  lemma {:induction false} LookupWithinTtlIsStable(cache: map<string, CacheEntry>, domain: string,
                                                   t1: int, t2: int, first: Option<string>, second: Option<string>)
    requires var r := CacheOrCompute(cache, domain, t1, first); t2 < r.1[domain].expires
    ensures var r := CacheOrCompute(cache, domain, t1, first);
            CacheOrCompute(r.1, domain, t2, second) == r
  {
  }

  /** Once the entry has expired (`now` at or past its expiry), the value is recomputed. */
  lemma LookupAfterExpiryRecomputes(cache: map<string, CacheEntry>, domain: string, now: int, computed: Option<string>)
    requires domain in cache && cache[domain].expires <= now
    ensures CacheOrCompute(cache, domain, now, computed) ==
            (computed, cache[domain := CacheEntry(computed, now + CACHE_TTL)])
  {
  }
}
