/** `FaviconAnalyzer`: the state one run accumulates (the hash groups with their insertion order,
    the seen pairs and the display-hash cache) and the methods that update and report it. */
module Analyzer {
  import opened Wrappers
  import opened Seqs
  import opened Text
  import opened Tiles
  import opened Aggregation
  import opened Cache
  import opened Report
  import Batching

  /** The analyzer's state as a value: its tally and its cache. */
  datatype AnalyzerState = AnalyzerState(tally: Tally, cache: map<string, CacheEntry>)

  /** The classification of domain `idx`'s band when a composite image is cut into `|domains|`
      bands. */
  function TileValue(img: Image, domains: seq<string>, idx: nat, showWhiteHashes: bool,
                     sha256: seq<byte> -> Sha256Hex): Option<string>
    requires idx < |domains|
  {
    ProcessTile(Band(img, |domains|, idx), showWhiteHashes, sha256)
  }

  /** `tiles` holds the classification of every domain's band, in domain order. */
  ghost predicate TilesOf(tiles: seq<Option<string>>, img: Image, domains: seq<string>, showWhiteHashes: bool,
                          sha256: seq<byte> -> Sha256Hex) {
    && |tiles| == |domains|
    && forall i {:trigger TileValue(img, domains, i, showWhiteHashes, sha256)} :: 0 <= i < |domains| ==>
         tiles[i] == TileValue(img, domains, i, showWhiteHashes, sha256)
  }

  /** The classification of every domain's band, in domain order. */
  function TileValues(img: Image, domains: seq<string>, showWhiteHashes: bool,
                      sha256: seq<byte> -> Sha256Hex): (tiles: seq<Option<string>>)
    ensures TilesOf(tiles, img, domains, showWhiteHashes, sha256)
  {
    TilesUpTo(img, domains, |domains|, showWhiteHashes, sha256)
  }

  /** The classifications of the first `k` domains' bands. */
  function TilesUpTo(img: Image, domains: seq<string>, k: nat, showWhiteHashes: bool,
                     sha256: seq<byte> -> Sha256Hex): (tiles: seq<Option<string>>)
    requires k <= |domains|
    ensures |tiles| == k
    ensures forall i {:trigger TileValue(img, domains, i, showWhiteHashes, sha256)} :: 0 <= i < k ==>
              tiles[i] == TileValue(img, domains, i, showWhiteHashes, sha256)
  {
    if k == 0 then []
    else TilesUpTo(img, domains, k - 1, showWhiteHashes, sha256) + [TileValue(img, domains, k - 1, showWhiteHashes, sha256)]
  }

  /** One domain: take its live cached value, or else `computed` (the classification of its band)
      and cache that, then record the pair. */
  function ProcessDomain(s: AnalyzerState, domain: string, computed: Option<string>, now: int): AnalyzerState {
    var looked := CacheOrCompute(s.cache, domain, now, computed);
    AnalyzerState(Record(s.tally, domain, looked.0), looked.1)
  }

  /** The first `k` domains processed in order, `tiles[i]` being the classification of domain `i`. */
  function ProcessDomains(s: AnalyzerState, domains: seq<string>, tiles: seq<Option<string>>, k: nat,
                          now: int): AnalyzerState
    requires k <= |domains| == |tiles|
  {
    if k == 0 then s
    else ProcessDomain(ProcessDomains(s, domains, tiles, k - 1, now), domains[k - 1], tiles[k - 1], now)
  }

  lemma RecordGrowsSeen(t: Tally, domain: string, hash: Option<string>)
    ensures t.seen <= Record(t, domain, hash).seen
    ensures Truthy(hash) ==> (domain, hash.value) in Record(t, domain, hash).seen
  {
  }

  /** Domain `d` has a cache entry that is live at `now` and whose value, when truthy, is
      recorded in the seen set. */
  ghost predicate Settled(r: AnalyzerState, d: string, now: int) {
    && d in r.cache
    && IsCacheValid(r.cache[d], now)
    && (Truthy(r.cache[d].hash) ==> (d, r.cache[d].hash.value) in r.tally.seen)
  }

  /** One domain's step only adds seen pairs, settles the domain, keeps every settled domain
      settled and touches no other domain's entry. */
  lemma ProcessDomainEffect(p: AnalyzerState, d: string, computed: Option<string>, now: int)
    ensures var r := ProcessDomain(p, d, computed, now);
            && p.tally.seen <= r.tally.seen
            && Settled(r, d, now)
            && (forall e :: Settled(p, e, now) ==> Settled(r, e, now))
            && (forall e :: e != d ==> (e in r.cache <==> e in p.cache) && (e in p.cache ==> r.cache[e] == p.cache[e]))
  {
    var looked := CacheOrCompute(p.cache, d, now, computed);
    CacheOrComputeSpec(p.cache, d, now, computed);
    RecordGrowsSeen(p.tally, d, looked.0);
  }

  /** Processing the domains of an image keeps the aggregator's invariant. */
  lemma {:induction false} ProcessDomainsKeepsInv(s: AnalyzerState, domains: seq<string>,
                                                  tiles: seq<Option<string>>, k: nat, now: int)
    requires k <= |domains| == |tiles| && Inv(s.tally)
    ensures Inv(ProcessDomains(s, domains, tiles, k, now).tally)
  {
    if k > 0 {
      var p := ProcessDomains(s, domains, tiles, k - 1, now);
      ProcessDomainsKeepsInv(s, domains, tiles, k - 1, now);
      var looked := CacheOrCompute(p.cache, domains[k - 1], now, tiles[k - 1]);
      RecordKeepsInv(p.tally, domains[k - 1], looked.0);
    }
  }

  /** After the domains of an image are processed, every one of them has a cache entry that is
      live at `now` and whose value, when truthy, is recorded in the seen set (so the report agrees
      with the cache), and no seen pair is lost. */
  lemma {:induction false} ProcessDomainsSettles(s: AnalyzerState, domains: seq<string>,
                                                 tiles: seq<Option<string>>, k: nat, now: int)
    requires k <= |domains| == |tiles|
    ensures var r := ProcessDomains(s, domains, tiles, k, now);
            && s.tally.seen <= r.tally.seen
            && forall i :: 0 <= i < k ==> Settled(r, domains[i], now)
  {
    if k > 0 {
      var p := ProcessDomains(s, domains, tiles, k - 1, now);
      ProcessDomainsSettles(s, domains, tiles, k - 1, now);
      ProcessDomainEffect(p, domains[k - 1], tiles[k - 1], now);
    }
  }

  /** Processing the domains of an image leaves the cache entries of all other domains untouched. */
  lemma {:induction false} ProcessDomainsFrame(s: AnalyzerState, domains: seq<string>,
                                               tiles: seq<Option<string>>, k: nat, now: int)
    requires k <= |domains| == |tiles|
    ensures var r := ProcessDomains(s, domains, tiles, k, now);
            forall d :: d !in domains[..k] ==>
              (d in r.cache <==> d in s.cache) && (d in s.cache ==> r.cache[d] == s.cache[d])
  {
    if k > 0 {
      var p := ProcessDomains(s, domains, tiles, k - 1, now);
      ProcessDomainsFrame(s, domains, tiles, k - 1, now);
      ProcessDomainEffect(p, domains[k - 1], tiles[k - 1], now);
      assert domains[..k] == domains[..k - 1] + [domains[k - 1]];
    }
  }

  /** What `format_results` builds for each output format before rendering it. */
  datatype Rendered = Json(entries: seq<Item>) | Csv(text: string) | Table(rows: seq<TableRow>)

  /** The CSV branch of `format_results`: the header line, then one line per item, joined by
      newlines. */
  method RenderCsv(sorted: seq<Item>) returns (text: string)
    ensures text == CsvText(sorted)
  {
    var csvLines := [CSV_HEADER];
    var i := 0;
    while i < |sorted|
      invariant 0 <= i <= |sorted|
      invariant csvLines == [CSV_HEADER] + Map(sorted[..i], CsvLine)
    {
      MapPrefixStep([CSV_HEADER], sorted, CsvLine, i);
      csvLines := csvLines + [CsvLine(sorted[i])];
      i := i + 1;
    }
    assert sorted[..i] == sorted;
    text := Join("\n", csvLines);
  }

  /** The table branch of `format_results`: one row per item, in order. */
  method RenderTable(sorted: seq<Item>) returns (table: seq<TableRow>)
    ensures table == Map(sorted, TableRowOf)
  {
    table := [];
    var i := 0;
    while i < |sorted|
      invariant 0 <= i <= |sorted|
      invariant table == Map(sorted[..i], TableRowOf)
    {
      MapPrefixStep([], sorted, TableRowOf, i);
      table := table + [TableRowOf(sorted[i])];
      i := i + 1;
    }
    assert sorted[..i] == sorted;
  }

  class FaviconAnalyzer {
    var results: map<string, HashGroup>
    /** The keys of `results` in insertion order (Python dicts keep it). */
    var order: seq<string>
    var seenEntries: set<(string, string)>
    var cache: map<string, CacheEntry>

    function Tally(): Tally
      reads this
    {
      Aggregation.Tally(order, results, seenEntries)
    }

    function State(): AnalyzerState
      reads this
    {
      AnalyzerState(Tally(), cache)
    }

    ghost predicate Valid()
      reads this
    {
      Inv(Tally())
    }

    constructor ()
      ensures Valid()
      ensures State() == AnalyzerState(EMPTY_TALLY, map[])
    {
      results := map[];
      order := [];
      seenEntries := {};
      cache := map[];
    }

    /** `_init_cache`: an empty cache; the results are left alone. */
    method InitCache()
      modifies this
      ensures State() == AnalyzerState(old(Tally()), map[])
    {
      cache := map[];
    }

    /** `_update_results`. */
    method UpdateResults(domain: string, displayHash: Option<string>)
      modifies this
      ensures State() == AnalyzerState(Record(old(Tally()), domain, displayHash), old(cache))
    {
      ghost var target := Record(Tally(), domain, displayHash);
      if !Truthy(displayHash) || (domain, displayHash.value) in seenEntries {
        return;
      }
      var h := displayHash.value;
      ghost var created := h !in results;
      ghost var before := if created then HashGroup(0, []) else results[h];
      seenEntries := seenEntries + {(domain, h)};
      if h !in results {
        results := results[h := HashGroup(0, [])];
        order := order + [h];
      }
      var group := results[h];
      assert group == before;
      results := results[h := HashGroup(group.count + 1, group.domains + [domain])];
      assert seenEntries == target.seen;
      assert order == target.order;
      assert results == target.groups;
    }

    /** `_process_image_data` on an already decoded RGBA image, with the clock reading `now`.
        An empty domain list makes `h // len(domains)` raise before anything changes; the caller
        swallows the error, so it is reported as `ok == false`. */
    method ProcessImageData(img: Image, domains: seq<string>, showWhiteHashes: bool,
                            sha256: seq<byte> -> Sha256Hex, now: int) returns (ok: bool)
      requires Valid()
      modifies this
      ensures Valid()
      ensures ok <==> |domains| > 0
      ensures ok ==> State() == ProcessDomains(old(State()), domains,
                                               TileValues(img, domains, showWhiteHashes, sha256), |domains|, now)
      ensures !ok ==> State() == old(State())
    {
      if |domains| == 0 {
        return false;
      }
      ghost var tiles := TileValues(img, domains, showWhiteHashes, sha256);
      var tileHeight := img.Height() / |domains|;
      var idx := 0;
      while idx < |domains|
        invariant 0 <= idx <= |domains|
        invariant State() == ProcessDomains(old(State()), domains, tiles, idx, now)
      {
        ProcessDomainAt(img, domains, idx, tileHeight, showWhiteHashes, sha256, now, tiles);
        idx := idx + 1;
      }
      ProcessDomainsKeepsInv(old(State()), domains, tiles, idx, now);
      ok := true;
    }

    /** The body of the loop in `_process_image_data` for domain `idx`: the cached value if it is
        still live, otherwise the classification of the domain's band, stored in the cache for
        `CACHE_TTL`; then `_update_results` when the value is truthy. */
    method ProcessDomainAt(img: Image, domains: seq<string>, idx: nat, tileHeight: nat,
                           showWhiteHashes: bool, sha256: seq<byte> -> Sha256Hex, now: int,
                           ghost tiles: seq<Option<string>>)
      requires idx < |domains| && tileHeight == img.Height() / |domains|
      requires TilesOf(tiles, img, domains, showWhiteHashes, sha256)
      modifies this
      ensures State() == ProcessDomain(old(State()), domains[idx], tiles[idx], now)
    {
      ghost var looked := CacheOrCompute(cache, domains[idx], now,
                                         TileValue(img, domains, idx, showWhiteHashes, sha256));
      var h := img.Height();
      var domain := domains[idx];
      var displayHash: Option<string>;
      if domain in cache && IsCacheValid(cache[domain], now) {
        displayHash := cache[domain].hash;
      } else {
        var y1 := idx * tileHeight;
        var y2 := if y1 + tileHeight < h then y1 + tileHeight else h;
        assert (y1, y2) == BandBounds(h, |domains|, idx);
        var tile := img.rows[y1..y2];
        displayHash := ProcessTile(tile, showWhiteHashes, sha256);
        cache := cache[domain := CacheEntry(displayHash, now + CACHE_TTL)];
      }
      assert displayHash == looked.0 && cache == looked.1;
      assert Tally() == old(Tally());
      if Truthy(displayHash) {
        UpdateResults(domain, displayHash);
      }
    }

    /** `process_batch` with the network left out: `fetched` is the decoded image when the GET of
        the batch URL answered 200, and `None` when it failed (bad status, transport error, or an
        undecodable body). Every failure is swallowed, so a failed batch changes nothing. */
    method ProcessBatch(batch: seq<string>, fetched: Option<Image>, showWhiteHashes: bool,
                        sha256: seq<byte> -> Sha256Hex, now: int) returns (url: string)
      requires Valid()
      modifies this
      ensures Valid()
      ensures url == Batching.RenderUrl(batch)
      ensures fetched.None? || batch == [] ==> State() == old(State())
      ensures fetched.Some? && batch != [] ==>
                State() == ProcessDomains(old(State()), batch, TileValues(fetched.value, batch, showWhiteHashes, sha256),
                                          |batch|, now)
    {
      url := Batching.BASE_URL + Join("/", batch);
      if fetched.Some? {
        var _ := ProcessImageData(fetched.value, batch, showWhiteHashes, sha256, now);
      }
    }

    /** `self.results.items()` sorted by descending count, ties in insertion order. */
    function SortedResults(): (items: seq<Item>)
      reads this
      requires Valid()
      ensures SortedByCount(items)
      ensures multiset(items) == multiset(ItemsOf(order, results))
      ensures forall c :: WithCount(items, c) == WithCount(ItemsOf(order, results), c)
    {
      SortByCount(ItemsOf(order, results))
    }

    /** `format_results`: the structured dump for "json", the CSV text for "csv" and the table rows
        for any other format, each over the results sorted by descending count. */
    method FormatResults(outputFormat: string) returns (out: Rendered)
      requires Valid()
      ensures outputFormat == "json" ==> out == Json(SortedResults())
      ensures outputFormat == "csv" ==> out == Csv(CsvText(SortedResults()))
      ensures outputFormat != "json" && outputFormat != "csv" ==> out == Table(Map(SortedResults(), TableRowOf))
    {
      var sorted := SortByCount(ItemsOf(order, results));
      if outputFormat == "json" {
        return Json(sorted);
      }
      if outputFormat == "csv" {
        var text := RenderCsv(sorted);
        return Csv(text);
      }
      var table := RenderTable(sorted);
      return Table(table);
    }
  }
}
