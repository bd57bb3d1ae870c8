# zfavalive favicon analyzer — a Dafny model

`zfavalive.py` groups web domains by favicon. It validates a list of domains and packs them
greedily into batches of at most `batch_size` domains. The batch's request URL is a base URL
followed by the domains separated by `/`. A batch of two or more domains keeps that URL under a
maximum length; a batch of a single long domain can exceed it. When `batch_size` is not
positive, or the first domain alone is too long, the first batch is empty. For each batch it
fetches one composite image that stacks the favicons vertically and decodes it. It cuts the image into one horizontal band per domain and
hashes every band that is not blank. It then groups the domains by the first eight hex digits
of that hash and reports the groups, largest first, as JSON, CSV or a table. A per-domain cache
with a 24-hour time to live keeps a domain's classification between images.

The model covers the `FaviconAnalyzer` class:

- **`Batching`**:
  - the constants;
  - `generate_batches`, an imperative method proved against a declarative description of greedy
    packing;
  - the URL of a batch.
- **`Tiles`**:
  - the band arithmetic of `_process_image_data` (`tile_height = h // n`,
    `y2 = min(y1 + tile_height, h)`);
  - `_is_white_square` and `_process_tile`, over an RGBA raster;
  - `tobytes`.
- **`Cache`**: `_is_cache_valid` and the cache-or-compute step.
- **`Aggregation`**: `_update_results`, specified as a function `Record` on a value `Tally` that
  holds the groups, their insertion order and the seen pairs. Its invariant is proved, and so
  is a characterisation of the groups after any sequence of events.
- **`Report`**:
  - the stable descending sort of `format_results`;
  - the truncated domain cells;
  - the CSV lines and the table rows;
  - a proof that the CSV text splits back into the header plus one line per group.
- **`Analyzer`**: the class `FaviconAnalyzer`, whose fields are updated in place by methods
  that mirror the source's loops. Each method is proved against the functions above.
- **`Text`** and **`Seqs`**: Python's `join`, `split` and `str(int)`, plus the sequence helpers.

Python's dict keeps insertion order, and the report relies on it. The model holds that order
explicitly, as the field `order`.

## Model

| member | source | states |
|---|---|---|
| `Batching.GenerateBatches` | zfavalive.py:57-78 | The batches are a greedy packing of the accepted domains: read in order they give back the accepted domains. Only the first batch can be empty and the last is not. A batch was closed only because its successor's first domain failed the length/size test, and every other domain joined its batch only when the test let it. |
| `Batching.PackingBounds` | zfavalive.py:64-74 | No batches exactly when no domain is accepted. A batch holds at most `batch_size` domains (one if `batch_size` is not positive). A batch of two or more domains has a URL of at most `MAX_URL_LENGTH - 1` characters. |
| `Batching.PackingEmptyFirst` | zfavalive.py:66-70 | The first batch is empty exactly when the first accepted domain alone already fails the test: its URL would exceed the maximum, or `batch_size <= 0`. |
| `Batching.TrackedLength` | zfavalive.py:62-74 | For a non-empty current batch, the running length the packer tracks is one more than the real URL length. For the empty batch, at the start and after a flush, it is the URL length exactly. |
| `Batching.RenderUrl` | zfavalive.py:83 | The batch URL's length is the base URL plus the domains plus one separator between each pair of neighbours. |
| `Batching.AppendedBatchFits` | zfavalive.py:66-74 | A batch grown only by appends that passed the test respects the size bound and the URL bound. |
| `Tiles.BandBounds` | zfavalive.py:97-108 | Band `idx` starts at `idx * (h // n)`, is exactly `h // n` rows high and lies within the image. |
| `Tiles.BandsAreContiguous` | zfavalive.py:98-108 | The bands start at row 0 and follow each other without gap or overlap. The last one ends at `n * (h // n) = h - h % n`, so the bottom `h % n` rows are never hashed. |
| `Tiles.BandsPartitionRows` | zfavalive.py:98-109 | A row lies in some band if and only if it is above `n * (h // n)`, and it never lies in two bands. |
| `Tiles.BandRows` | zfavalive.py:107-109 | The cropped band has `h // n` rows, and its row `k` is image row `idx * (h // n) + k`. |
| `Tiles.ToBytesInjective` | zfavalive.py:130 | `tobytes()` is injective on RGBA pixel sequences. |
| `Tiles.ProcessTileCases` | zfavalive.py:120-146 | A tile is blank (`"NULL"` or `None`, per the flag) if and only if it is all opaque white or its 8-digit hash prefix is `5f70bf18`. Otherwise the result is that 8-character prefix, which is never `"NULL"`. `"NULL"` appears only when the flag is set. |
| `Tiles.SameBytesSameTile` | zfavalive.py:120-140 | Two bands with the same bytes are classified alike. |
| `Tiles.ShortImageIsBlank` | zfavalive.py:98-109 | With more domains than image rows every band is empty, hence white, hence blank. |
| `Cache.CacheOrComputeSpec` | zfavalive.py:101-115 | After a lookup, the domain has an entry that is live now and holds the value used, and no other entry changed. A hit on a live entry changes nothing. A miss uses the freshly computed value and keeps it for `CACHE_TTL_HOURS` hours. |
| `Cache.LookupWithinTtlIsStable` | zfavalive.py:35-37 | A second lookup before expiry returns the first value whatever the band now computes to, and leaves the cache unchanged. |
| `Cache.LookupAfterExpiryRecomputes` | zfavalive.py:35-37 | A lookup at or after expiry recomputes the value and renews the expiry. |
| `Aggregation.RecordKeepsInv` | zfavalive.py:148-159 | `_update_results` keeps its invariant. Each count is the length of its domain list. No domain appears twice in a group. The seen set is exactly the recorded pairs. The insertion order lists each key once. |
| `Aggregation.RecordIdempotent` | zfavalive.py:150-151 | Recording the same pair twice is the same as recording it once. |
| `Aggregation.RecordChangesIffNew` | zfavalive.py:150-159 | The state changes if and only if the hash is truthy and the pair is new. |
| `Aggregation.RecordAllGroups` | zfavalive.py:148-159 | Take any sequence of events, starting from empty results. The group of a hash exists if and only if some event carried that hash. It lists the distinct domains that carried the hash, in first-seen order, and its count is how many there are. |
| `Report.SortByCount` | zfavalive.py:163 | The sorted items are a permutation of the input, in non-increasing count. Items of equal count keep their relative order, as in Python's stable `sorted(..., reverse=True)`. |
| `Report.InsertStable` | zfavalive.py:163 | Inserting one item keeps the order among items of every count, and places the new item after those of its own count. |
| `Report.Summarize` | zfavalive.py:176-178 | A domain cell lists the first `min(len, limit)` domains, in order. The listed and hidden counts add up to the list length, and some are hidden if and only if the list is longer than the limit. |
| `Report.SummaryAccountsForGroup` | zfavalive.py:176-187 | The domains a row lists plus its "+K more" equal the group's count. Nothing is hidden if and only if the count is within the limit. Every listed domain was seen with that hash. |
| `Report.CsvTextLines` | zfavalive.py:173-180 | When no hash or domain contains a newline, the CSV text splits into the header plus exactly one line per group, in sorted order. |
| `Text.SplitJoin` | zfavalive.py:83 | Joining with a separator that no part contains, then splitting, gives back the parts. For the URL this means the path determines the batch. |
| `Text.ParseNatToString` | zfavalive.py:179 | The printed count reads back as the same number. |
| `Analyzer.ProcessDomainsKeepsInv` | zfavalive.py:100-118 | Processing an image's domains keeps the results invariant. |
| `Analyzer.ProcessDomainsSettles` | zfavalive.py:100-118 | Afterwards every processed domain has a cache entry that is live now. When that entry's value is truthy, the (domain, value) pair is in the seen set. No seen pair is lost. |
| `Analyzer.ProcessDomainsFrame` | zfavalive.py:100-115 | The cache entries of domains outside the image are untouched. |
| `Seqs.Filter` | zfavalive.py:59 | The accepted domains: every kept domain is accepted by the validator and comes from the input, and every accepted input domain is kept. |
| `Batching.MustFlush` | zfavalive.py:66-68 | No ensures (a predicate). It holds when the tracked length plus the domain and a separator would pass `MAX_URL_LENGTH`, or the batch is full. `PackingBounds` and `PackingEmptyFirst` state its consequences. |
| `Tiles.Band` | zfavalive.py:107-109 | No ensures. `BandRows` states its contract: `h // n` rows, starting at image row `idx * (h // n)`. |
| `Tiles.ToBytes` | zfavalive.py:130 | Four bytes per pixel. `ToBytesInjective` states that no information is lost. |
| `Tiles.IsWhiteSquare` | zfavalive.py:142-146 | No ensures (a predicate). Every pixel of the band is opaque white, `(255, 255, 255, 255)`; an empty band is white. `ShortImageIsBlank` and `ProcessTileCases` use it. |
| `Tiles.HashPrefix` | zfavalive.py:130 | No ensures. The first eight characters of the digest of the band's bytes; `ProcessTileCases` states that a non-blank tile yields exactly this eight-character value. |
| `Tiles.ProcessTile` | zfavalive.py:120-140 | No ensures; see `ProcessTileCases` and `SameBytesSameTile`. |
| `Cache.IsCacheValid` | zfavalive.py:35-37 | No ensures (a predicate). The entry has not yet expired at `now`; `LookupWithinTtlIsStable` and `LookupAfterExpiryRecomputes` state its effect on lookups. |
| `Cache.CacheOrCompute` | zfavalive.py:101-115 | No ensures; see `CacheOrComputeSpec`. |
| `Aggregation.Record` | zfavalive.py:148-159 | No ensures; see `RecordKeepsInv`, `RecordIdempotent`, `RecordChangesIffNew` and `RecordAllGroups`. |
| `Report.RenderSummary` | zfavalive.py:176-178 | No ensures. The listed domains joined by `", "`, then `", +K more (check json)"` when some are hidden; `SummaryAvoidsNewline` and `SummaryAccountsForGroup` state its properties. |
| `Report.CsvLine` | zfavalive.py:179 | No ensures. The quoted hash, the count and the quoted domain cell, truncated at three; `CsvLineAvoidsNewline` states that it is one line. |
| `Report.CsvText` | zfavalive.py:174-180 | No ensures; see `CsvTextLines`. |
| `Report.TableRowOf` | zfavalive.py:184-188 | No ensures. The hash, the count and the domain cell truncated at two; `RenderTable` is proved to build one per item. |
| `Analyzer.ProcessDomain` | zfavalive.py:101-118 | No ensures; see `ProcessDomainEffect`. |
| `Analyzer.ProcessDomainEffect` | zfavalive.py:101-118 | One domain's step only adds seen pairs, leaves the domain with a live entry whose truthy value is recorded, keeps every such domain so, and touches no other domain's cache entry. |
| `Analyzer.ProcessDomains` | zfavalive.py:100-118 | No ensures; see `ProcessDomainsKeepsInv`, `ProcessDomainsSettles` and `ProcessDomainsFrame`. |
| `Analyzer.RenderCsv` | zfavalive.py:173-180 | The CSV loop produces the CSV text of the sorted items. |
| `Analyzer.RenderTable` | zfavalive.py:182-188 | The table loop produces one row per sorted item, in order: hash, count, and the domain cell truncated at two. |
| `Analyzer.FaviconAnalyzer.constructor` | zfavalive.py:24-29 | A new analyzer has no results, no seen pairs and an empty cache. |
| `Analyzer.FaviconAnalyzer.InitCache` | zfavalive.py:31-33 | The cache is emptied and the results are left alone. |
| `Analyzer.FaviconAnalyzer.UpdateResults` | zfavalive.py:148-159 | The new state is `Record` of the old one: the tally invariant and the properties proved about `Record` carry over. |
| `Analyzer.FaviconAnalyzer.ProcessDomainAt` | zfavalive.py:101-118 | One loop turn for a domain: use the cached value, or classify the domain's band and cache the result; then record the pair if the value is truthy. |
| `Analyzer.FaviconAnalyzer.ProcessImageData` | zfavalive.py:93-118 | An empty domain list changes nothing; the source's division by zero is reported as failure. Otherwise the new state is the domains processed in order against their bands' classifications, and the invariant holds. |
| `Analyzer.FaviconAnalyzer.ProcessBatch` | zfavalive.py:80-91 | The request URL is the batch URL. A failed fetch changes nothing. A fetched image is processed as `_process_image_data` does. |
| `Analyzer.FaviconAnalyzer.SortedResults` | zfavalive.py:163 | The result items in non-increasing count, as a stable permutation of their insertion order. |
| `Analyzer.FaviconAnalyzer.FormatResults` | zfavalive.py:161-190 | `"json"` gives the sorted items. `"csv"` gives the CSV text of the sorted items. Any other format gives one table row per sorted item. |

## Left out

- The network is not modelled: `aiohttp`, the session, the HTTP status test and the response body. `ProcessBatch` receives the outcome of the fetch as `fetched`: the decoded image or nothing.
- Image decoding (`Image.open`) and `convert('RGBA')` are not modelled. The image arrives as a raster of RGBA pixels.
- SHA-256 is a function parameter. The model uses only the fact that its hex digest has 64 characters, not that every character is a hex digit.
- `is_valid_domain` (`get_tld`) is a predicate parameter of `GenerateBatches`.
- The clock is not read. Each call takes one integer `now` in seconds, although the source reads `datetime.now()` once per lookup and once per store. Within one image all lookups and stores therefore happen at the same instant.
- Concurrency is not modelled: the `asyncio` semaphore, the thread count, the concurrent batches and `tqdm` progress. Batches are processed one after another.
- `json.dumps` and `tabulate` are not modelled. `FormatResults` returns the structure each would render: the sorted items, or the table rows. The CSV text is built in full.
- The command line and `main` (argument parsing, reading the word list, writing the output) are not modelled.
- The printed error message of `process_batch` is not modelled: a failure just leaves the state unchanged.
- `GenerateBatches` is a module-level method, because the packer reads no field of the analyzer.
- Every band is `h // n` rows high, as at zfavalive.py:98-108. No band absorbs the remainder, so the bottom `h % n` rows are never hashed.
- `ProcessImageData` is specified through `TileValues`, the classification of every band. The method itself computes a band only on a cache miss, as the source does.
