# getRealtor crawl pipeline, modelled in Dafny

getRealtor collects real-estate agency records from a map service. It runs as three scripts.

- **getAllAreaUrls.js** is the crawler. It reads the four coordinates of each of four corner boxes out of query-string literals and computes the region from the least `lat2` to the greatest `lat1` and from the least `lng1` to the greatest `lng2` of those boxes. Since `lat1` is below `lat2` in the literals, this region cuts off part of two corner boxes in latitude. It then lays a grid of tiles over the region, one `/inputdata` URL per tile. A timer draws a random tile URL from the queue every ten seconds, bumps a progress counter and sends the request. The reply's `added` count decides how long the request waits before it finishes.
- **server_with_sql.js** is the collector with a database. It scans a listing document for every `homepage:"http…"` link and fetches each homepage. It strips the `지번주소` label from the address, trims the address and the contact, and keeps a record only when its contact is a `010-` mobile number. Records are stored in an `agencies` table keyed on `(name, contact)`. The `/` route serves one page of 100 rows as an HTML table.
- **index.js** is the variant without a database. It uses the same link scan. A bad contact is blanked instead of the record being dropped. Only records whose contact is longer than 12 in JavaScript's `length`, which counts UTF-16 code units, are kept, with a counter of those kept. The list is served as an HTML table.

The Dafny modules follow that structure:

| module | file | what it holds |
|---|---|---|
| `Wrappers` | wrappers.dfy | `Option` |
| `Numbers` | numbers.dfy | `MinNat`, shared by the queue runs and the table pages |
| `Text` | text.dfy | JavaScript `trim`, `startsWith`, global `replace` of a literal by `''`, `length` in UTF-16 code units, and integer rendering, over `seq<char>` with one `char` per Unicode scalar value |
| `Coordinates` | coordinates.dfy | `getCoordinateRange` with `parseFloat`, over exact reals |
| `Tiler` | tiler.dfy | the corner region (`Math.min`/`Math.max`) and the grid of tiles as a specification |
| `CrawlQueue` | crawl_queue.dfy | the class `Crawler` with `urlQueue`, `totalUrls` and `processedUrls`; `generateUrls` as nested loops, `getRandomUrl` as a splice, the timer tick and the start-up; the cool-down |
| `Homepages` | homepages.dfy | the `while (regex.exec(data))` loop of `fetchHomePageLinks`, and its reference definition |
| `Details` | details.dfy | the post-processing of `scrapeDetails`, in both variants |
| `AgencyStore` | agency_store.dfy | the class `Store` with the `agencies` rows and the AUTOINCREMENT counter; `saveToDatabase`; the `LIMIT 100 OFFSET` page |
| `HtmlTable` | html_table.dfy | `createHtmlTable`, with the two template indentations as a parameter |
| `Pipelines` | pipelines.dfy | the two `fetchAndScrape` loops and the two `/` routes |

Network replies are inputs.

- The listing document is an `Option<string>`, where `None` is a failed request.
- A homepage fetch is a function `fetch: string -> Option<RawFields>`. It gives the `.text()` of the four CSS selectors, or `None` when the request or the parse throws.
- `Math.random()` becomes the index it would yield, passed as `pick`.

Coordinates are exact `real`s, so the grid is the one the loops describe in exact arithmetic.

## Model

| member | source | states |
|---|---|---|
| Coordinates.ParseQueryText | getAllAreaUrls.js:17-25 | For four decimal literals written after `lat1=`, `&lat2=`, `&lng1=`, `&lng2=`, the parser returns exactly their four values. This holds when no `lat1=` comes earlier and the tail after the last literal (such as `&map_level=6`) does not start with a digit or a point, because only the leading decimal of the last capture is read. The source, with its greedy regular expression and its full `parseFloat`, reads the same values when, in addition, the tail repeats none of `&lat2=`, `&lng1=` and `&lng2=` and does not begin with an exponent `e` or `E`, which `parseFloat` would read into the last value. `&map_level=6` meets all of this. |
| Coordinates.ParseQueryParts | getAllAreaUrls.js:18-23 | The four captures are the texts between consecutive keys, free of `&` and of line terminators, plus the rest of the line after `lng2=`, and each is passed through `parseFloat`. |
| Coordinates.LineBreakFails | getAllAreaUrls.js:18-20 | When the text after the first `lat1=` reaches `&lat2=` only across a line terminator, which `.` does not match, no box is read, as the source's `match` is `null` there. |
| Coordinates.CaptureAcrossLine | getAllAreaUrls.js:18 | A capture that would have to cross a line terminator to reach its key fails. |
| Coordinates.LineOf | getAllAreaUrls.js:18 | The last `(.+)` runs to the first line terminator: a prefix free of them, followed by a line terminator or the end. |
| Coordinates.LineOfAppend | getAllAreaUrls.js:18 | Text without line terminators is taken whole, and the capture goes on into what follows it. |
| Coordinates.ParseOfCaptures | getAllAreaUrls.js:18-23 | The parser's result is determined by the first `lat1=` and the three key-delimited captures that follow it. |
| Coordinates.ParseFloatOfDecimal | getAllAreaUrls.js:20-23 | `parseFloat` reads a rendered decimal literal back as its exact value, when the next character cannot extend the literal. |
| Coordinates.ParseFraction | getAllAreaUrls.js:20-23 | A literal with a fraction reads back as its whole part plus the fraction's value. |
| Coordinates.ParseWhole | getAllAreaUrls.js:20-23 | A literal without a fraction reads back as its whole part. |
| Coordinates.CaptureBeforeKey | getAllAreaUrls.js:18 | A non-empty capture free of `&` and of line terminators ends at the key that follows it, and the rest is what follows that key. |
| Coordinates.FindFirstOf | getAllAreaUrls.js:18 | The first occurrence of a key is the one after a prefix that holds no earlier occurrence. |
| Coordinates.FindFirstAt | getAllAreaUrls.js:18 | The search returns the first occurrence at or after its start. |
| Coordinates.Find | getAllAreaUrls.js:18 | A found occurrence lies at or after the start and fits in the string. |
| Coordinates.DecimalText | getAllAreaUrls.js:12-18 | A written decimal, as the corner literals carry them, is non-empty and holds neither `&` nor a line terminator. |
| Tiler.RegionOf | getAllAreaUrls.js:34-37 | `minLat` is at most every corner's `lat2`, `maxLat` at least every `lat1`, `minLng` at most every `lng1` and `maxLng` at least every `lng2`. This does not put the corner boxes inside the region, since a corner's `lat2` can exceed its `lat1`. Each of `minLat`, `maxLat`, `minLng` and `maxLng` equals the matching field (`lat2`, `lat1`, `lng1`, `lng2`) of one of the corners. |
| Tiler.Min4 | getAllAreaUrls.js:34 | `Math.min` of four values is at most each of them and equals one of them. |
| Tiler.Max4 | getAllAreaUrls.js:35 | `Math.max` of four values is at least each of them and equals one of them. |
| Tiler.CrawlRegion | getAllAreaUrls.js:12-37 | The region of the four corner literals, written out. It shows that one corner's `lat2` lies above `maxLat`. |
| Tiler.CountIsOffsetsBelow | getAllAreaUrls.js:77-78 | `k` is below the row (or column) count exactly when `k` steps from the starting edge stay strictly inside the span. |
| Tiler.GridSize | getAllAreaUrls.js:77-85 | The grid holds rows × cols tiles. |
| Tiler.GridAt | getAllAreaUrls.js:77-82 | Queue position `n` holds the tile of row `n / cols`, column `n % cols`. |
| Tiler.GridRowsAt | getAllAreaUrls.js:77-82 | The first `k` rows hold `k * cols` tiles, with `TileAt(i, j)` at `i * cols + j`. |
| Tiler.TileInRegion | getAllAreaUrls.js:77-80 | Every tile satisfies `minLat <= lat2 < lat1 <= maxLat` and `minLng <= lng1 < lng2 <= maxLng`. |
| Tiler.GridInRegion | getAllAreaUrls.js:77-82 | Every queued tile is a non-empty box inside the region. |
| Tiler.GridTileInRegion | getAllAreaUrls.js:77-82 | Each queue position holds a non-empty box inside the region. |
| Tiler.GridStartsAtCorner | getAllAreaUrls.js:77-78 | The first tile starts at `maxLat` and `minLng`. |
| Tiler.GridOrdered | getAllAreaUrls.js:77-82 | A tile queued earlier has a greater `lat1`, or the same `lat1` and a smaller `lng1`. |
| Tiler.TilesOrdered | getAllAreaUrls.js:77-78 | A tile in an earlier row, or earlier in the same row, precedes the other. |
| Tiler.NoGapInRow | getAllAreaUrls.js:78-80 | Within a row, each tile's `lng2` is the next tile's `lng1`. |
| Tiler.NoGapBetweenRows | getAllAreaUrls.js:77-79 | Each row's `lat2` is the next row's `lat1`. |
| Tiler.LastRowAndColumnClamped | getAllAreaUrls.js:79-80 | The last row's `lat2` is `minLat` and the last column's `lng2` is `maxLng`. |
| Tiler.BandTileCovers | getAllAreaUrls.js:77-80 | Each point of the region lies in the tile of the row and column whose bands hold it. |
| Tiler.GridCoversRegion | getAllAreaUrls.js:77-82 | Every point of the region lies in some queued tile. |
| Tiler.TwelveTiles | getAllAreaUrls.js:77-85 | A 4 × 3 degree region with unit steps gives 4 rows, 3 columns and 12 tiles. |
| CrawlQueue.Crawler.constructor | getAllAreaUrls.js:5-9 | The state starts with an empty queue, `totalUrls` 0 and `processedUrls` 1. |
| CrawlQueue.Crawler.GenerateUrls | getAllAreaUrls.js:76-87 | The nested loops append the grid, row by row and west to east, to the queue, and set `totalUrls` to the queue length. |
| CrawlQueue.Crawler.GetRandomUrl | getAllAreaUrls.js:52-56 | Returns the element at the drawn index. The queue becomes the elements before it followed by those after it, and the counters are untouched. |
| CrawlQueue.SpliceRemovesOne | getAllAreaUrls.js:55 | The splice drops the length by exactly one and keeps every other element in order. As a multiset it loses exactly the removed element. |
| CrawlQueue.Crawler.Tick | getAllAreaUrls.js:90-99 | One timer firing, as the step function `Step` describes it. |
| CrawlQueue.StepDispatchesOne | getAllAreaUrls.js:91-95 | On a non-empty queue the tick sends the drawn tile, removes exactly that one, increments `processedUrls` and leaves `totalUrls` alone. |
| CrawlQueue.StepWhenDrained | getAllAreaUrls.js:96-98 | On an empty queue the tick sends nothing and changes nothing, so repeating it is idempotent. |
| CrawlQueue.StepKeepsBalance | getAllAreaUrls.js:85-93 | Every tick keeps the queue length plus `processedUrls` equal to `totalUrls`. |
| CrawlQueue.Crawler.Start | getAllAreaUrls.js:101-110 | Start-up generates the queue. When the queue is not empty it removes one drawn tile to send, without counting it, and otherwise it sends nothing. |
| CrawlQueue.LaunchWhenEmpty | getAllAreaUrls.js:102-110 | With no tiles, start-up sends nothing and leaves `totalUrls` 0 and `processedUrls` 1, so the queue and counters are then out of balance. |
| CrawlQueue.CrawlLaunchSends | getAllAreaUrls.js:12-110 | With the script's own corners and steps, start-up always sends a first request. |
| Tiler.CrawlGridNotEmpty | getAllAreaUrls.js:12-85 | The script's own tiling, the region of its four corners with its two steps, has at least one tile. |
| CrawlQueue.LaunchBalanced | getAllAreaUrls.js:85-106 | After start-up, queue length plus `processedUrls` equals `totalUrls`. |
| CrawlQueue.LaunchState | getAllAreaUrls.js:101-110 | The state after start-up from the initial one is written out. |
| CrawlQueue.RunCounts | getAllAreaUrls.js:90-99 | After `k` ticks, the lesser of `k` and the queue length is the number of tiles sent and counted, and `totalUrls` is unchanged. |
| CrawlQueue.RunSendsEachOnce | getAllAreaUrls.js:90-99 | The tiles sent plus those still queued make up the original queue, as a multiset. |
| CrawlQueue.RunDrains | getAllAreaUrls.js:90-99 | One tick per queued tile sends every tile, empties the queue and counts each tick. |
| CrawlQueue.DrainAfterFirst | getAllAreaUrls.js:90-110 | The first request followed by one tick per remaining tile sends each tile exactly once. |
| CrawlQueue.WholeCrawl | getAllAreaUrls.js:90-110 | From the initial state, start-up plus one tick per remaining tile requests every tile of the grid exactly once. The queue ends empty and `processedUrls` and `totalUrls` both equal the number of tiles. |
| CrawlQueue.WaitTime | getAllAreaUrls.js:68 | The wait is `added * 1000` when `added > 0`, otherwise exactly 10000, so always at least 1000. |
| CrawlQueue.CoolDown | getAllAreaUrls.js:59-73 | A successful request waits `WaitTime(added)` and a failed one waits nothing. |
| CrawlQueue.WaitGrowsWithYield | getAllAreaUrls.js:68 | Among requests that added records, more records means a strictly longer wait. |
| CrawlQueue.OneRecordWaitsLessThanNone | getAllAreaUrls.js:68 | One added record waits 1000 ms and none waits 10000 ms, so the "minimum 10 seconds" of the comment does not hold. |
| Homepages.FetchHomePageLinks | server_with_sql.js:37-54 | The `regex.exec` loop returns the capture of every match, left to right. A failed request returns `[]`. The result equals the reference scan `Links`. |
| Homepages.ExecIsLeftmost | server_with_sql.js:45 | `exec` from `lastIndex` fails exactly when no match starts at or after it. Otherwise it returns the leftmost match. |
| Homepages.Exec | server_with_sql.js:45 | A match starts at or after `lastIndex` and its closing quote lies at least 15 characters further in the data. |
| Homepages.MatchAt | server_with_sql.js:41 | A match at `i` is the key and `http` followed by at least one more character, ending at the first `"` after them. |
| Homepages.QuoteFromIsFirst | server_with_sql.js:41 | `[^"]+` stops at the first quote: no `"` lies between the start and the quote found. |
| Homepages.QuoteFromFirst | server_with_sql.js:41 | The first quote found is the one with no quote before it. |
| Homepages.OpensAtIsPrefix | server_with_sql.js:41 | The character-by-character check of the opening `homepage:"http` is a prefix comparison. |
| Homepages.ScanIsLinks | server_with_sql.js:45-47 | The loop's sequence of `exec` results, resuming after each closing quote, is the reference left-to-right scan. |
| Homepages.ScanStep | server_with_sql.js:45-47 | One loop iteration moves one capture from the remaining scan onto the list found so far. |
| Homepages.LinksWellFormed | server_with_sql.js:41-46 | Every returned link begins with `http`, has at least 5 characters and holds no `"`. |
| Homepages.LinksOccur | server_with_sql.js:41-46 | Every returned link occurs in the data as `homepage:"` + link + `"`. |
| Homepages.NoLinksIffNoMatch | server_with_sql.js:45-49 | The result is empty exactly when the pattern matches nowhere. |
| Homepages.ListingRoundTrip | server_with_sql.js:41-47 | Data that interleaves inert filler text with `homepage:"` + link + `"` gives back exactly those links, in order and with duplicates kept. |
| Homepages.LinkThenRest | server_with_sql.js:41-47 | A listing entry at the front contributes its link and then the scan of the rest. |
| Homepages.LinksShift | server_with_sql.js:45-47 | The scan inside a suffix does not depend on what precedes it. |
| Homepages.SkipInert | server_with_sql.js:45-47 | Inert filler before a key contributes no link. |
| Homepages.InertNoMatch | server_with_sql.js:41 | No match starts inside inert filler that a key follows. |
| Homepages.MatchShift | server_with_sql.js:41 | A match inside the suffix of a concatenation is the suffix's match, moved. |
| Homepages.OpeningAt | server_with_sql.js:41 | At a match the data holds `homepage:"` and then `http`. |
| Text.Trim | server_with_sql.js:64-65 | The trimmed text has no whitespace at either end and is no longer than the input. |
| Text.TrimIsSlice | server_with_sql.js:64-65 | `trim` keeps a slice of its input and removes only whitespace on either side of it. |
| Text.TrimOfTrimmed | server_with_sql.js:64 | Text without surrounding whitespace is returned unchanged. |
| Text.TrimIdempotent | server_with_sql.js:64-65 | Trimming twice is trimming once. |
| Text.TrimStart | server_with_sql.js:64 | The leading-whitespace strip returns a suffix, removes only whitespace, and leaves no leading whitespace. |
| Text.TrimEnd | server_with_sql.js:64 | The trailing-whitespace strip returns a prefix, removes only whitespace, and leaves no trailing whitespace. |
| Text.RemoveAll | server_with_sql.js:64 | A global `replace` by `''` never lengthens the text, and changes nothing where the pattern does not occur. |
| Text.RemoveAllAt | server_with_sql.js:64 | The first occurrence is removed, the text before it is kept as it is, and the replacement goes on with the text after it. With the no-occurrence case of `RemoveAll` this fixes the result for every input. |
| Text.Utf16Length | index.js:76 | JavaScript's `length`: at least the number of characters, at most twice it, and 0 exactly for the empty string. |
| Text.Utf16LengthOfBmp | index.js:76 | Text of the Basic Multilingual Plane has one code unit per character. |
| Text.Utf16LengthOfAstral | index.js:76 | Text of code points above U+FFFF has two code units per character. |
| Text.Utf16LengthAppend | index.js:76 | The code units of a concatenation add up. |
| Text.NatToStringRoundTrip | server_with_sql.js:106 | The rendered row number reads back as the number. |
| Text.NatToString | server_with_sql.js:106 | The rendering of a number is a non-empty digit string with no leading zero. |
| Details.NormaliseAddress | server_with_sql.js:64 | The processed address has no surrounding whitespace and is no longer than the raw text. Without the label it is the trimmed raw text. |
| Details.NormaliseAddressRemovesLabel | server_with_sql.js:64 | In an address holding the label, the first label is removed, the text before it kept, and the removal goes on after it, before the whole is trimmed. |
| Details.CleanAddressUnchanged | server_with_sql.js:64 | An address with no `지번주소` and no surrounding whitespace comes back unchanged. |
| Details.LabelOnlyAddress | server_with_sql.js:64 | The label alone, with spaces around it, normalises to the empty address. |
| Details.ScrapeDetails | server_with_sql.js:57-78 | A record is returned exactly when the page was fetched and its trimmed contact starts with `010-`. Its contact is that trimmed text, its address is `NormaliseAddress` of the raw address, and its name and representative are passed through. |
| Details.CleanMobileContactKept | server_with_sql.js:65-73 | An already trimmed `010-` contact is stored exactly as scraped. |
| Details.EmptyContactDropped | server_with_sql.js:65-71 | An empty contact drops the record in the server variant and yields `''` in the index.js variant. |
| Details.ScrapeDetailsBlanking | index.js:40-66 | Every fetched page gives a record. Its contact is the trimmed `010-` text, or `''` exactly when the trimmed contact does not start with `010-`. The address is normalised, and name and representative are passed through untrimmed. |
| Details.VariantsAgree | index.js:49-59 | The server variant's result is the index.js variant's record when its contact was not blanked, and nothing otherwise. |
| AgencyStore.Store.constructor | server_with_sql.js:16-25 | The table starts empty with the id counter at 1, and is valid. |
| AgencyStore.Store.SaveToDatabase | server_with_sql.js:81-99 | The new table and counter are `Insert` of the old ones, and validity is kept. |
| AgencyStore.InsertDuplicate | server_with_sql.js:82-96 | When a row with the same `(name, contact)` exists, the table is unchanged. |
| AgencyStore.InsertNew | server_with_sql.js:85-87 | Otherwise exactly one row is appended, holding the four fields and an id greater than every existing id, and all existing rows stay as they were. |
| AgencyStore.InsertKeepsValid | server_with_sql.js:82-87 | Saving keeps `(name, contact)` unique and the ids increasing and below the counter. |
| AgencyStore.InsertStoresKey | server_with_sql.js:82-87 | After saving, the record's key is in the table. |
| AgencyStore.InsertTwice | server_with_sql.js:82-86 | Saving the same record twice adds exactly one row when the key was new and none otherwise. The second save changes nothing. |
| AgencyStore.PageIsSlice | server_with_sql.js:119-122 | For `offset >= 0` the page is the rows from `offset` up to `offset + 100` or the end, whichever comes first. It is empty past the end and holds at most 100 rows. |
| AgencyStore.NegativeOffsetIsFirstPage | server_with_sql.js:119-122 | A negative offset reads the first page. |
| AgencyStore.PagesCoverTable | server_with_sql.js:120-122 | Paging from offset 0 in steps of 100 reads every row once, in order. |
| HtmlTable.CreateHtmlTable | server_with_sql.js:102-115 | The `forEach` that appends `html +=` produces the header, one row per record, and then `</table>`. |
| HtmlTable.TableFrame | server_with_sql.js:103-113 | The table begins with the fixed header row and ends with `</table>`. |
| HtmlTable.EmptyTable | index.js:86-97 | An empty list gives the header row followed by `</table>` and nothing else. |
| HtmlTable.RowNumbered | index.js:87-94 | The rows are exactly one per record, with record `k` numbered `k + 1`. |
| HtmlTable.RowsAppend | server_with_sql.js:104-112 | The rows of two consecutive lists are the rows of each, with the numbering carried on. |
| HtmlTable.RowsExtend | server_with_sql.js:104-112 | One more record appends its row, numbered by its position. |
| HtmlTable.RowsOfOne | server_with_sql.js:105-111 | The rows of one record are that record's row. |
| HtmlTable.ConcatAppend | server_with_sql.js:104-112 | Concatenating two row lists is concatenating each. |
| Pipelines.ServerFetchAndScrape | server_with_sql.js:133-141 | The loop leaves the table as `saveToDatabase` applied, in homepage order, to exactly the non-null scrape results. A table with unique keys and increasing ids keeps both. |
| Pipelines.SaveAllStep | server_with_sql.js:135-139 | Each loop iteration saves the next homepage's record, if it has one. |
| Pipelines.ProposalsAppend | server_with_sql.js:135-139 | The records from two consecutive homepage lists are those of each, in order. |
| Pipelines.ProposalsOfOne | server_with_sql.js:136-138 | One homepage contributes exactly the record its scrape returns, if any. |
| Pipelines.ProposalsStep | server_with_sql.js:135-139 | The next homepage adds its record, if any, at the end. |
| Pipelines.ProposalsAreMobile | server_with_sql.js:135-139 | There are at most as many saved records as homepages, and each has a trimmed contact starting with `010-`. |
| Pipelines.SaveAllExtends | server_with_sql.js:135-139 | Saving a list keeps every existing row in place and adds at most one row per record. |
| Pipelines.SaveAllKeepsValid | server_with_sql.js:135-139 | Saving a list keeps the keys unique and the ids ordered. |
| Pipelines.SaveAllStoresEvery | server_with_sql.js:135-139 | After saving a list, every record's key is in the table. |
| Pipelines.KeyStays | server_with_sql.js:82-87 | A key already present stays present after any further save. |
| Pipelines.ServeAgencies | server_with_sql.js:118-130 | The `/` route returns the table of the page at the given offset, or at 0 when none is given. |
| Pipelines.IndexFetchAndScrape | index.js:69-82 | The loop returns exactly the fetched records whose contact is longer than 12 UTF-16 code units, in homepage order, and `cntHomePage` ends at 1 plus their number. |
| Pipelines.KeptStep | index.js:74-79 | Each iteration appends the next record when its contact is long enough. |
| Pipelines.KeptAreLongProposals | index.js:74-79 | The index.js result is the server variant's record list filtered to contacts longer than 12 UTF-16 code units. |
| Pipelines.LongAppendOne | index.js:76 | The length filter of a list extended by one record extends the filtered list by it when it passes. |
| Pipelines.LongBlankedIsMobile | index.js:49-76 | A kept record's contact cannot be blanked, so it begins with `010-`. |
| Pipelines.KeptAreMobile | index.js:49-78 | Every record index.js returns has a contact that begins with `010-` and is longer than 12 UTF-16 code units. |
| Pipelines.AstralContactKept | index.js:76 | `010-` and five emoji above U+FFFF are 9 characters but 14 code units, so such a record is kept. |
| Pipelines.BmpContactLength | index.js:76 | For text of the Basic Multilingual Plane the filter is exactly more than 12 characters. |
| Pipelines.ServeIndex | index.js:101-109 | The `/` route of index.js returns the table of the kept records. |

## Left out

- HTTP (`axios`), cheerio selector evaluation, Express routing, the SQLite engine and its callbacks are not modelled. Their outcomes are inputs: the listing is an `Option<string>`, each homepage fetch is a `fetch` function returning the four selector texts or `None`, and a successful reply to `/inputdata` is an `IngestReply`.
- `setInterval`, `setTimeout` and the un-awaited `sendRequest` calls are left out. Ticks are modelled as sequential steps and the wait as a returned number. The racy check-then-insert of `saveToDatabase` is modelled as one atomic step.
- `Math.random` is left out. The index it would produce is the `pick` parameter, required to be below the queue length as the floor of `random() * length` is.
- IEEE-754 doubles are left out. The drift of repeated `lat -= stepLat` and the rounding of `parseFloat` are replaced by exact reals, so the grid, the gap-free lemmas and the coverage hold for exact arithmetic only.
- Coordinates.ParseFloat: exponents, `Infinity` and leading whitespace are not read. Only `[+-]? digits ('.' digits?)?` and `[+-]? '.' digits` are.
- Coordinates.ParseCoordinateRange: each `(.+)` capture runs to the first following key, where the regular expression's greedy backtracking runs to the last one on the line from which the rest still matches. The model also reads only at the first `lat1=`, while the regular expression tries a later `lat1=` when the first one's line does not match. The two agree when, after the first `lat1=`, each of `&lat2=`, `&lng1=` and `&lng2=` occurs once, in that order, with non-empty captures that all lie on the line of that `lat1=`. The query-string literals meet this.
- Text.Utf16Length: a Dafny `char` is a Unicode scalar value, so a lone surrogate, which a JavaScript string can hold, cannot be represented. Every other string has its JavaScript `length` as its UTF-16 length.
- Tiler.CrawlRegion: the four corner boxes are written out from the literals at getAllAreaUrls.js:12-15, not computed by applying `ParseCoordinateRange` to them. Each literal has the shape that `Coordinates.ParseQueryText` reads back as its box, but the instance is not stated, because it would need the exact values of the 14-digit fractions.
- CrawlQueue.Crawler.GenerateUrls: the queue holds the tile whose four coordinates a URL carries, not the URL string, because JavaScript's rendering of a double inside a template literal is not modelled.
- The error path of `saveToDatabase` (an SQLite error or a UNIQUE violation) is left out along with the engine. So are `parseInt` of the offset (the route takes the parsed `Option<int>`), the row order without `ORDER BY` (insertion order is assumed) and all console logging, including the `this.lastID` line.
- getHappinessTimesWithHeart.js is not part of this model. It is a login and reservation scraper unrelated to the pipeline. The `/inputdata` endpoint that getAllAreaUrls.js calls is served by a separate program and is not modelled.
- The table is built from server_with_sql.js, whose constraint is `UNIQUE(name, contact)` and whose insert is guarded by a look-up of that pair. No key on `url`, and no skip check by URL, is modelled.
