# SmartCompare scraping core in Dafny

SmartCompare is a price-comparison site. Its two backends scrape Smartprix:
`backend-js/server.js` (Express, cheerio, selenium-webdriver, NodeCache) and
`backend/k.py` (FastAPI, BeautifulSoup, Selenium, diskcache). This project
models their scrape, extract and cache pipeline, which each backend
implements separately:

- **Sanitizers.** The query filter is `[\w\s-]`, cut to 100 characters.
  The detail-path filter is `[\w\s\-/.]`, cut to 200. JavaScript's `\w` is
  ASCII-only. Python's `\w` is Unicode, and its non-ASCII part is a
  predicate parameter `alnum`.
- **Listing extractor.** It reads the first ten cards and falls back to
  "N/A" field by field.
- **Detail extractor.** It reads the name, price, features, the
  specifications table and the carousel images.
- **Browser search.** Each stage's outcome (launch, page load, `quit`) is an
  input held in a `World` value. The driver is a class with ghost counters
  that record how often it was quit and what it visited.
- **Result caches.** NodeCache keeps time in milliseconds and one TTL for
  all entries. diskcache keeps time in seconds with an expiry given on each
  `set`. Both take the clock as an explicit parameter.
- **Route handlers.** Each one maps request parameters, and the scrape
  results, to a status and a body.

The network is an oracle parameter `web: string -> Fetched<Page>`, keyed by
the sanitized string. A parsed page is a record of what each fixed CSS
selector matches (module `Dom`). JavaScript objects and Python dicts are
insertion-ordered tables (module `Assoc`): assigning to an existing key
replaces its value in place.

The files are laid out as follows:
- `wrappers`, `seqs`, `text`, `dom`, `assoc`, `browser` and `caches` are
  shared foundations.
- `server_sanitize`, `server_extract`, `server_browser` and `server_routes`
  model `backend-js/server.js`.
- `k_sanitize`, `k_extract`, `k_browser` and `k_routes` model `backend/k.py`.

Where the project's own description and the code disagree, the model
follows the code:
- The Python carousel applies no scheme filter, so relative image paths are
  kept (`KExtract.RelativeSrcKept`).
- Express matches `:catId/:id` only against non-empty path segments. So
  `GET /details/phones/` never reaches the handler. `ServerRoutes.DetailsRoute`
  models the handler itself, and its 400 answer covers a blank segment such
  as `%20`.
- The Python listing is modelled with the card reader as a parameter:
  `KExtract.ReadCardAsWritten` is the code as written and
  `KExtract.ReadCard` the corrected one (see Findings). Every listing,
  scrape and route lemma is stated for either reader.
- In the Python `/scrape` and `/search` handlers, the 400 raised for a blank
  query is caught by `except Exception` and surfaces as 500.

## Model

| member | source | states |
|---|---|---|
| ServerSanitize.SanitizeQuery | backend-js/server.js:62 | the result has at most 100 characters, all ASCII word characters, JS whitespace or `-`, and is a subsequence of the query |
| ServerSanitize.SanitizePath | backend-js/server.js:99 | the result has at most 200 characters from the query set plus `/` and `.`, and is a subsequence of the input |
| ServerSanitize.SanitizeQueryIdempotent | backend-js/server.js:62 | sanitizing a sanitized query changes nothing |
| ServerSanitize.SanitizeQueryFixedPoint | backend-js/server.js:157 | a query is left unchanged exactly when it is clean and at most 100 long |
| ServerSanitize.SanitizePathIdempotent | backend-js/server.js:99 | sanitizing a sanitized path changes nothing |
| ServerSanitize.SanitizePathFixedPoint | backend-js/server.js:99 | a path is left unchanged exactly when it is clean and at most 200 long |
| ServerSanitize.IsBlankMeansAllSpace | backend-js/server.js:274 | `!s?.trim()` holds exactly when every character is JS whitespace |
| ServerExtract.TextOrNAMeaning | backend-js/server.js:79-80 | a text field is "N/A" when the selection's text is all whitespace, and otherwise its trimmed text, non-empty with no blank at either end |
| ServerExtract.AttrOrNAMeaning | backend-js/server.js:81-82 | an attribute field is "N/A" when the attribute is missing or empty, and otherwise the attribute |
| ServerExtract.ListingShape | backend-js/server.js:77-84 | min(10, #cards) items, item i built from card i, none for no cards |
| ServerExtract.ExtractListing | backend-js/server.js:77-88 | the `.slice(0, 10).each` loop yields the items of the first ten cards, in order |
| ServerExtract.ScrapeSmartprix | backend-js/server.js:60-95 | the scrape returns the listing of the page fetched for the sanitized query, or the error object |
| ServerExtract.ScrapeSmartprixOutcome | backend-js/server.js:60-95 | it fails exactly when the GET raises or answers outside 2xx, always with "Failed to scrape products", and otherwise lists at most 10 items |
| ServerExtract.CollectTrimmedTexts | backend-js/server.js:116-118 | the features loop yields the trimmed text of every `li`, in order |
| ServerExtract.CollectSpecifications | backend-js/server.js:120-128 | the heading loop builds the table that assigns each heading's entry in document order |
| ServerExtract.SpecificationsMeaning | backend-js/server.js:121-128 | each heading key holds the specs of the last heading with that key; a heading with no following group maps to [] |
| ServerExtract.SpecificationsOfDistinct | backend-js/server.js:121-128 | with distinct keys there is one entry per heading, in document order |
| ServerExtract.ThreeHeadingsTwoGroups | backend-js/server.js:124-127 | three headings of which two are followed by a group give three keys, the last mapped to [] |
| ServerExtract.HeadingKeyMeaning | backend-js/server.js:122 | a blank heading is stored as "Unknown", any other under its trimmed text |
| ServerExtract.CarouselMeaning | backend-js/server.js:130-136 | a string is in the carousel exactly when it is some image's `src` that starts with "http"; no more entries than images |
| ServerExtract.CollectCarousel | backend-js/server.js:130-136 | the `.each` loop pushes exactly the `src` values that start with "http", in order |
| ServerExtract.ScrapeProductDetails | backend-js/server.js:97-152 | the detail scrape returns the page's detail for the sanitized path, or the error object |
| ServerExtract.ScrapeProductDetailsShape | backend-js/server.js:138-151 | failure exactly on a raised GET or a non-2xx status, with the fixed message; otherwise id == name, empty listings, one feature per `li`, absolute carousel URLs only |
| ServerBrowser.RunSearchScript | backend-js/server.js:168-187 | the in-page loop yields one item per node among the first 40 |
| ServerBrowser.ScriptResultShape | backend-js/server.js:172-180 | min(40, #nodes) items with id == name, and a missing element gives '' |
| ServerBrowser.ScrapeWithSelenium | backend-js/server.js:154-198 | the result is the modelled outcome; a driver exists exactly when the launch succeeds, and it is then quit exactly once after visiting only the sanitized query |
| ServerBrowser.SeleniumOutcomes | backend-js/server.js:154-198 | at most 40 items; [] when the launch, navigation or script fails; an exception escapes exactly when `quit` of a built driver raises |
| ServerBrowser.SeleniumSeesSanitizedQuery | backend-js/server.js:157-166 | queries with the same sanitized form search alike |
| ServerRoutes.ScrapeRouteStatus | backend-js/server.js:271-283 | a blank query gives 400 "Query parameter is required" whatever the upstream does; any other query gives 200, error object included, with at most 10 items |
| ServerRoutes.ScrapeRouteNoCards | backend-js/server.js:271-283 | a 2xx page with no card gives 200 [] |
| ServerRoutes.DetailsRouteStatus | backend-js/server.js:285-303 | a blank catId or id gives 400 before any fetch; otherwise 404 with the error exactly when the GET for `catId/id` fails, else 200 |
| ServerRoutes.DetailsRouteEmptyId | backend-js/server.js:288-290 | ("phones", "") gives 400 "Parameters are required" |
| ServerRoutes.CacheKeyIgnoresCase | backend-js/server.js:314 | queries equal after lower-casing share a key |
| ServerRoutes.CacheKeyFlagMark | backend-js/server.js:314 | the fifth character from the end of a key tells the flags "true" and "false" apart |
| ServerRoutes.CacheKeyInjective | backend-js/server.js:314 | with the flag absent, "true" or "false", keys are equal exactly when the lower-cased queries and the flag texts are |
| ServerRoutes.CacheKeyCollision | backend-js/server.js:314 | an arbitrary flag value lets two different requests share a key |
| ServerRoutes.SearchRoute | backend-js/server.js:305-328 | blank gives 400 with no cache access; an entry live at the lookup gives 200 with the stored value and no scrape; a miss scrapes and stores the result, [] included, with its TTL counted from the write after the scrape, then gives 200; a raising search gives 500, nothing stored, and an expired entry deleted |
| ServerRoutes.RepeatedSearch | backend-js/server.js:315-322 | a second search scrapes again exactly when the TTL counted from the first one's write has passed; before that it repeats the first reply, whatever the browser would now give |
| ServerRoutes.NewServerCache | backend-js/server.js:13 | the cache starts empty with a TTL of 3600 s |
| Caches.NodePutFind | backend-js/server.js:13 | an entry written at t is read back up to and including t + TTL and is absent afterwards; other keys are unaffected |
| Caches.NodeCache.constructor | backend-js/server.js:13 | stdTTL seconds become a millisecond TTL on an empty store |
| Caches.NodeCache.Get | backend-js/server.js:315 | a read returns the live entry and deletes an expired one |
| Caches.NodeCache.Set | backend-js/server.js:322 | a write stores the value with expiry now + TTL |
| Caches.DiskPutFind | backend/k.py:218 | an entry written at t with expire e is read back strictly before t + e and is absent from then on |
| Caches.DiskCache.Contains | backend/k.py:212 | tells whether a live entry exists |
| Caches.DiskCache.Lookup | backend/k.py:214 | returns the live entry, or nothing for the KeyError |
| Caches.DiskCache.Set | backend/k.py:218 | stores the value with expiry now + expire |
| Browser.Launch | backend-js/server.js:161-164 | a fresh, live session that has not been quit exists exactly when the launch succeeds |
| Browser.Driver.Get | backend-js/server.js:166 | navigation records the query and returns the page the world gives |
| Browser.Driver.Quit | backend-js/server.js:193-196 | the session is given up and counted as quit once, whether or not `quit` raises |
| Assoc.Put | backend-js/server.js:127 | assigning an existing key keeps the key order; a new key goes at the end |
| Assoc.PutLookup | backend-js/server.js:127 | after assigning k, k reads as the new value and every other key as before |
| Assoc.BuildLookup | backend/k.py:151 | after a sequence of assignments a key holds the value of its last assignment |
| Assoc.BuildOfDistinct | backend/k.py:151 | assignments to distinct keys give exactly those pairs, in order |
| KSanitize.SanitizeQuery | backend/k.py:49 | at most 100 characters, each a Python word character, whitespace or `-`; a subsequence of the query |
| KSanitize.SanitizePath | backend/k.py:90 | at most 200 characters from the query set plus `/` and `.`; a subsequence of the input |
| KSanitize.SanitizeQueryIdempotent | backend/k.py:227 | sanitizing a sanitized query changes nothing |
| KSanitize.SanitizeQueryFixedPoint | backend/k.py:49 | a query is left unchanged exactly when it is clean and at most 100 long |
| KSanitize.SanitizePathIdempotent | backend/k.py:90 | sanitizing a sanitized path changes nothing |
| KSanitize.SanitizePathFixedPoint | backend/k.py:90 | a path is left unchanged exactly when it is clean and at most 200 long |
| KSanitize.SanitizersAgreeOnAscii | backend/k.py:49 | on ASCII without U+001C..U+001F both servers' sanitizers give the same result |
| KSanitize.SanitizersDiffer | backend/k.py:49 | a U+001C separator is kept by Python and dropped by JavaScript |
| KSanitize.IsBlankMeansAllSpace | backend/k.py:271 | `not s or len(s.strip()) == 0` holds exactly when every character is Python whitespace |
| KExtract.ReadCardMeaning | backend/k.py:66-83 | a card is skipped exactly when its image lacks `src` or its anchor lacks `href`; otherwise a field is "N/A" only when its tag is missing, and else the tag's stripped text or attribute |
| KExtract.HeadingWithoutHrefSkipped | backend/k.py:73 | as written, a card whose h2 has no `href` is always skipped |
| KExtract.HeadingHrefCounterexample | backend/k.py:73 | a card with the link on its anchor is dropped as written and listed by the corrected reader |
| KExtract.ExtractListing | backend/k.py:64-85 | the loop over `products[:10]` appends what the reader gives and skips the cards it rejects |
| KExtract.ListingShape | backend/k.py:64-85 | for either reader: at most min(10, #cards) items, each read from one of the first ten cards; exactly min(10, #cards) when no card is skipped |
| KExtract.ListingAsWrittenEmpty | backend/k.py:66-83 | as written, a page whose every card has an h2 without `href` lists nothing |
| KExtract.ScrapeSmartprix | backend/k.py:46-85 | the scrape, run with the card reader it is given (as written or corrected), returns that reader's listing of the page fetched for the sanitized query, or an error dict |
| KExtract.ScrapeSmartprixAsWrittenEmpty | backend/k.py:64-85 | as written, a 200 page whose cards' h2 carry no `href` gives an empty list |
| KExtract.ScrapeSmartprixOutcome | backend/k.py:53-62 | for either reader, it fails exactly on a raised GET or a status other than 200; "Failed to scrape products" on a raise, and otherwise a message that reports the status, whose decimal reads back as that status |
| KExtract.PairsUpTo | backend/k.py:147-151 | the first n index pairs number n |
| KExtract.PairsUpToAt | backend/k.py:147-151 | pair i is heading i's name with group i's specs |
| KExtract.CollectSpecifications | backend/k.py:138-151 | the `range(min(...))` loop fills the dict from the index pairs; no quick-specs box gives {} |
| KExtract.SpecificationsMeaning | backend/k.py:147-151 | heading i below both counts holds group i's specs unless a later pair reuses its name |
| KExtract.SpecificationsKeys | backend/k.py:147 | only names of the first min(#headings, #groups) headings are keys |
| KExtract.SpecificationsOfDistinct | backend/k.py:147-151 | with distinct names there are min(#headings, #groups) entries |
| KExtract.ThreeHeadingsTwoGroups | backend/k.py:147 | three headings and two groups give two keys, the third heading absent |
| KExtract.GroupSpecsMeaning | backend/k.py:149 | a group's specs are exactly the first-span texts of the `li` elements that have a span, no more than the `li` count |
| KExtract.HeadingNameMeaning | backend/k.py:148 | a heading is "Unknown" when every text node is Python whitespace, and otherwise the non-empty join of its stripped text nodes |
| KExtract.CarouselMeaning | backend/k.py:152 | the carousel holds exactly the stripped non-empty `src` values, with no scheme filter; no more entries than images |
| KExtract.RelativeSrcKept | backend/k.py:152 | a relative `src` is kept here and dropped by the JavaScript server |
| KExtract.StripThenJoinDiffers | backend/k.py:155-157 | `get_text(strip=True)` gives "GalaxyS24" for the text nodes "Galaxy " and "S24", where `.text.strip()` gives "Galaxy S24" |
| KExtract.ScrapeProductDetails | backend/k.py:87-163 | the detail scrape returns the page's detail dict, an error dict, or the escaping exception |
| KExtract.ScrapeProductDetailsShape | backend/k.py:97-163 | a raise gives "Failed to scrape product details" and a non-200 status "Failed to fetch page"; a detail has id == name == the first title's stripped text nodes joined ("N/A" without a title), the price likewise from the first price tag, one feature per `li` in order, the specifications table and the carousel |
| KBrowser.CollectResults | backend/k.py:239-256 | the loop over `products[:limit_product]` keeps the nodes with all three elements |
| KBrowser.ResultsShape | backend/k.py:239-253 | at most 40 items, 20 in compare mode, each from a complete node among the first `limit`, with id == name |
| KBrowser.ScrapeSearch | backend/k.py:223-264 | the result is the modelled outcome; `quit` runs exactly once exactly when the driver was created |
| KBrowser.ScrapeSearchOutcomes | backend/k.py:223-264 | capped by the mode's limit; [] on any failing stage; an exception only from a raising `quit` |
| KRoutes.GetProductsStatus | backend/k.py:268-277 | for either card reader, never 400: a blank query gives 500 whatever the upstream does; any other query gives 200 |
| KRoutes.GetProductsAsWrittenEmpty | backend/k.py:268-277 | as written, cards whose h2 carry no `href` give 200 with an empty list |
| KRoutes.SegmentStart | backend/k.py:290 | the index after the last `/`, with no `/` from there on |
| KRoutes.LastSegmentMeaning | backend/k.py:290 | `split('/')[-1]` is a `/`-free suffix, either the whole link or preceded by `/` |
| KRoutes.AmazonTermMeaning | backend/k.py:290-291 | the Amazon search term is the last segment with each space made `+`, and has no space or `/` |
| KRoutes.GetDetailsStatus | backend/k.py:280-300 | a blank link gives 400 before any fetch; a scrape error gives 404 with its message; an escaping exception gives 500; a detail gives 200 with the images for the raw link's last segment |
| KRoutes.CacheKeyIgnoresCase | backend/k.py:204-207 | queries equal after lower-casing share a key |
| KRoutes.CacheKeyFlagMark | backend/k.py:206 | the fifth character from the end tells "True" and "False" apart |
| KRoutes.CacheKeyInjective | backend/k.py:204-207 | keys are equal exactly when the lower-cased queries and the flags are |
| KRoutes.ScrapeSearchCached | backend/k.py:209-219 | an entry live at `in` is returned with no scrape, or raises `KeyError` when it has expired by `cache[key]`; a miss scrapes once and stores the result, [] included, for 3600 s from the write |
| KRoutes.Search | backend/k.py:303-311 | blank gives 500 with no cache access; otherwise 200 with the cached search, and 500 when the scrape raises or the entry expires between the two reads |
| KRoutes.RepeatedSearch | backend/k.py:209-219 | a second search scrapes again exactly when 3600 s from the first one's write have passed; before that it repeats the first reply, or gives 500 when the entry expires between its two reads |

## Left out

- I/O: HTTP fetching, including headers and timeouts, is an oracle keyed by the sanitized string, and URL encoding (`encodeURIComponent`, `urllib.parse.quote`) is not modelled.
- CSS selector engines and HTML parsing: a page is the record of what each selector matches.
- ServerRoutes.CacheKey: lower-cases ASCII letters only; `toLowerCase` on other characters is not modelled.
- KRoutes.CacheKey: lower-cases ASCII letters only; `str.lower` on other characters is not modelled.
- KRoutes.CacheKey: the SHA-256 hex digest (backend/k.py:207) is left out. The key is the raw string, which stands for the digest under the assumption that the hash is injective.
- ServerRoutes.CacheKey: a repeated `isCompare` parameter, which Express parses into an array, is not modelled.
- The ordering of integer-like keys in JavaScript objects, which come before string keys, is not modelled in the specifications table.
- The store offers (backend/k.py:112-136) are not extracted. Only whether their loops raise is modelled, as `storeStripRaises`.
- `get_amazon_images` (backend/k.py:168-188) is an oracle from search term to image URLs.
- The `/img` route (backend/k.py:319-332) is not modelled.
- Authentication: the auth routes and middleware, bcrypt, JWT and MongoDB are not modelled.
- The frontend is not modelled.
- Concurrency: concurrent duplicate cache misses are not modelled; the caches are sequential.
- CORS, logging and server startup are not modelled.
- Browser element text: the rendered text and the `textContent` of an element are separate inputs, and how they relate is not modelled. So is the 10-second wait, whose timeout is one of the extraction failures.
- NodeCache and diskcache themselves are not modelled beyond expiry: no size limits, no eviction, no persistence, and no `checkperiod` sweep in NodeCache.

## Findings

| source | as written | input that shows it | evidently intended | confidence | as-written member | corrected member |
|---|---|---|---|---|---|---|
| backend/k.py:73 | The link is read from the `href` of the `h2` that `a.name.clamp-2 h2` selects. An `h2` has no `href`, so the subscript raises `KeyError` and the card is skipped. | A card whose `h2` "Phone X" has no attributes and sits inside an anchor with `href="/mobiles/phone-x"`, plus a price and an image with a `src`. | The link is read from the `a.name.clamp-2` anchor, as the JavaScript server does (backend-js/server.js:82). | not executed; high for pages shaped like this one | KExtract.HeadingHrefCounterexample | KExtract.ReadCardMeaning |
